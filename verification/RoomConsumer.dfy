/**
The handlers as methods: a room whose only consumer runs `Start` over what is queued, with no arrivals inside a
handler, updating tables and mailbox in place. Every path through a handler is proved to be a run of the step system,
so what is proved of runs holds of these methods. Database answers, judge verdicts, times and new ids are arbitrary.
*/
module RoomConsumers {
  import opened Options
  import opened Ranking
  import opened RoomHub
  import opened Progress
  import opened Freshness
  import opened Membership

  // The database's answers to one handler: to the lookup, the handler's own write, the storing of places, the read
  // of entries, and the marking of the row.
  datatype Answers = Answers(found: bool, written: bool, stored: bool, read: bool, marked: bool)

  // The statements of a recalculation.
  ghost function RecalcTrace(ok: bool): seq<Step> {
    [Acquire(0), Snapshot(0), if ok then StorePlaces(0) else RecalcFails(0)]
  }

  // Recalculate, whether or not that succeeds, then read the entries.
  ghost function RefreshTrace(a: Answers): seq<Step> {
    RecalcTrace(a.stored) + [ReadEntries(0, a.read)]
  }

  // A player without a row, or whose row could not be looked up, is inserted; only a failing insert ends the handler.
  ghost function FindTrace(present: bool, now: int, a: Answers): seq<Step> {
    if a.found && present then [Lookup(0, true)] else [Lookup(0, a.found), Insert(0, now, a.written && !present)]
  }

  ghost predicate FindFails(present: bool, a: Answers) {
    !(a.found && present) && !(a.written && !present)
  }

  ghost function SubmitTrace(created: bool, id: SubmissionId, verdict: Option<bool>, blocked: bool): seq<Step> {
    if !created then [GiveUp(0)]
    else if verdict == None then [CreateRow(0, id), GiveUp(0)]
    else if blocked then [CreateRow(0, id), Judge(0, verdict.value)]
    else [CreateRow(0, id), Judge(0, verdict.value), SendResult(0)]
  }

  // A wrong result is marked; a right one is credited, and marked last, unless the credit or the read fails.
  ghost function ResultTrace(accepted: bool, fits: bool, a: Answers): seq<Step> {
    if !accepted then [MarkWrong(0, a.marked)]
    else if !a.written || !fits then [AddScore(0, false)]
    else if !a.read then [AddScore(0, true)] + RefreshTrace(a)
    else [AddScore(0, true)] + RefreshTrace(a) + [MarkAccepted(0, a.marked)]
  }

  class RoomConsumer {
    const room: RoomId
    var mailbox: seq<Msg>
    var tables: Db
    var nextRow: nat
    var subs: map<SubmissionId, Status>
    var leaderboardMu: bool
    var issued: nat
    // where the consumer is, and the history the step system keeps
    ghost var pc: Pc
    ghost var origin: map<nat, int>
    ghost var log: seq<Credit>
    ghost var settled: map<nat, SubmissionId>
    ghost var failed: set<nat>
    ghost var answers: multiset<SubmissionId>
    ghost var missed: bool
    ghost var rowErrors: bool
    ghost var sent: seq<Msg>

    ghost function View(): Hub
      reads this
    {
      Hub(room, mailbox, [pc], if leaderboardMu then Some(0) else None,
          Book(tables, nextRow, origin, log), subs, Ledger(issued, settled, failed, answers),
          missed, rowErrors, sent)
    }

    // Brings the program counter and the history up to those of `after`, the state a step has just led to.
    ghost method Record(after: Hub)
      requires |after.pcs| == 1
      modifies this`pc, this`origin, this`log, this`settled, this`failed, this`answers
      modifies this`missed, this`rowErrors, this`sent
      ensures pc == after.pcs[0] && origin == after.book.origin && log == after.book.log
      ensures settled == after.ledger.settled && failed == after.ledger.failed && answers == after.ledger.answers
      ensures missed == after.missed && rowErrors == after.rowErrors && sent == after.sent
    {
      pc, origin, log := after.pcs[0], after.book.origin, after.book.log;
      settled, failed, answers := after.ledger.settled, after.ledger.failed, after.ledger.answers;
      missed, rowErrors, sent := after.missed, after.rowErrors, after.sent;
    }

    // ------------------------------------------------------------ queries and sends
    // `ok` is the database's answer: whether it carries out the statement, unless a constraint forbids that.

    method GetRoomPlayer(player: PlayerId, roomId: RoomId, ok: bool) returns (found: bool, ghost st: Step)
      requires pc == JoinLookup(player, roomId)
      modifies this
      ensures st == Lookup(0, ok) && Enabled(old(View()), st) && View() == Apply(old(View()), st)
      ensures found <==> ok && player in old(RowsOf(tables, roomId))
      ensures pc == if found then WantLock(ByJoin) else JoinInsert(player, roomId)
      ensures tables == old(tables) && leaderboardMu == old(leaderboardMu)
    {
      found := ok && player in RowsOf(tables, roomId);
      st := Lookup(0, ok);
      Record(Apply(View(), st));
    }

    // `now` is the time joined_at defaults to.
    method CreateRoomPlayer(player: PlayerId, roomId: RoomId, now: int, ok: bool) returns (err: bool, ghost st: Step)
      requires pc == JoinInsert(player, roomId)
      modifies this
      ensures st == Insert(0, now, !err) && Enabled(old(View()), st) && View() == Apply(old(View()), st)
      ensures err <==> !ok || player in old(RowsOf(tables, roomId))
      ensures err ==> tables == old(tables)
      ensures !err ==>
        && RowsOf(tables, roomId).Keys == old(RowsOf(tables, roomId)).Keys + {player}
        && RowsOf(tables, roomId)[player] == Row(old(nextRow), 0, now, None) && nextRow > old(nextRow)
        && forall q :: q in old(RowsOf(tables, roomId)) ==> RowsOf(tables, roomId)[q] == old(RowsOf(tables, roomId))[q]
      ensures pc == if err then Idle else WantLock(ByJoin)
      ensures leaderboardMu == old(leaderboardMu)
    {
      ghost var before := View();
      err := !ok || player in RowsOf(tables, roomId);
      st := Insert(0, now, !err);
      if !err {
        tables := tables[roomId := RowsOf(tables, roomId)[player := Row(nextRow, 0, now, None)]];
        nextRow := nextRow + 1;
      }
      Record(Apply(before, st));
    }

    method DeleteRoomPlayer(player: PlayerId, roomId: RoomId, ok: bool) returns (ghost st: Step)
      requires pc == Leaving(player, roomId)
      modifies this
      ensures st == Delete(0, ok) && Enabled(old(View()), st) && View() == Apply(old(View()), st)
      ensures RowsOf(tables, roomId)
        == if ok then old(RowsOf(tables, roomId)) - {player} else old(RowsOf(tables, roomId))
      ensures pc == WantLock(ByLeft)
      ensures leaderboardMu == old(leaderboardMu)
    {
      ghost var before := View();
      st := Delete(0, ok);
      if ok {
        tables := tables[roomId := RowsOf(tables, roomId) - {player}];
      }
      Record(Apply(before, st));
    }

    method AddRoomPlayerScore(res: Judged, ok: bool) returns (err: bool, ghost st: Step)
      requires pc == Settling(res) && res.accepted
      modifies this
      ensures st == AddScore(0, !err) && Enabled(old(View()), st) && View() == Apply(old(View()), st)
      ensures
        var rows := old(RowsOf(tables, res.sub.room));
        err <==> !ok || (res.sub.player in rows && rows[res.sub.player].score + res.score > 0x7fff_ffff)
      ensures pc == if err then Idle else WantLock(ByCredit(res))
      ensures leaderboardMu == old(leaderboardMu)
    {
      ghost var before := View();
      var rows := RowsOf(tables, res.sub.room);
      var p := res.sub.player;
      err := !ok || (p in rows && rows[p].score + res.score > MAX_SCORE);
      st := AddScore(0, !err);
      if !err && p in rows {
        tables := tables[res.sub.room := rows[p := rows[p].(score := rows[p].score + res.score)]];
      }
      Record(Apply(before, st));
    }

    method Lock() returns (ghost st: Step)
      requires pc.WantLock? && !leaderboardMu
      modifies this
      ensures st == Acquire(0) && Enabled(old(View()), st) && View() == Apply(old(View()), st)
      ensures pc == Locked(old(pc).why) && leaderboardMu
    {
      ghost var before := View();
      leaderboardMu := true;
      st := Acquire(0);
      Record(Apply(before, st));
    }

    method RankPlayers() returns (ranks: map<PlayerId, Ranked>, ghost st: Step)
      requires pc.Locked?
      modifies this
      ensures st == Snapshot(0) && Enabled(old(View()), st) && View() == Apply(old(View()), st)
      ensures pc == Snapped(old(pc).why, ranks) && ranks == SnapshotOf(RowsOf(tables, room))
      ensures leaderboardMu == old(leaderboardMu)
    {
      ranks := SnapshotOf(RowsOf(tables, room));
      st := Snapshot(0);
      Record(Apply(View(), st));
    }

    // Stores the ranks, or reports an error and leaves the rows as they were; unlocks either way.
    method StoreRanks(ranks: map<PlayerId, Ranked>, ok: bool) returns (err: bool, ghost st: Step)
      requires pc.Snapped? && pc.snap == ranks && leaderboardMu
      modifies this
      ensures st == (if err then RecalcFails(0) else StorePlaces(0))
      ensures Enabled(old(View()), st) && View() == Apply(old(View()), st)
      ensures err <==> !ok
      ensures pc == Reading(old(pc).why) && !leaderboardMu
      ensures RowsOf(tables, room)
        == if err then old(RowsOf(tables, room)) else WritePlaces(old(RowsOf(tables, room)), ranks)
    {
      ghost var before := View();
      err := !ok;
      st := if err then RecalcFails(0) else StorePlaces(0);
      if !err {
        tables := tables[room := WritePlaces(RowsOf(tables, room), ranks)];
      }
      leaderboardMu := false;
      Record(Apply(before, st));
    }

    method CalculateLeaderboard(ok: bool) returns (err: bool, ghost steps: seq<Step>)
      requires pc.WantLock? && !leaderboardMu
      modifies this
      ensures Ran(old(View()), steps, View())
      ensures steps == RecalcTrace(ok) && (err <==> !ok)
      ensures pc == Reading(old(pc).why) && !leaderboardMu
      ensures err ==> RowsOf(tables, room) == old(RowsOf(tables, room))
      ensures !err ==> Fresh(RowsOf(tables, room))
    {
      ghost var v0 := View();
      ghost var st := Lock();
      RanOn(v0, [], v0, st);
      steps := [] + [st];
      ghost var v1 := View();
      var ranks;
      ranks, st := RankPlayers();
      RanOn(v0, steps, v1, st);
      steps := steps + [st];
      ghost var v2 := View();
      CurrentSnapshotRefreshes(RowsOf(tables, room));
      err, st := StoreRanks(ranks, ok);
      RanOn(v0, steps, v2, st);
      steps := steps + [st];
    }

    method GetRoomLeaderboardEntries(ok: bool) returns (err: bool, ghost st: Step)
      requires pc.Reading?
      modifies this
      ensures st == ReadEntries(0, ok) && Enabled(old(View()), st) && View() == Apply(old(View()), st)
      ensures err <==> !ok
      ensures pc == if !err && old(pc).why.ByCredit? then Marking(old(pc).why.res) else Idle
    {
      err := !ok;
      st := ReadEntries(0, ok);
      Record(Apply(View(), st));
    }

    // `newId` is the id the database generates; `ok` also says whether the language was found.
    method CreateSubmission(sub: Submission, newId: SubmissionId, ok: bool)
      returns (id: SubmissionId, err: bool, ghost st: Step)
      requires pc == Submitting(sub)
      modifies this
      ensures st == (if err then GiveUp(0) else CreateRow(0, id))
      ensures Enabled(old(View()), st) && View() == Apply(old(View()), st)
      ensures id == newId && (err <==> !ok || id in old(subs))
      ensures subs == if err then old(subs) else old(subs)[id := Pending]
      ensures pc == if err then Idle else Judging(sub, id)
      ensures mailbox == old(mailbox) && leaderboardMu == old(leaderboardMu)
    {
      ghost var before := View();
      id := newId;
      err := !ok || id in subs;
      if err {
        st := GiveUp(0);
      } else {
        st := CreateRow(0, id);
        subs := subs[id := Pending];
      }
      Record(Apply(before, st));
    }

    method UpdateSubmissionStatus(res: Judged, status: Status, ok: bool) returns (ghost st: Step)
      requires
        || (pc == Settling(res) && !res.accepted && status == WrongAnswer)
        || (pc == Marking(res) && status == Accepted)
      modifies this
      ensures st == (if status == WrongAnswer then MarkWrong(0, ok) else MarkAccepted(0, ok))
      ensures Enabled(old(View()), st) && View() == Apply(old(View()), st)
      ensures subs == if ok then old(subs)[res.id := status] else old(subs)
      ensures pc == Idle && leaderboardMu == old(leaderboardMu)
    {
      ghost var before := View();
      st := if status == WrongAnswer then MarkWrong(0, ok) else MarkAccepted(0, ok);
      if ok {
        subs := subs[res.id := status];
      }
      Record(Apply(before, st));
    }

    // Loads the problem, builds the code and runs it; `verdict` is None if any of that is unavailable, and otherwise
    // says whether the answer is taken for an accepted solution.
    method JudgeSubmission(sub: Submission, id: SubmissionId, verdict: Option<bool>)
      returns (result: Option<Judged>, ghost st: Step)
      requires pc == Judging(sub, id)
      modifies this
      ensures st == (if verdict == None then GiveUp(0) else RoomHub.Judge(0, verdict.value))
      ensures Enabled(old(View()), st) && View() == Apply(old(View()), st)
      ensures result == if verdict == None then None else Some(Judged(sub, id, verdict.value, 50))
      ensures pc == if result == None then Idle else Sending(result.value)
      ensures mailbox == old(mailbox) && leaderboardMu == old(leaderboardMu)
    {
      var ready := verdict.Some?;
      var accepted := ready && verdict.value;
      result := if ready then Some(Judged(sub, id, accepted, AWARD)) else None;
      st := if ready then RoomHub.Judge(0, accepted) else GiveUp(0);
      Record(Apply(View(), st));
    }

    // A send that finds its own mailbox full would never return, because nobody else drains it.
    method SendToSelf(result: Judged) returns (ghost st: Step)
      requires pc == Sending(result) && |mailbox| < MAILBOX_SLOTS
      modifies this
      ensures st == SendResult(0) && Enabled(old(View()), st) && View() == Apply(old(View()), st)
      ensures pc == Idle && mailbox == old(mailbox) + [SolutionResult(result)] && leaderboardMu == old(leaderboardMu)
    {
      ghost var before := View();
      mailbox := mailbox + [SolutionResult(result)];
      st := SendResult(0);
      Record(Apply(before, st));
    }

    // ------------------------------------------------------------ arrivals

    // The HTTP handler's enqueue: a submission that finds the mailbox full is turned away, never waited for.
    method EnqueueSubmission(player: PlayerId) returns (accepted: bool)
      requires |mailbox| <= MAILBOX_SLOTS
      modifies this
      ensures View() == Apply(old(View()), Submit(player))
      ensures accepted <==> old(|mailbox|) < 10
      ensures accepted ==> mailbox == old(mailbox) + [SolutionSubmitted(Submission(old(issued), player, room))]
      ensures !accepted ==> View() == old(View())
      ensures |mailbox| <= MAILBOX_SLOTS
    {
      ghost var before := View();
      accepted := |mailbox| < MAILBOX_SLOTS;
      if accepted {
        mailbox := mailbox + [SolutionSubmitted(Submission(issued, player, room))];
        issued := issued + 1;
      }
      Record(Apply(before, Submit(player)));
    }

    // ------------------------------------------------------------ handlers
    // Each handler states the statements it carries out, in order, for every combination of answers.

    method RecalculateAndRead(answers: Answers) returns (err: bool, ghost steps: seq<Step>)
      requires pc.WantLock? && !leaderboardMu
      modifies this
      ensures Ran(old(View()), steps, View())
      ensures steps == RefreshTrace(answers) && (err <==> !answers.read)
      ensures pc == (if !err && old(pc).why.ByCredit? then Marking(old(pc).why.res) else Idle) && !leaderboardMu
    {
      var failed;
      failed, steps := CalculateLeaderboard(answers.stored);
      ghost var v := View();
      ghost var st;
      err, st := GetRoomLeaderboardEntries(answers.read);
      RanOn(old(View()), steps, v, st);
      steps := steps + [st];
    }

    // Looks the player up and, if that finds no row, inserts one.
    method FindOrAddPlayer(player: PlayerId, roomId: RoomId, now: int, answers: Answers)
      returns (err: bool, ghost steps: seq<Step>)
      requires pc == JoinLookup(player, roomId)
      modifies this
      ensures Ran(old(View()), steps, View())
      ensures steps == FindTrace(player in old(RowsOf(tables, roomId)), now, answers)
      ensures err <==> FindFails(player in old(RowsOf(tables, roomId)), answers)
      ensures pc == (if err then Idle else WantLock(ByJoin)) && leaderboardMu == old(leaderboardMu)
    {
      ghost var v0 := View();
      var found;
      ghost var st;
      found, st := GetRoomPlayer(player, roomId, answers.found);
      RanOn(v0, [], v0, st);
      steps := [] + [st];
      err := false;
      if !found {
        ghost var v1 := View();
        err, st := CreateRoomPlayer(player, roomId, now, answers.written);
        RanOn(v0, steps, v1, st);
        steps := steps + [st];
      }
    }

    method ProcessPlayerJoined(player: PlayerId, roomId: RoomId, now: int, answers: Answers)
      returns (ghost steps: seq<Step>)
      requires pc == JoinLookup(player, roomId) && !leaderboardMu
      modifies this
      ensures Ran(old(View()), steps, View())
      ensures
        var present := player in old(RowsOf(tables, roomId));
        steps == FindTrace(present, now, answers) + if FindFails(present, answers) then [] else RefreshTrace(answers)
      ensures pc == Idle && !leaderboardMu
    {
      ghost var v0 := View();
      var err;
      err, steps := FindOrAddPlayer(player, roomId, now, answers);
      if err {
        return;
      }
      ghost var v1 := View();
      ghost var more;
      err, more := RecalculateAndRead(answers);
      RanThen(v0, steps, v1, more, View());
      steps := steps + more;
    }

    method ProcessPlayerLeft(player: PlayerId, roomId: RoomId, answers: Answers) returns (ghost steps: seq<Step>)
      requires pc == Leaving(player, roomId) && !leaderboardMu
      modifies this
      ensures Ran(old(View()), steps, View())
      ensures steps == [Delete(0, answers.written)] + RefreshTrace(answers)
      ensures pc == Idle && !leaderboardMu
    {
      ghost var v0 := View();
      ghost var st := DeleteRoomPlayer(player, roomId, answers.written);
      RanOn(v0, [], v0, st);
      steps := [] + [st];
      ghost var v1 := View();
      ghost var more;
      var err;
      err, more := RecalculateAndRead(answers);
      RanThen(v0, steps, v1, more, View());
      steps := steps + more;
    }

    // `blocked` stands for never returning: the sole consumer waits to send into its own full mailbox.
    method ProcessSolutionSubmitted(sub: Submission, newId: SubmissionId, verdict: Option<bool>, answers: Answers)
      returns (blocked: bool, ghost steps: seq<Step>)
      requires pc == Submitting(sub) && |mailbox| <= MAILBOX_SLOTS
      modifies this
      ensures Ran(old(View()), steps, View())
      ensures steps == SubmitTrace(answers.written && newId !in old(subs), newId, verdict, blocked)
      ensures blocked <==> answers.written && newId !in old(subs) && verdict.Some? && |old(mailbox)| == MAILBOX_SLOTS
      ensures leaderboardMu == old(leaderboardMu)
      ensures if blocked then Wedged(View()) && mailbox == old(mailbox) else pc == Idle
    {
      blocked := false;
      ghost var v0 := View();
      ghost var st;
      var id, err;
      id, err, st := CreateSubmission(sub, newId, answers.written);
      RanOn(v0, [], v0, st);
      steps := [] + [st];
      if err {
        return;
      }
      ghost var v1 := View();
      var result;
      result, st := JudgeSubmission(sub, id, verdict);
      RanOn(v0, steps, v1, st);
      steps := steps + [st];
      if result == None {
        return;
      }
      if |mailbox| == MAILBOX_SLOTS {
        blocked := true;
        return;
      }
      ghost var v2 := View();
      st := SendToSelf(result.value);
      RanOn(v0, steps, v2, st);
      steps := steps + [st];
    }

    method ProcessSolutionResult(res: Judged, answers: Answers) returns (ghost steps: seq<Step>)
      requires pc == Settling(res) && !leaderboardMu
      modifies this
      ensures Ran(old(View()), steps, View())
      ensures
        var rows := old(RowsOf(tables, res.sub.room));
        var fits := res.sub.player in rows ==> rows[res.sub.player].score + res.score <= 0x7fff_ffff;
        steps == ResultTrace(res.accepted, fits, answers)
      ensures pc == Idle && !leaderboardMu
    {
      ghost var v0 := View();
      ghost var st;
      if !res.accepted {
        st := UpdateSubmissionStatus(res, WrongAnswer, answers.marked);
        RanOn(v0, [], v0, st);
        steps := [] + [st];
        return;
      }
      var err;
      err, st := AddRoomPlayerScore(res, answers.written);
      RanOn(v0, [], v0, st);
      steps := [] + [st];
      if err {
        return;
      }
      ghost var v1 := View();
      ghost var more;
      err, more := RecalculateAndRead(answers);
      RanThen(v0, steps, v1, more, View());
      steps := steps + more;
      if err {
        return;
      }
      ghost var v2 := View();
      st := UpdateSubmissionStatus(res, Accepted, answers.marked);
      RanOn(v0, steps, v2, st);
      steps := steps + [st];
    }

    // One turn of the receive loop.
    method HandleNext() returns (ghost steps: seq<Step>)
      requires pc == Idle && !leaderboardMu && mailbox != [] && |mailbox| <= MAILBOX_SLOTS
      modifies this
      ensures Ran(old(View()), steps, View()) && steps != []
      ensures pc == Idle && !leaderboardMu
    {
      ghost var v0 := View();
      var event := mailbox[0];
      mailbox := mailbox[1..];
      Record(Apply(v0, Take(0)));
      RanOn(v0, [], v0, Take(0));
      ghost var v1 := View();
      ghost var more;
      var answers: Answers := *;
      match event {
        case SolutionSubmitted(sub) =>
          var newId: SubmissionId := *;
          var verdict: Option<bool> := *;
          var blocked;
          blocked, more := ProcessSolutionSubmitted(sub, newId, verdict, answers);
        case SolutionResult(res) => more := ProcessSolutionResult(res, answers);
        case PlayerJoined(player, roomId) =>
          var now: int := *;
          more := ProcessPlayerJoined(player, roomId, now, answers);
        case PlayerLeft(player, roomId) => more := ProcessPlayerLeft(player, roomId, answers);
      }
      RanThen(v0, [] + [Take(0)], v1, more, View());
      steps := [] + [Take(0)] + more;
    }

    // The receive loop until nothing is queued.
    method ServeQueued() returns (ghost steps: seq<Step>)
      requires pc == Idle && Sound(View())
      modifies this
      ensures Ran(old(View()), steps, View())
      ensures Drained(View()) && Sound(View())
    {
      steps := [];
      while mailbox != []
        invariant Ran(old(View()), steps, View())
        invariant pc == Idle && Sound(View())
        decreases Work(View())
      {
        ghost var v := View();
        ghost var more := HandleNext();
        ConsumersStop(v, more);
        SoundRun(v, more);
        RanThen(old(View()), steps, v, more, View());
        steps := steps + more;
      }
    }

    // From a newly started room with messages delivered to it, serving the queue leaves every place right, unless
    // the last recalculation failed, and the members decided by each player's last message, unless a row query failed.
    method ServeFrom(ghost start: Hub, ghost before: seq<Step>) returns (ghost steps: seq<Step>)
      requires Started(start) && IsRun(start, before) && Exec(start, before) == View() && pc == Idle
      modifies this
      ensures mailbox == [] && IsRun(start, steps) && Exec(start, steps) == View()
      ensures !missed ==> Fresh(RowsOf(tables, room))
      ensures !rowErrors ==> forall p :: p in RowsOf(tables, room) <==>
        LastWord(sent, p) == Some(true) || (LastWord(sent, p) == None && p in Members(start))
    {
      SoundRun(start, before);
      ghost var v := View();
      ghost var more := ServeQueued();
      RunThenRun(start, before, more);
      steps := before + more;
      if !missed {
        IdleHubIsFresh(start, steps);
      }
      SoundRun(start, steps);
      if !rowErrors {
        forall p ensures p in RowsOf(tables, room) <==>
          LastWord(sent, p) == Some(true) || (LastWord(sent, p) == None && p in Members(start))
        {
          SoleNeverCrosses(start, steps, p);
          DrainedMembersFollowLastWord(start, steps, p);
        }
      }
    }
  }
}
