/**
One room's hub as a step system.

A room has a ten-slot mailbox drained by any number of consumers (`RoomHub.Start` goroutines). Each consumer is a
program counter inside one of the `process*` handlers; every database call, lock operation and channel operation
is one step, so steps of different consumers interleave freely. A recalculation is split into taking the ranking
snapshot and storing the places. Every database write may fail, and then changes nothing.
*/
module RoomHub {
  import opened Options
  import opened Ranking

  const MAILBOX_SLOTS := 10
  const AWARD := 50
  const MAX_SCORE := 0x7fff_ffff

  type RoomId = nat
  type SubmissionId = nat

  // A submission accepted into the mailbox; the ticket numbers accepted submissions.
  datatype Submission = Submission(ticket: nat, player: PlayerId, room: RoomId)

  // A judged submission: the SolutionResult message, naming the row created for it.
  datatype Judged = Judged(sub: Submission, id: SubmissionId, accepted: bool, score: int)

  datatype Msg =
    | SolutionSubmitted(sub: Submission)
    | SolutionResult(res: Judged)
    | PlayerJoined(player: PlayerId, room: RoomId)
    | PlayerLeft(player: PlayerId, room: RoomId)

  datatype Status = Pending | Accepted | WrongAnswer

  // Why a handler recalculates, and so what it does afterwards.
  datatype Cause = ByJoin | ByLeft | ByCredit(res: Judged)

  // Where a consumer is.
  datatype Pc =
    | Idle
    | Submitting(sub: Submission)                         // before the submission row exists
    | Judging(sub: Submission, id: SubmissionId)          // the pending row exists
    | Sending(res: Judged)                                // about to put the result into its own mailbox
    | Settling(res: Judged)                               // a result has been taken
    | JoinLookup(player: PlayerId, room: RoomId)
    | JoinInsert(player: PlayerId, room: RoomId)
    | Leaving(player: PlayerId, room: RoomId)
    | WantLock(why: Cause)
    | Locked(why: Cause)                                  // holds leaderboardMu, query not started
    | Snapped(why: Cause, snap: map<PlayerId, Ranked>)    // holds leaderboardMu, ranks computed
    | Reading(why: Cause)
    | Marking(res: Judged)                                // credited; the row is still pending

  type Db = map<RoomId, Rows>

  // One successful score update: for which submission and player, and the row it hit, if there was one.
  datatype Credit = Credit(id: SubmissionId, player: PlayerId, row: Option<nat>)

  // The room_players table, with the history needed to speak of conservation.
  datatype Book = Book(
    db: Db,
    nextRow: nat,                 // row identities below this one have been used
    origin: map<nat, int>,        // score of each row when it was inserted (or when the run started)
    log: seq<Credit>)

  // What became of the submissions accepted into the mailbox.
  datatype Ledger = Ledger(
    issued: nat,                  // tickets below this one were accepted
    settled: map<nat, SubmissionId>,  // tickets whose handling ended with a verdict, and their rows
    failed: set<nat>,             // tickets whose handler gave up
    answers: multiset<SubmissionId>)  // every result ever put into the mailbox, by submission row

  datatype Hub = Hub(
    room: RoomId,
    mailbox: seq<Msg>,
    pcs: seq<Pc>,
    lock: Option<nat>,            // holder of leaderboardMu
    book: Book,
    subs: map<SubmissionId, Status>,
    // history
    ledger: Ledger,
    missed: bool,                 // no recalculation has succeeded since one failed
    rowErrors: bool,              // some query on the member rows failed
    sent: seq<Msg>)               // joined and left messages in the order they entered the mailbox

  datatype Step =
    | Submit(player: PlayerId)
    | Arrive(msg: Msg)
    | Take(c: nat)
    | GiveUp(c: nat)
    | CreateRow(c: nat, id: SubmissionId)
    | Judge(c: nat, accepted: bool)
    | SendResult(c: nat)
    | MarkWrong(c: nat, ok: bool)
    | AddScore(c: nat, ok: bool)
    | Lookup(c: nat, ok: bool)
    | Insert(c: nat, now: int, ok: bool)
    | Delete(c: nat, ok: bool)
    | Acquire(c: nat)
    | Snapshot(c: nat)
    | StorePlaces(c: nat)
    | RecalcFails(c: nat)
    | ReadEntries(c: nat, ok: bool)
    | MarkAccepted(c: nat, ok: bool)

  predicate FromOutside(st: Step) {
    st.Submit? || st.Arrive?
  }

  function RowsOf(db: Db, room: RoomId): Rows {
    if room in db then db[room] else map[]
  }

  function Members(s: Hub): Rows {
    RowsOf(s.book.db, s.room)
  }

  predicate IsMembership(m: Msg) {
    m.PlayerJoined? || m.PlayerLeft?
  }

  predicate HasRoom(s: Hub) {
    |s.mailbox| < MAILBOX_SLOTS
  }

  predicate CreditFits(book: Book, res: Judged) {
    var rows := RowsOf(book.db, res.sub.room);
    res.sub.player in rows ==> rows[res.sub.player].score + res.score <= MAX_SCORE
  }

  predicate Enabled(s: Hub, st: Step) {
    if st.Submit? then true
    else if st.Arrive? then HasRoom(s) && IsMembership(st.msg) && st.msg.room == s.room
    else st.c < |s.pcs| && EnabledAt(s, st, s.pcs[st.c])
  }

  predicate EnabledAt(s: Hub, st: Step, pc: Pc)
    requires !FromOutside(st)
  {
    match st
    case Take(_) => pc.Idle? && s.mailbox != []
    case GiveUp(_) => pc.Submitting? || pc.Judging?
    case CreateRow(_, id) => pc.Submitting? && id !in s.subs
    case Judge(_, _) => pc.Judging?
    case SendResult(_) => pc.Sending? && HasRoom(s)
    case MarkWrong(_, _) => pc.Settling? && !pc.res.accepted
    case AddScore(_, ok) => pc.Settling? && pc.res.accepted && (ok ==> CreditFits(s.book, pc.res))
    case Lookup(_, _) => pc.JoinLookup?
    case Insert(_, _, ok) => pc.JoinInsert? && (ok ==> pc.player !in RowsOf(s.book.db, pc.room))
    case Delete(_, _) => pc.Leaving?
    case Acquire(_) => pc.WantLock? && s.lock == None
    case Snapshot(_) => pc.Locked?
    case StorePlaces(_) => pc.Snapped?
    case RecalcFails(_) => pc.Locked? || pc.Snapped?
    case ReadEntries(_, _) => pc.Reading?
    case MarkAccepted(_, _) => pc.Marking?
  }

  // The handler a message starts.
  function Begin(m: Msg): Pc {
    match m
    case SolutionSubmitted(sub) => Submitting(sub)
    case SolutionResult(res) => Settling(res)
    case PlayerJoined(p, room) => JoinLookup(p, room)
    case PlayerLeft(p, room) => Leaving(p, room)
  }

  // UPDATE ... SET score = score + n: a player without a row is silently skipped.
  function Credited(book: Book, res: Judged): Book {
    var rows := RowsOf(book.db, res.sub.room);
    var p := res.sub.player;
    if p in rows then
      book.(db := book.db[res.sub.room := rows[p := rows[p].(score := rows[p].score + res.score)]],
            log := book.log + [Credit(res.id, p, Some(rows[p].rowId))])
    else book.(log := book.log + [Credit(res.id, p, None)])
  }

  // INSERT stores score 0 and no place; joined_at defaults to the current time.
  function Inserted(book: Book, p: PlayerId, room: RoomId, now: int): Book {
    Book(book.db[room := RowsOf(book.db, room)[p := Row(book.nextRow, 0, now, None)]],
         book.nextRow + 1, book.origin[book.nextRow := 0], book.log)
  }

  function Deleted(book: Book, p: PlayerId, room: RoomId): Book {
    book.(db := book.db[room := RowsOf(book.db, room) - {p}])
  }

  function Stored(book: Book, room: RoomId, snap: map<PlayerId, Ranked>): Book {
    book.(db := book.db[room := WritePlaces(RowsOf(book.db, room), snap)])
  }

  // What a step does, one piece of the state at a time.

  function NextPc(s: Hub, st: Step): Pc
    requires !FromOutside(st) && Enabled(s, st)
  {
    var pc := s.pcs[st.c];
    match st
    case Take(_) => Begin(s.mailbox[0])
    case GiveUp(_) => Idle
    case CreateRow(_, id) => Judging(pc.sub, id)
    case Judge(_, accepted) => Sending(Judged(pc.sub, pc.id, accepted, AWARD))
    case SendResult(_) => Idle
    case MarkWrong(_, _) => Idle
    case AddScore(_, ok) => if ok then WantLock(ByCredit(pc.res)) else Idle
    case Lookup(_, ok) =>
      if ok && pc.player in RowsOf(s.book.db, pc.room) then WantLock(ByJoin) else JoinInsert(pc.player, pc.room)
    case Insert(_, _, ok) => if ok then WantLock(ByJoin) else Idle
    case Delete(_, _) => WantLock(ByLeft)
    case Acquire(_) => Locked(pc.why)
    case Snapshot(_) => Snapped(pc.why, SnapshotOf(Members(s)))
    case StorePlaces(_) => Reading(pc.why)
    case RecalcFails(_) => Reading(pc.why)
    case ReadEntries(_, ok) => if ok && pc.why.ByCredit? then Marking(pc.why.res) else Idle
    case MarkAccepted(_, _) => Idle
  }

  // A submission that finds the mailbox full is dropped; every other sender waits for a free slot.
  function NextMailbox(s: Hub, st: Step): seq<Msg>
    requires Enabled(s, st)
  {
    match st
    case Submit(player) =>
      if HasRoom(s) then s.mailbox + [SolutionSubmitted(Submission(s.ledger.issued, player, s.room))] else s.mailbox
    case Arrive(m) => s.mailbox + [m]
    case Take(_) => s.mailbox[1..]
    case SendResult(c) => s.mailbox + [SolutionResult(s.pcs[c].res)]
    case _ => s.mailbox
  }

  function NextLock(s: Hub, st: Step): Option<nat> {
    match st
    case Acquire(c) => Some(c)
    case StorePlaces(_) => None
    case RecalcFails(_) => None
    case _ => s.lock
  }

  function NextBook(s: Hub, st: Step): Book
    requires Enabled(s, st)
  {
    match st
    case AddScore(c, ok) => if ok then Credited(s.book, s.pcs[c].res) else s.book
    case Insert(c, now, ok) => if ok then Inserted(s.book, s.pcs[c].player, s.pcs[c].room, now) else s.book
    case Delete(c, ok) => if ok then Deleted(s.book, s.pcs[c].player, s.pcs[c].room) else s.book
    case StorePlaces(c) => Stored(s.book, s.room, s.pcs[c].snap)
    case _ => s.book
  }

  function NextSubs(s: Hub, st: Step): map<SubmissionId, Status>
    requires Enabled(s, st)
  {
    match st
    case CreateRow(_, id) => s.subs[id := Pending]
    case MarkWrong(c, ok) => if ok then s.subs[s.pcs[c].res.id := WrongAnswer] else s.subs
    case MarkAccepted(c, ok) => if ok then s.subs[s.pcs[c].res.id := Accepted] else s.subs
    case _ => s.subs
  }

  function NextLedger(s: Hub, st: Step): Ledger
    requires Enabled(s, st)
  {
    match st
    case Submit(_) => if HasRoom(s) then s.ledger.(issued := s.ledger.issued + 1) else s.ledger
    case GiveUp(c) => Lost(s.ledger, s.pcs[c].sub)
    case SendResult(c) => s.ledger.(answers := s.ledger.answers + multiset{s.pcs[c].res.id})
    case MarkWrong(c, ok) => if ok then Closed(s.ledger, s.pcs[c].res) else Lost(s.ledger, s.pcs[c].res.sub)
    case AddScore(c, ok) => if ok then s.ledger else Lost(s.ledger, s.pcs[c].res.sub)
    case ReadEntries(c, ok) =>
      if !ok && s.pcs[c].why.ByCredit? then Lost(s.ledger, s.pcs[c].why.res.sub) else s.ledger
    case MarkAccepted(c, ok) => if ok then Closed(s.ledger, s.pcs[c].res) else Lost(s.ledger, s.pcs[c].res.sub)
    case _ => s.ledger
  }

  function Lost(l: Ledger, sub: Submission): Ledger {
    l.(failed := l.failed + {sub.ticket})
  }

  function Closed(l: Ledger, res: Judged): Ledger {
    l.(settled := l.settled[res.sub.ticket := res.id])
  }

  predicate NextMissed(s: Hub, st: Step) {
    if st.RecalcFails? then true else if st.StorePlaces? then false else s.missed
  }

  predicate RowQueryFails(st: Step) {
    (st.Lookup? || st.Insert? || st.Delete?) && !st.ok
  }

  function Apply(s: Hub, st: Step): Hub
    requires Enabled(s, st)
  {
    Hub(s.room,
        NextMailbox(s, st),
        if FromOutside(st) then s.pcs else s.pcs[st.c := NextPc(s, st)],
        NextLock(s, st),
        NextBook(s, st),
        NextSubs(s, st),
        NextLedger(s, st),
        NextMissed(s, st),
        s.rowErrors || RowQueryFails(st),
        if st.Arrive? then s.sent + [st.msg] else s.sent)
  }

  // ---------------------------------------------------------------- runs

  predicate IsRun(s: Hub, steps: seq<Step>)
    decreases |steps|
  {
    steps == [] || (Enabled(s, steps[0]) && IsRun(Apply(s, steps[0]), steps[1..]))
  }

  function Exec(s: Hub, steps: seq<Step>): Hub
    requires IsRun(s, steps)
    decreases |steps|
  {
    if steps == [] then s else Exec(Apply(s, steps[0]), steps[1..])
  }

  lemma StepThenRun(s: Hub, st: Step, rest: seq<Step>)
    requires Enabled(s, st) && IsRun(Apply(s, st), rest)
    ensures IsRun(s, [st] + rest)
    ensures Exec(s, [st] + rest) == Exec(Apply(s, st), rest)
  {
    assert ([st] + rest)[1..] == rest;
  }

  lemma RunHead(s: Hub, steps: seq<Step>)
    requires IsRun(s, steps) && steps != []
    ensures Enabled(s, steps[0]) && IsRun(Apply(s, steps[0]), steps[1..])
    ensures Exec(s, steps) == Exec(Apply(s, steps[0]), steps[1..])
  {
  }

  lemma {:induction false} RunThenRun(s: Hub, a: seq<Step>, b: seq<Step>)
    requires IsRun(s, a) && IsRun(Exec(s, a), b)
    ensures IsRun(s, a + b)
    ensures Exec(s, a + b) == Exec(Exec(s, a), b)
    decreases |a|
  {
    if a == [] {
      assert a + b == b;
    } else {
      RunHead(s, a);
      RunThenRun(Apply(s, a[0]), a[1..], b);
      StepThenRun(s, a[0], a[1..] + b);
      assert [a[0]] + (a[1..] + b) == a + b;
    }
  }

  lemma RunThenStep(s: Hub, steps: seq<Step>, st: Step)
    requires IsRun(s, steps) && Enabled(Exec(s, steps), st)
    ensures IsRun(s, steps + [st])
    ensures Exec(s, steps + [st]) == Apply(Exec(s, steps), st)
  {
    assert [st][1..] == [];
    RunThenRun(s, steps, [st]);
  }

  // The state after `n` steps.
  function At(s: Hub, steps: seq<Step>, n: nat): Hub
    requires IsRun(s, steps) && n <= |steps|
    decreases n
  {
    if n == 0 then s else At(Apply(s, steps[0]), steps[1..], n - 1)
  }

  lemma {:induction false} AtEnabled(s: Hub, steps: seq<Step>, n: nat)
    requires IsRun(s, steps) && n < |steps|
    ensures Enabled(At(s, steps, n), steps[n])
    ensures At(s, steps, n + 1) == Apply(At(s, steps, n), steps[n])
    decreases n
  {
    if n == 0 {
    } else {
      AtEnabled(Apply(s, steps[0]), steps[1..], n - 1);
    }
  }

  // A room hub as newly started: nothing queued, every consumer idle, any rows in the database,
  // with places that may or may not be right.
  ghost predicate Started(s: Hub) {
    && s.mailbox == [] && s.lock == None
    && (forall c :: 0 <= c < |s.pcs| ==> s.pcs[c].Idle?)
    && s.ledger == Ledger(0, map[], {}, multiset{}) && s.book.log == [] && s.sent == []
    && !s.rowErrors
    && (!s.missed ==> Fresh(Members(s)))
    && RowsKnown(s.book, Members(s))
    && (forall r :: r in s.book.origin ==> r < s.book.nextRow)
    && (forall p :: p in Members(s) ==> s.book.origin[Members(s)[p].rowId] == Members(s)[p].score)
  }

  // Row identities are distinct, already used, and their first scores are on record.
  ghost predicate RowsKnown(book: Book, rows: Rows) {
    && (forall p :: p in rows ==> rows[p].rowId < book.nextRow && rows[p].rowId in book.origin)
    && (forall p, q :: p in rows && q in rows && p != q ==> rows[p].rowId != rows[q].rowId)
  }

  // ---------------------------------------------------------------- what every step keeps

  predicate MsgOk(room: RoomId, m: Msg) {
    match m
    case SolutionSubmitted(sub) => sub.room == room
    case SolutionResult(res) => ResultOk(room, res)
    case PlayerJoined(_, r) => r == room
    case PlayerLeft(_, r) => r == room
  }

  predicate ResultOk(room: RoomId, res: Judged) {
    res.sub.room == room && res.score == AWARD
  }

  predicate PcOk(room: RoomId, pc: Pc) {
    match pc
    case Idle => true
    case Submitting(sub) => sub.room == room
    case Judging(sub, _) => sub.room == room
    case Sending(res) => ResultOk(room, res)
    case Settling(res) => ResultOk(room, res)
    case JoinLookup(_, r) => r == room
    case JoinInsert(_, r) => r == room
    case Leaving(_, r) => r == room
    case WantLock(why) => CauseOk(room, why)
    case Locked(why) => CauseOk(room, why)
    case Snapped(why, _) => CauseOk(room, why)
    case Reading(why) => CauseOk(room, why)
    case Marking(res) => ResultOk(room, res) && res.accepted
  }

  predicate CauseOk(room: RoomId, why: Cause) {
    why.ByCredit? ==> ResultOk(room, why.res) && why.res.accepted
  }

  predicate Holds(pc: Pc) {
    pc.Locked? || pc.Snapped?
  }

  // Messages carry the hub's own room, results carry the award, the mailbox fits, and
  // leaderboardMu is held by exactly the consumer inside a recalculation.
  ghost predicate Sound(s: Hub) {
    && |s.mailbox| <= MAILBOX_SLOTS
    && (forall i :: 0 <= i < |s.mailbox| ==> MsgOk(s.room, s.mailbox[i]))
    && (forall c :: 0 <= c < |s.pcs| ==> PcOk(s.room, s.pcs[c]))
    && (forall c :: 0 <= c < |s.pcs| ==> (Holds(s.pcs[c]) <==> s.lock == Some(c)))
    && (s.lock.Some? ==> s.lock.value < |s.pcs|)
  }

  lemma SoundPc(s: Hub, st: Step)
    requires Sound(s) && Enabled(s, st) && !FromOutside(st)
    ensures PcOk(s.room, NextPc(s, st))
    ensures Holds(NextPc(s, st)) <==> NextLock(s, st) == Some(st.c)
    ensures NextLock(s, st) == s.lock || s.lock == Some(st.c) || NextLock(s, st) == Some(st.c)
    ensures s.lock.Some? && s.lock != Some(st.c) ==> NextLock(s, st) == s.lock
  {
  }

  lemma SoundMailbox(s: Hub, st: Step)
    requires Sound(s) && Enabled(s, st)
    ensures |NextMailbox(s, st)| <= MAILBOX_SLOTS
    ensures forall i :: 0 <= i < |NextMailbox(s, st)| ==> MsgOk(s.room, NextMailbox(s, st)[i])
  {
  }

  lemma SoundStep(s: Hub, st: Step)
    requires Sound(s) && Enabled(s, st)
    ensures Sound(Apply(s, st))
  {
    SoundMailbox(s, st);
    if !FromOutside(st) {
      SoundPc(s, st);
      var s' := Apply(s, st);
      forall c | 0 <= c < |s'.pcs|
        ensures PcOk(s.room, s'.pcs[c]) && (Holds(s'.pcs[c]) <==> s'.lock == Some(c))
      {
        assert s'.pcs[c] == if c == st.c then NextPc(s, st) else s.pcs[c];
      }
    }
  }

  // No step of this hub touches another room's rows.
  lemma OtherRoomsUntouched(s: Hub, st: Step, other: RoomId)
    requires Sound(s) && Enabled(s, st) && other != s.room
    ensures RowsOf(NextBook(s, st).db, other) == RowsOf(s.book.db, other)
  {
  }

  lemma {:induction false} SoundRun(s: Hub, steps: seq<Step>)
    requires Sound(s) && IsRun(s, steps)
    ensures Sound(Exec(s, steps)) && |Exec(s, steps).mailbox| <= 10
    ensures |Exec(s, steps).pcs| == |s.pcs| && Exec(s, steps).room == s.room
    ensures forall other :: other != s.room ==> RowsOf(Exec(s, steps).book.db, other) == RowsOf(s.book.db, other)
    decreases |steps|
  {
    if steps == [] {
    } else {
      SoundStep(s, steps[0]);
      SoundRun(Apply(s, steps[0]), steps[1..]);
      forall other | other != s.room ensures RowsOf(Exec(s, steps).book.db, other) == RowsOf(s.book.db, other) {
        OtherRoomsUntouched(s, steps[0], other);
      }
    }
  }

  lemma {:induction false} SoundAt(s: Hub, steps: seq<Step>, n: nat)
    requires Sound(s) && IsRun(s, steps) && n <= |steps|
    ensures Sound(At(s, steps, n))
    decreases n
  {
    if n == 0 {
    } else {
      SoundStep(s, steps[0]);
      SoundAt(Apply(s, steps[0]), steps[1..], n - 1);
    }
  }

  // ---------------------------------------------------------------- what the history says

  // The messages sent so far and those that arrive in a run, in order.
  function WithArrivals(sent: seq<Msg>, steps: seq<Step>): seq<Msg>
    decreases |steps|
  {
    if steps == [] then sent
    else WithArrivals(if steps[0].Arrive? then sent + [steps[0].msg] else sent, steps[1..])
  }

  lemma {:induction false} SentIsArrivals(s: Hub, steps: seq<Step>)
    requires IsRun(s, steps)
    ensures Exec(s, steps).sent == WithArrivals(s.sent, steps)
    decreases |steps|
  {
    if steps == [] {
    } else {
      SentIsArrivals(Apply(s, steps[0]), steps[1..]);
    }
  }

  // Some lookup, insert or delete of the run failed.
  lemma {:induction false} RowErrorsIff(s: Hub, steps: seq<Step>)
    requires IsRun(s, steps)
    ensures Exec(s, steps).rowErrors <==>
      || s.rowErrors
      || exists i :: 0 <= i < |steps| && (steps[i].Lookup? || steps[i].Insert? || steps[i].Delete?) && !steps[i].ok
    decreases |steps|
  {
    if steps == [] {
    } else {
      var rest := steps[1..];
      RowErrorsIff(Apply(s, steps[0]), rest);
      if i :| 0 <= i < |rest| && (rest[i].Lookup? || rest[i].Insert? || rest[i].Delete?) && !rest[i].ok {
        assert steps[i + 1] == rest[i];
      }
      if i :| 0 <= i < |steps| && (steps[i].Lookup? || steps[i].Insert? || steps[i].Delete?) && !steps[i].ok {
        assert i > 0 ==> rest[i - 1] == steps[i];
      }
    }
  }

  // Whether the last recalculation of a run stored its places, if there was one.
  function LastRecalculation(steps: seq<Step>): Option<bool> {
    if steps == [] then None
    else if LastRecalculation(steps[1..]).Some? then LastRecalculation(steps[1..])
    else if steps[0].StorePlaces? then Some(true)
    else if steps[0].RecalcFails? then Some(false)
    else None
  }

  lemma {:induction false} MissedIff(s: Hub, steps: seq<Step>)
    requires IsRun(s, steps)
    ensures Exec(s, steps).missed
      <==> if LastRecalculation(steps).Some? then !LastRecalculation(steps).value else s.missed
    decreases |steps|
  {
    if steps == [] {
    } else {
      MissedIff(Apply(s, steps[0]), steps[1..]);
    }
  }
}
