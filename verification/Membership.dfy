/**
Who is in the room. With no failing row query, a drained room's members are decided by the last joined or left
message of each player, as long as no two consumers are about to do opposite things to one player's row. With two
consumers, which every room has, that can happen as soon as both kinds of message of a player are queued.
*/
module Membership {
  import opened Options
  import opened Ranking
  import opened RoomHub
  import opened Progress

  function AfterMsg(players: set<PlayerId>, m: Msg): set<PlayerId> {
    match m
    case PlayerJoined(p, _) => players + {p}
    case PlayerLeft(p, _) => players - {p}
    case _ => players
  }

  function AfterAll(players: set<PlayerId>, msgs: seq<Msg>): set<PlayerId>
    decreases |msgs|
  {
    if msgs == [] then players else AfterAll(AfterMsg(players, msgs[0]), msgs[1..])
  }

  lemma {:induction false} AfterAppend(players: set<PlayerId>, msgs: seq<Msg>, m: Msg)
    ensures AfterAll(players, msgs + [m]) == AfterMsg(AfterAll(players, msgs), m)
    decreases |msgs|
  {
    if msgs == [] {
      assert [m][1..] == [];
    } else {
      AfterAppend(AfterMsg(players, msgs[0]), msgs[1..], m);
      assert (msgs + [m])[1..] == msgs[1..] + [m];
    }
  }

  // ---------------------------------------------------------------- the last message decides

  // What a message says of a player: Some(true) joined, Some(false) left, None nothing.
  function Said(m: Msg, p: PlayerId): Option<bool> {
    match m
    case PlayerJoined(q, _) => if q == p then Some(true) else None
    case PlayerLeft(q, _) => if q == p then Some(false) else None
    case _ => None
  }

  // What a player's last message says.
  function LastWord(sent: seq<Msg>, p: PlayerId): Option<bool> {
    if sent == [] then None
    else if Said(sent[|sent| - 1], p).Some? then Said(sent[|sent| - 1], p)
    else LastWord(sent[..|sent| - 1], p)
  }

  lemma WordAppend(sent: seq<Msg>, m: Msg, p: PlayerId)
    ensures LastWord(sent + [m], p) == if Said(m, p).Some? then Said(m, p) else LastWord(sent, p)
  {
    assert (sent + [m])[..|sent|] == sent;
  }

  lemma {:induction false} WordHead(sent: seq<Msg>, p: PlayerId)
    requires sent != []
    ensures LastWord(sent, p) == if LastWord(sent[1..], p).Some? then LastWord(sent[1..], p) else Said(sent[0], p)
  {
    var n := |sent| - 1;
    if n == 0 {
      assert sent[..0] == [] && sent[1..] == [];
    } else {
      WordHead(sent[..n], p);
      assert sent[..n][1..] == sent[1..][..n - 1];
    }
  }

  lemma {:induction false} LastWordDecides(first: set<PlayerId>, sent: seq<Msg>, p: PlayerId)
    ensures p in AfterAll(first, sent) <==> LastWord(sent, p) == Some(true) || (LastWord(sent, p) == None && p in first)
  {
    if sent == [] {
    } else {
      var n := |sent| - 1;
      LastWordDecides(first, sent[..n], p);
      AfterAppend(first, sent[..n], sent[n]);
      assert sent[..n] + [sent[n]] == sent;
    }
  }

  // What a consumer is about to do to a player's row.
  function ChangeDue(pc: Pc, p: PlayerId): Option<bool> {
    match pc
    case JoinLookup(q, _) => if q == p then Some(true) else None
    case JoinInsert(q, _) => if q == p then Some(true) else None
    case Leaving(q, _) => if q == p then Some(false) else None
    case _ => None
  }

  // A message of the player is taken while another consumer is still about to do the opposite.
  ghost predicate Crosses(s: Hub, st: Step, p: PlayerId)
    requires Enabled(s, st)
  {
    st.Take? && Said(s.mailbox[0], p).Some?
    && exists d :: 0 <= d < |s.pcs| && ChangeDue(s.pcs[d], p).Some? && ChangeDue(s.pcs[d], p) != Said(s.mailbox[0], p)
  }

  ghost predicate NeverCrosses(s: Hub, steps: seq<Step>, p: PlayerId)
    requires IsRun(s, steps)
    decreases |steps|
  {
    steps == [] || (!Crosses(s, steps[0], p) && NeverCrosses(Apply(s, steps[0]), steps[1..], p))
  }

  // The room is heading for `member`: by the last word still queued, else by the changes in hand, else by the rows.
  ghost predicate Follows(s: Hub, p: PlayerId, member: bool) {
    if LastWord(s.mailbox, p).Some? then LastWord(s.mailbox, p).value == member
    else
      && (forall c :: 0 <= c < |s.pcs| && ChangeDue(s.pcs[c], p).Some? ==> ChangeDue(s.pcs[c], p).value == member)
      && ((forall c :: 0 <= c < |s.pcs| ==> ChangeDue(s.pcs[c], p) == None) ==> (p in Members(s) <==> member))
  }

  // What a step in a handler does to the change in hand and to the player's row.
  lemma ChangeStep(s: Hub, st: Step, p: PlayerId)
    requires Sound(s) && Enabled(s, st) && !FromOutside(st) && !st.Take? && !RowQueryFails(st)
    ensures
      var h, h' := ChangeDue(s.pcs[st.c], p), ChangeDue(NextPc(s, st), p);
      var now, next := p in Members(s), p in RowsOf(NextBook(s, st).db, s.room);
      || (h' == h && next == now)
      || (h.Some? && h' == None && next == h.value)
  {
  }

  lemma MailboxWord(s: Hub, st: Step, p: PlayerId)
    requires Enabled(s, st)
    ensures
      var word, word' := LastWord(s.mailbox, p), LastWord(NextMailbox(s, st), p);
      if st.Take? then word == if word'.Some? then word' else Said(s.mailbox[0], p)
      else if st.Arrive? && Said(st.msg, p).Some? then word' == Said(st.msg, p)
      else word' == word
  {
    if st.Take? {
      WordHead(s.mailbox, p);
    } else if NextMailbox(s, st) != s.mailbox {
      WordAppend(s.mailbox, NextMailbox(s, st)[|s.mailbox|], p);
    }
  }

  lemma FollowsTake(s: Hub, st: Step, p: PlayerId, member: bool)
    requires Sound(s) && Enabled(s, st) && st.Take? && !Crosses(s, st, p) && Follows(s, p, member)
    ensures Follows(Apply(s, st), p, member)
  {
    var s' := Apply(s, st);
    MailboxWord(s, st, p);
    assert ChangeDue(s'.pcs[st.c], p) == Said(s.mailbox[0], p);
    assert Members(s') == Members(s);
    if LastWord(s'.mailbox, p) == None {
      forall c | 0 <= c < |s'.pcs| && ChangeDue(s'.pcs[c], p).Some? ensures ChangeDue(s'.pcs[c], p).value == member {
        assert c != st.c ==> s'.pcs[c] == s.pcs[c];
      }
      if forall c :: 0 <= c < |s'.pcs| ==> ChangeDue(s'.pcs[c], p) == None {
        assert forall c :: 0 <= c < |s.pcs| ==> s.pcs[c] == if c == st.c then Idle else s'.pcs[c];
      }
    }
  }

  lemma FollowsMoved(s: Hub, s': Hub, c: nat, p: PlayerId, member: bool)
    requires c < |s.pcs| == |s'.pcs| && s'.pcs == s.pcs[c := s'.pcs[c]]
    requires LastWord(s'.mailbox, p) == LastWord(s.mailbox, p)
    requires
      var h, h' := ChangeDue(s.pcs[c], p), ChangeDue(s'.pcs[c], p);
      || (h' == h && (p in Members(s') <==> p in Members(s)))
      || (h.Some? && h' == None && (p in Members(s') <==> h.value))
    requires Follows(s, p, member)
    ensures Follows(s', p, member)
  {
    if LastWord(s'.mailbox, p) == None {
      forall d | 0 <= d < |s'.pcs| && ChangeDue(s'.pcs[d], p).Some? ensures ChangeDue(s'.pcs[d], p).value == member {
        assert d != c ==> s'.pcs[d] == s.pcs[d];
      }
      if forall d :: 0 <= d < |s'.pcs| ==> ChangeDue(s'.pcs[d], p) == None {
        assert forall d :: 0 <= d < |s.pcs| && d != c ==> s.pcs[d] == s'.pcs[d];
      }
    }
  }

  lemma FollowsChange(s: Hub, st: Step, p: PlayerId, member: bool)
    requires Sound(s) && Enabled(s, st) && !FromOutside(st) && !st.Take? && !RowQueryFails(st)
    requires Follows(s, p, member)
    ensures Follows(Apply(s, st), p, member)
  {
    MailboxWord(s, st, p);
    ChangeStep(s, st, p);
    assert Apply(s, st).pcs[st.c] == NextPc(s, st);
    FollowsMoved(s, Apply(s, st), st.c, p, member);
  }

  // The membership a message asks for, if it is about the player.
  function Asked(st: Step, p: PlayerId, member: bool): bool {
    if st.Arrive? && Said(st.msg, p).Some? then Said(st.msg, p).value else member
  }

  lemma FollowsStep(s: Hub, st: Step, p: PlayerId, member: bool)
    requires Sound(s) && Enabled(s, st) && !RowQueryFails(st) && !Crosses(s, st, p) && Follows(s, p, member)
    ensures Follows(Apply(s, st), p, Asked(st, p, member))
  {
    if FromOutside(st) {
      MailboxWord(s, st, p);
      assert Members(Apply(s, st)) == Members(s);
    } else if st.Take? {
      FollowsTake(s, st, p, member);
    } else {
      FollowsChange(s, st, p, member);
    }
  }

  // The membership a player's messages ask for, given the one before them.
  predicate AskedBy(sent: seq<Msg>, p: PlayerId, initially: bool) {
    LastWord(sent, p) == Some(true) || (LastWord(sent, p) == None && initially)
  }

  lemma {:induction false} FollowsRun(s: Hub, steps: seq<Step>, p: PlayerId, initially: bool)
    requires Sound(s) && IsRun(s, steps) && NeverCrosses(s, steps, p) && !Exec(s, steps).rowErrors
    requires Follows(s, p, AskedBy(s.sent, p, initially))
    ensures Follows(Exec(s, steps), p, AskedBy(Exec(s, steps).sent, p, initially))
    decreases |steps|
  {
    if steps == [] {
    } else {
      var st := steps[0];
      ErrorsStay(Apply(s, st), steps[1..]);
      SoundStep(s, st);
      FollowsStep(s, st, p, AskedBy(s.sent, p, initially));
      if st.Arrive? {
        WordAppend(s.sent, st.msg, p);
      }
      FollowsRun(Apply(s, st), steps[1..], p, initially);
    }
  }

  lemma {:induction false} ErrorsStay(s: Hub, steps: seq<Step>)
    requires IsRun(s, steps)
    ensures s.rowErrors ==> Exec(s, steps).rowErrors
    decreases |steps|
  {
    if steps == [] {
    } else {
      ErrorsStay(Apply(s, steps[0]), steps[1..]);
    }
  }

  // For any number of consumers: a drained room's membership is decided by each player's last message, provided no
  // message of the player is taken while another consumer is still about to do the opposite.
  lemma DrainedMembersFollowLastWord(s: Hub, steps: seq<Step>, p: PlayerId)
    requires Started(s) && IsRun(s, steps) && NeverCrosses(s, steps, p)
    requires Drained(Exec(s, steps)) && !Exec(s, steps).rowErrors
    ensures
      var end := Exec(s, steps);
      p in Members(end) <==> LastWord(end.sent, p) == Some(true) || (LastWord(end.sent, p) == None && p in Members(s))
  {
    FollowsRun(s, steps, p, p in Members(s));
  }

  // A sole consumer always handles one message to the end before it takes the next.
  lemma {:induction false} SoleNeverCrosses(s: Hub, steps: seq<Step>, p: PlayerId)
    requires |s.pcs| == 1 && IsRun(s, steps)
    ensures NeverCrosses(s, steps, p)
    decreases |steps|
  {
    if steps == [] {
    } else {
      SoleNeverCrosses(Apply(s, steps[0]), steps[1..], p);
    }
  }

  // ---------------------------------------------------------------- exactly when the order may be lost

  // Every message of the player says the same.
  ghost predicate OneKind(msgs: seq<Msg>, p: PlayerId) {
    forall i, j :: 0 <= i < |msgs| && 0 <= j < |msgs| && Said(msgs[i], p).Some? && Said(msgs[j], p).Some? ==>
      Said(msgs[i], p) == Said(msgs[j], p)
  }

  // Nobody is about to do the opposite of what is queued, and what is queued is of one kind.
  ghost predicate AllOf(s: Hub, p: PlayerId, kind: bool) {
    && (forall i :: 0 <= i < |s.mailbox| && Said(s.mailbox[i], p).Some? ==> Said(s.mailbox[i], p).value == kind)
    && (forall c :: 0 <= c < |s.pcs| && ChangeDue(s.pcs[c], p).Some? ==> ChangeDue(s.pcs[c], p).value == kind)
  }

  lemma AllOfStep(s: Hub, st: Step, p: PlayerId, kind: bool)
    requires Sound(s) && AllOf(s, p, kind) && Enabled(s, st) && !FromOutside(st)
    ensures AllOf(Apply(s, st), p, kind) && !Crosses(s, st, p)
  {
    var s' := Apply(s, st);
    assert ChangeDue(NextPc(s, st), p).Some? ==>
      ChangeDue(NextPc(s, st), p) == if st.Take? then Said(s.mailbox[0], p) else ChangeDue(s.pcs[st.c], p);
    forall c | 0 <= c < |s'.pcs| && ChangeDue(s'.pcs[c], p).Some? ensures ChangeDue(s'.pcs[c], p).value == kind {
      assert s'.pcs[c] == if c == st.c then NextPc(s, st) else s.pcs[c];
    }
  }

  lemma {:induction false} AllOfNeverCrosses(s: Hub, steps: seq<Step>, p: PlayerId, kind: bool)
    requires Sound(s) && AllOf(s, p, kind) && IsRun(s, steps) && OnlyConsumers(steps)
    ensures NeverCrosses(s, steps, p)
    decreases |steps|
  {
    if steps == [] {
    } else {
      SoundStep(s, steps[0]);
      AllOfStep(s, steps[0], p, kind);
      assert OnlyConsumers(steps[1..]);
      AllOfNeverCrosses(Apply(s, steps[0]), steps[1..], p, kind);
    }
  }

  lemma LockAndRank(s: Hub, c: nat)
    requires c < |s.pcs| && s.pcs[c].WantLock? && s.lock == None
    ensures Enabled(s, Acquire(c)) && Enabled(Apply(s, Acquire(c)), Snapshot(c))
    ensures var end := Apply(Apply(s, Acquire(c)), Snapshot(c));
      end == s.(pcs := s.pcs[c := Snapped(s.pcs[c].why, SnapshotOf(Members(s)))], lock := Some(c))
  {
  }

  lemma StoreAndRead(s: Hub, c: nat)
    requires c < |s.pcs| && s.pcs[c].Snapped? && !s.pcs[c].why.ByCredit?
    ensures Enabled(s, StorePlaces(c)) && Enabled(Apply(s, StorePlaces(c)), ReadEntries(c, true))
    ensures var end := Apply(Apply(s, StorePlaces(c)), ReadEntries(c, true));
      && end.pcs == s.pcs[c := Idle] && end.lock == None && end.mailbox == s.mailbox
      && Members(end).Keys == Members(s).Keys && end.rowErrors == s.rowErrors && end.sent == s.sent
  {
  }

  // A recalculation after a join or a leave, run without interruption.
  lemma Recalculate(s: Hub, c: nat) returns (steps: seq<Step>, end: Hub)
    requires c < |s.pcs| && s.pcs[c].WantLock? && !s.pcs[c].why.ByCredit? && s.lock == None
    ensures Ran(s, steps, end) && HandledBy(s, end, c) && Members(end).Keys == Members(s).Keys
  {
    LockAndRank(s, c);
    var s1 := Apply(s, Acquire(c));
    var s2 := Apply(s1, Snapshot(c));
    StoreAndRead(s2, c);
    var s3 := Apply(s2, StorePlaces(c));
    RanOn(s, [], s, Acquire(c));
    steps := [] + [Acquire(c)];
    RanOn(s, steps, s1, Snapshot(c));
    steps := steps + [Snapshot(c)];
    RanOn(s, steps, s2, StorePlaces(c));
    steps := steps + [StorePlaces(c)];
    RanOn(s, steps, s3, ReadEntries(c, true));
    steps := steps + [ReadEntries(c, true)];
    end := Apply(s3, ReadEntries(c, true));
  }

  // The consumer is idle again, and nothing but tables and books has changed.
  ghost predicate HandledBy(s: Hub, end: Hub, c: nat)
    requires c < |s.pcs|
  {
    && end.pcs == s.pcs[c := Idle] && end.mailbox == s.mailbox && end.lock == None && end.room == s.room
    && end.rowErrors == s.rowErrors && end.sent == s.sent
  }

  lemma FinishJoin(s: Hub, c: nat, p: PlayerId) returns (steps: seq<Step>, end: Hub)
    requires c < |s.pcs| && s.pcs[c] == JoinLookup(p, s.room) && s.lock == None
    ensures Ran(s, steps, end) && HandledBy(s, end, c) && Members(end).Keys == Members(s).Keys + {p}
  {
    var s1 := Apply(s, Lookup(c, true));
    RanOn(s, [], s, Lookup(c, true));
    steps := [] + [Lookup(c, true)];
    if p !in Members(s) {
      RanOn(s, steps, s1, Insert(c, 0, true));
      steps := steps + [Insert(c, 0, true)];
      s1 := Apply(s1, Insert(c, 0, true));
    }
    assert s1.pcs == s.pcs[c := WantLock(ByJoin)] && Members(s1).Keys == Members(s).Keys + {p};
    var rest;
    rest, end := Recalculate(s1, c);
    RanThen(s, steps, s1, rest, end);
    steps := steps + rest;
  }

  lemma FinishLeave(s: Hub, c: nat, p: PlayerId) returns (steps: seq<Step>, end: Hub)
    requires c < |s.pcs| && s.pcs[c] == Leaving(p, s.room) && s.lock == None
    ensures Ran(s, steps, end) && HandledBy(s, end, c) && Members(end).Keys == Members(s).Keys - {p}
  {
    var s1 := Apply(s, Delete(c, true));
    RanOn(s, [], s, Delete(c, true));
    assert s1.pcs == s.pcs[c := WantLock(ByLeft)] && Members(s1).Keys == Members(s).Keys - {p};
    var rest;
    rest, end := Recalculate(s1, c);
    RanThen(s, [] + [Delete(c, true)], s1, rest, end);
    steps := [] + [Delete(c, true)] + rest;
  }

  // A handler run without interruption and without a failing row query.
  lemma FinishMessage(s: Hub, c: nat, m: Msg) returns (steps: seq<Step>, end: Hub)
    requires c < |s.pcs| && s.pcs[c] == Begin(m) && MsgOk(s.room, m) && s.lock == None
    ensures Ran(s, steps, end) && HandledBy(s, end, c) && Members(end).Keys == AfterMsg(Members(s).Keys, m)
  {
    match m
    case PlayerJoined(p, _) => steps, end := FinishJoin(s, c, p);
    case PlayerLeft(p, _) => steps, end := FinishLeave(s, c, p);
    case _ => steps, end := Dismiss(s, c, m);
  }

  // A submission may be given up, a result may fail to be stored: both leave the members alone.
  lemma Dismiss(s: Hub, c: nat, m: Msg) returns (steps: seq<Step>, end: Hub)
    requires c < |s.pcs| && s.pcs[c] == Begin(m) && !IsMembership(m) && s.lock == None
    ensures Ran(s, steps, end) && HandledBy(s, end, c) && Members(end) == Members(s)
  {
    var st :=
      if m.SolutionSubmitted? then GiveUp(c)
      else if m.res.accepted then AddScore(c, false)
      else MarkWrong(c, true);
    RanOn(s, [], s, st);
    steps, end := [] + [st], Apply(s, st);
  }

  // One consumer alone handles the first `n` messages in order.
  lemma {:induction false} HandleFirst(s: Hub, c: nat, n: nat) returns (steps: seq<Step>, end: Hub)
    requires Sound(s) && c < |s.pcs| && s.pcs[c].Idle? && s.lock == None && n <= |s.mailbox|
    ensures Ran(s, steps, end) && Sound(end)
    ensures HandledBy(s.(mailbox := s.mailbox[n..]), end, c)
    ensures Members(end).Keys == AfterAll(Members(s).Keys, s.mailbox[..n])
    decreases n
  {
    if n == 0 {
      steps, end := [], s;
    } else {
      var s1 := Apply(s, Take(c));
      RanOn(s, [], s, Take(c));
      assert Members(s1) == Members(s);
      var first, s2 := FinishMessage(s1, c, s.mailbox[0]);
      RanThen(s, [] + [Take(c)], s1, first, s2);
      SoundRun(s, [] + [Take(c)] + first);
      var rest;
      rest, end := HandleFirst(s2, c, n - 1);
      RanThen(s, [] + [Take(c)] + first, s2, rest, end);
      steps := [] + [Take(c)] + first + rest;
      assert s.mailbox[1..][n - 1..] == s.mailbox[n..];
      assert s.mailbox[..n][1..] == s.mailbox[1..][..n - 1];
    }
  }

  // One consumer handles the messages before `i` and takes that one.
  lemma TakeAt(s: Hub, i: nat) returns (steps: seq<Step>, end: Hub)
    requires Sound(s) && s.pcs != [] && s.pcs[0].Idle? && s.lock == None && i < |s.mailbox|
    ensures Ran(s, steps, end) && Sound(end)
    ensures end.pcs == s.pcs[0 := Begin(s.mailbox[i])] && end.lock == None
    ensures end.rowErrors == s.rowErrors && end.sent == s.sent && end.room == s.room
  {
    var before, mid := HandleFirst(s, 0, i);
    assert mid.pcs == s.pcs && mid.mailbox[0] == s.mailbox[i];
    RanOn(s, before, mid, Take(0));
    SoundStep(mid, Take(0));
    steps, end := before + [Take(0)], Apply(mid, Take(0));
  }

  // One consumer takes message `i` and waits while another handles all later ones.
  lemma HandleLast(s: Hub, i: nat, p: PlayerId) returns (steps: seq<Step>, end: Hub)
    requires Sound(s) && |s.pcs| >= 2 && s.lock == None && i < |s.mailbox| && Said(s.mailbox[i], p).Some?
    requires forall c :: 0 <= c < |s.pcs| ==> s.pcs[c].Idle?
    ensures Ran(s, steps, end) && Drained(end) && end.rowErrors == s.rowErrors && end.sent == s.sent
    ensures p in Members(end) <==> Said(s.mailbox[i], p).value
  {
    var a, s1 := TakeAt(s, i);
    var b, s2 := HandleFirst(s1, 1, |s1.mailbox|);
    RanThen(s, a, s1, b, s2);
    assert s2.pcs == s1.pcs && s2.mailbox == [];
    var c;
    c, end := FinishMessage(s2, 0, s.mailbox[i]);
    RanThen(s, a + b, s2, c, end);
    steps := a + b + c;
    assert p in Members(end).Keys <==> Said(s.mailbox[i], p).value;
  }

  // However the consumers of an idle room handle what is queued, the player's last message decides.
  ghost predicate OrderKept(s: Hub, p: PlayerId) {
    forall steps :: IsRun(s, steps) && OnlyConsumers(steps) && Drained(Exec(s, steps)) && !Exec(s, steps).rowErrors ==>
      (p in Members(Exec(s, steps)) <==> AskedBy(s.mailbox, p, p in Members(s)))
  }

  lemma {:induction false} HeardOf(msgs: seq<Msg>, p: PlayerId, i: nat)
    requires i < |msgs| && Said(msgs[i], p).Some?
    ensures LastWord(msgs, p).Some?
  {
    if i == |msgs| - 1 {
    } else {
      HeardOf(msgs[..|msgs| - 1], p, i);
    }
  }

  lemma OneKindKeepsOrder(s: Hub, steps: seq<Step>, p: PlayerId)
    requires Sound(s) && (forall c :: 0 <= c < |s.pcs| ==> s.pcs[c].Idle?)
    requires |s.pcs| == 1 || OneKind(s.mailbox, p)
    requires IsRun(s, steps) && OnlyConsumers(steps) && Drained(Exec(s, steps)) && !Exec(s, steps).rowErrors
    ensures p in Members(Exec(s, steps)) <==> AskedBy(s.mailbox, p, p in Members(s))
  {
    if |s.pcs| == 1 {
      SoleNeverCrosses(s, steps, p);
    } else if i :| 0 <= i < |s.mailbox| && Said(s.mailbox[i], p).Some? {
      AllOfNeverCrosses(s, steps, p, Said(s.mailbox[i], p).value);
    } else {
      AllOfNeverCrosses(s, steps, p, true);
    }
    var member := AskedBy(s.mailbox, p, p in Members(s));
    FollowsConsumers(s, steps, p, member);
  }

  lemma {:induction false} FollowsConsumers(s: Hub, steps: seq<Step>, p: PlayerId, member: bool)
    requires Sound(s) && IsRun(s, steps) && OnlyConsumers(steps) && NeverCrosses(s, steps, p)
    requires !Exec(s, steps).rowErrors && Follows(s, p, member)
    ensures Follows(Exec(s, steps), p, member)
    decreases |steps|
  {
    if steps == [] {
    } else {
      ErrorsStay(Apply(s, steps[0]), steps[1..]);
      SoundStep(s, steps[0]);
      FollowsStep(s, steps[0], p, member);
      assert OnlyConsumers(steps[1..]);
      FollowsConsumers(Apply(s, steps[0]), steps[1..], p, member);
    }
  }

  // In an idle room with messages queued, every way of handling them leaves the player's membership right if and
  // only if there is one consumer or all of the player's messages are of one kind.
  lemma OrderKeptIff(s: Hub, p: PlayerId)
    requires Sound(s) && s.pcs != [] && !s.rowErrors && (forall c :: 0 <= c < |s.pcs| ==> s.pcs[c].Idle?)
    ensures OrderKept(s, p) <==> |s.pcs| == 1 || OneKind(s.mailbox, p)
  {
    if |s.pcs| == 1 || OneKind(s.mailbox, p) {
      forall steps | IsRun(s, steps) && OnlyConsumers(steps) && Drained(Exec(s, steps)) && !Exec(s, steps).rowErrors
        ensures p in Members(Exec(s, steps)) <==> AskedBy(s.mailbox, p, p in Members(s))
      {
        OneKindKeepsOrder(s, steps, p);
      }
    } else {
      var steps, end := Misordered(s, p);
    }
  }

  lemma Misordered(s: Hub, p: PlayerId) returns (steps: seq<Step>, end: Hub)
    requires Sound(s) && |s.pcs| >= 2 && (forall c :: 0 <= c < |s.pcs| ==> s.pcs[c].Idle?)
    requires !OneKind(s.mailbox, p)
    ensures Ran(s, steps, end) && Drained(end) && end.rowErrors == s.rowErrors && end.sent == s.sent
    ensures LastWord(s.mailbox, p).Some? && (LastWord(s.mailbox, p).value <==> p !in Members(end))
  {
    var i := OtherKind(s.mailbox, p);
    steps, end := HandleLast(s, i, p);
  }

  // A message that says the opposite of the last one.
  lemma OtherKind(msgs: seq<Msg>, p: PlayerId) returns (i: nat)
    requires !OneKind(msgs, p)
    ensures i < |msgs| && Said(msgs[i], p).Some? && LastWord(msgs, p).Some?
    ensures LastWord(msgs, p).value != Said(msgs[i], p).value
  {
    var j, k :| 0 <= j < |msgs| && 0 <= k < |msgs| && Said(msgs[j], p).Some? && Said(msgs[k], p).Some?
      && Said(msgs[j], p) != Said(msgs[k], p);
    HeardOf(msgs, p, j);
    var said, last := Said(msgs[j], p).value, LastWord(msgs, p).value;
    assert Said(msgs[k], p).value == !said && LastWord(msgs, p) == Some(last);
    i := if said == last then k else j;
  }

  // With two consumers, as every room has, a joined and a left message are enough to keep a member who left.
  lemma TwoConsumersMayKeepAGhost(s: Hub, p: PlayerId) returns (steps: seq<Step>)
    requires Started(s) && |s.pcs| >= 2
    ensures IsRun(s, steps)
    ensures var end := Exec(s, steps);
      Drained(end) && !end.rowErrors && LastWord(end.sent, p) == Some(false) && p in Members(end)
  {
    var joined, left := Arrive(PlayerJoined(p, s.room)), Arrive(PlayerLeft(p, s.room));
    var s1 := Apply(s, joined);
    var s2 := Apply(s1, left);
    assert s2.mailbox == s2.sent == [PlayerJoined(p, s.room), PlayerLeft(p, s.room)];
    assert Said(s2.mailbox[0], p) == Some(true) && Said(s2.mailbox[1], p) == Some(false);
    var rest, end := Misordered(s2, p);
    StepThenRun(s1, left, rest);
    StepThenRun(s, joined, [left] + rest);
    steps := [joined] + ([left] + rest);
  }
}
