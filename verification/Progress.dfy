/**
Can a room get stuck? A consumer puts a result into the very mailbox it drains, and waits for the judge. When the
judge answers, a room is sure to drain exactly when no full mailbox faces consumers that all still have a result to
send; otherwise it can reach a state that nothing ever leaves.
*/
module Progress {
  import opened Options
  import opened RoomHub
  import opened Bags

  function Busy(pc: Pc): nat {
    if pc.Idle? then 0 else 1
  }

  // Messages queued or in some consumer's hands.
  function Load(s: Hub): nat {
    |s.mailbox| + Sum(s.pcs, Busy)
  }

  ghost predicate Drained(s: Hub) {
    s.mailbox == [] && forall c :: 0 <= c < |s.pcs| ==> s.pcs[c].Idle?
  }

  // The mailbox is full and every consumer waits to put a result into it.
  ghost predicate Wedged(s: Hub) {
    |s.mailbox| == MAILBOX_SLOTS && forall c :: 0 <= c < |s.pcs| ==> s.pcs[c].Sending?
  }

  // No message arrives.
  ghost predicate OnlyConsumers(steps: seq<Step>) {
    forall i :: 0 <= i < |steps| ==> !FromOutside(steps[i])
  }

  // The consumers alone lead from one state to another.
  ghost predicate Ran(a: Hub, steps: seq<Step>, b: Hub) {
    IsRun(a, steps) && Exec(a, steps) == b && OnlyConsumers(steps)
  }

  lemma RanOn(a: Hub, steps: seq<Step>, b: Hub, st: Step)
    requires Ran(a, steps, b) && Enabled(b, st) && !FromOutside(st)
    ensures Ran(a, steps + [st], Apply(b, st))
  {
    RunThenStep(a, steps, st);
  }

  lemma RanThen(a: Hub, xs: seq<Step>, b: Hub, ys: seq<Step>, c: Hub)
    requires Ran(a, xs, b) && Ran(b, ys, c)
    ensures Ran(a, xs + ys, c)
  {
    RunThenRun(a, xs, ys);
  }

  // ---------------------------------------------------------------- stuck for good

  lemma {:induction false} WedgedForever(s: Hub, steps: seq<Step>)
    requires Wedged(s) && IsRun(s, steps)
    ensures Exec(s, steps) == s
    decreases |steps|
  {
    if steps == [] {
    } else {
      assert steps[0].Submit?;
      assert Apply(s, steps[0]) == s;
      WedgedForever(s, steps[1..]);
    }
  }

  // Rows in `silent` belong to jobs the judge has lost: it never answers, and their consumers wait for ever.
  predicate CanAct(s: Hub, silent: set<SubmissionId>, st: Step) {
    !FromOutside(st) && Enabled(s, st) && !(s.pcs[st.c].Judging? && s.pcs[st.c].id in silent)
  }

  // Nothing to take, no slot to send into, or no answer to come.
  predicate Halted(s: Hub, silent: set<SubmissionId>, pc: Pc) {
    || (pc.Idle? && s.mailbox == [])
    || (pc.Sending? && !HasRoom(s))
    || (pc.Judging? && pc.id in silent)
  }

  lemma ActingConsumer(s: Hub, silent: set<SubmissionId>, c: nat) returns (st: Step)
    requires Sound(s) && c < |s.pcs| && !Halted(s, silent, s.pcs[c])
    requires s.pcs[c].WantLock? ==> s.lock == None
    ensures CanAct(s, silent, st)
  {
    match s.pcs[c]
    case Idle => st := Take(c);
    case Submitting(_) => st := GiveUp(c);
    case Judging(_, _) => st := Judge(c, true);
    case Sending(_) => st := SendResult(c);
    case Settling(res) => st := if res.accepted then AddScore(c, false) else MarkWrong(c, true);
    case JoinLookup(_, _) => st := Lookup(c, true);
    case JoinInsert(_, _) => st := Insert(c, 0, false);
    case Leaving(_, _) => st := Delete(c, true);
    case WantLock(_) => st := Acquire(c);
    case Locked(_) => st := Snapshot(c);
    case Snapped(_, _) => st := StorePlaces(c);
    case Reading(_) => st := ReadEntries(c, true);
    case Marking(_) => st := MarkAccepted(c, true);
  }

  // Some consumer can step exactly when some consumer is not halted, whichever answers the judge owes for ever:
  // the mutex never holds everyone up.
  lemma StuckIffAllHalted(s: Hub, silent: set<SubmissionId>)
    requires Sound(s)
    ensures (exists st :: CanAct(s, silent, st)) <==> exists c :: 0 <= c < |s.pcs| && !Halted(s, silent, s.pcs[c])
  {
    if c :| 0 <= c < |s.pcs| && !Halted(s, silent, s.pcs[c]) {
      var st := ActingConsumer(s, silent, if s.lock.Some? then s.lock.value else c);
    }
    if st :| CanAct(s, silent, st) {
      assert !Halted(s, silent, s.pcs[st.c]);
    }
  }

  // When the judge answers, the room can move exactly when it has work and is not wedged.
  lemma StuckIffWedged(s: Hub)
    requires Sound(s) && s.pcs != []
    ensures (exists st :: !FromOutside(st) && Enabled(s, st)) <==> !Drained(s) && !Wedged(s)
  {
    StuckIffAllHalted(s, {});
    if st :| !FromOutside(st) && Enabled(s, st) {
      assert CanAct(s, {}, st);
    }
    if Drained(s) || Wedged(s) {
      assert forall c :: 0 <= c < |s.pcs| ==> Halted(s, {}, s.pcs[c]);
    } else if forall c :: 0 <= c < |s.pcs| ==> Halted(s, {}, s.pcs[c]) {
      assert Halted(s, {}, s.pcs[0]);
      assert s.mailbox == [] ==> Drained(s);
      assert s.mailbox != [] ==> Wedged(s);
    }
  }

  // ---------------------------------------------------------------- a way to get stuck

  lemma {:induction false} FreshId(subs: map<SubmissionId, Status>, among: set<SubmissionId>, from: SubmissionId)
    returns (id: SubmissionId)
    requires forall x :: x in subs && x >= from ==> x in among
    ensures id !in subs
    decreases among
  {
    if from in subs {
      id := FreshId(subs, among - {from}, from + 1);
    } else {
      id := from;
    }
  }

  // A consumer with a submission in hand that has not sent its result.
  predicate BeforeSend(pc: Pc) {
    pc.Submitting? || pc.Judging? || pc.Sending?
  }

  // A consumer gets its submission judged, and is about to send the result.
  lemma JudgeInHand(s: Hub, c: nat) returns (steps: seq<Step>)
    requires c < |s.pcs| && BeforeSend(s.pcs[c])
    ensures IsRun(s, steps) && OnlyConsumers(steps)
    ensures var end := Exec(s, steps);
      && end.mailbox == s.mailbox && |end.pcs| == |s.pcs|
      && end.pcs == s.pcs[c := end.pcs[c]] && end.pcs[c].Sending?
    decreases s.pcs[c].Submitting?
  {
    if s.pcs[c].Submitting? {
      var id := FreshId(s.subs, s.subs.Keys, 0);
      var st := CreateRow(c, id);
      var rest := JudgeInHand(Apply(s, st), c);
      StepThenRun(s, st, rest);
      steps := [st] + rest;
    } else if s.pcs[c].Judging? {
      StepThenRun(s, Judge(c, true), []);
      steps := [Judge(c, true)] + [];
    } else {
      steps := [];
    }
  }

  // One consumer accepts a submission and judges it.
  lemma OccupyConsumer(s: Hub, c: nat) returns (steps: seq<Step>)
    requires s.mailbox == [] && c < |s.pcs| && s.pcs[c].Idle?
    ensures IsRun(s, steps)
    ensures var end := Exec(s, steps);
      && end.mailbox == [] && |end.pcs| == |s.pcs|
      && end.pcs == s.pcs[c := end.pcs[c]] && end.pcs[c].Sending?
  {
    var s1 := Apply(s, Submit(0));
    var rest := JudgeInHand(Apply(s1, Take(c)), c);
    StepThenRun(s1, Take(c), rest);
    StepThenRun(s, Submit(0), [Take(c)] + rest);
    steps := [Submit(0)] + ([Take(c)] + rest);
  }

  lemma {:induction false} OccupyAll(s: Hub, done: nat) returns (steps: seq<Step>)
    requires s.mailbox == [] && done <= |s.pcs|
    requires forall c :: 0 <= c < |s.pcs| ==> if c < done then s.pcs[c].Sending? else s.pcs[c].Idle?
    ensures IsRun(s, steps)
    ensures var end := Exec(s, steps);
      end.mailbox == [] && |end.pcs| == |s.pcs| && forall c :: 0 <= c < |s.pcs| ==> end.pcs[c].Sending?
    decreases |s.pcs| - done
  {
    if done == |s.pcs| {
      steps := [];
    } else {
      var first := OccupyConsumer(s, done);
      var rest := OccupyAll(Exec(s, first), done + 1);
      RunThenRun(s, first, rest);
      steps := first + rest;
    }
  }

  lemma {:induction false} FillMailbox(s: Hub) returns (steps: seq<Step>)
    requires |s.mailbox| <= MAILBOX_SLOTS
    ensures IsRun(s, steps)
    ensures |Exec(s, steps).mailbox| == MAILBOX_SLOTS && Exec(s, steps).pcs == s.pcs
    decreases MAILBOX_SLOTS - |s.mailbox|
  {
    if |s.mailbox| == MAILBOX_SLOTS {
      steps := [];
    } else {
      var rest := FillMailbox(Apply(s, Submit(0)));
      StepThenRun(s, Submit(0), rest);
      steps := [Submit(0)] + rest;
    }
  }

  // With any number of consumers, submissions alone wedge a newly started room.
  lemma SubmissionsCanWedge(s: Hub) returns (steps: seq<Step>)
    requires Started(s)
    ensures IsRun(s, steps) && Wedged(Exec(s, steps)) && |Exec(s, steps).mailbox| == 10
  {
    var first := OccupyAll(s, 0);
    var rest := FillMailbox(Exec(s, first));
    RunThenRun(s, first, rest);
    steps := first + rest;
  }

  // ---------------------------------------------------------------- draining

  function Effort(pc: Pc): nat {
    match pc
    case Idle => 0
    case Submitting(_) => 10
    case Judging(_, _) => 9
    case Sending(_) => 8
    case Settling(_) => 6
    case JoinLookup(_, _) => 7
    case JoinInsert(_, _) => 6
    case Leaving(_, _) => 6
    case WantLock(_) => 5
    case Locked(_) => 4
    case Snapped(_, _) => 3
    case Reading(_) => 2
    case Marking(_) => 1
  }

  function MsgEffort(m: Msg): nat {
    1 + Effort(Begin(m))
  }

  function Work(s: Hub): nat {
    Sum(s.mailbox, MsgEffort) + Sum(s.pcs, Effort)
  }

  lemma EffortDrops(s: Hub, st: Step)
    requires Enabled(s, st) && !FromOutside(st)
    ensures
      var e, e' := Effort(s.pcs[st.c]), Effort(NextPc(s, st));
      if st.Take? then e == 0 && e' + 1 == MsgEffort(s.mailbox[0])
      else if st.SendResult? then e == 8 && e' == 0
      else e' < e
    ensures Busy(NextPc(s, st)) <= (if st.Take? then 1 else if st.SendResult? then 0 else Busy(s.pcs[st.c]))
    ensures st.Take? ==> Busy(s.pcs[st.c]) == 0
    ensures st.SendResult? ==> Busy(s.pcs[st.c]) == 1
  {
  }

  lemma WorkDrops(s: Hub, st: Step)
    requires Enabled(s, st) && !FromOutside(st)
    ensures Work(Apply(s, st)) < Work(s)
    ensures Load(Apply(s, st)) <= Load(s)
  {
    EffortDrops(s, st);
    SumUpdate(s.pcs, st.c, NextPc(s, st), Effort);
    SumUpdate(s.pcs, st.c, NextPc(s, st), Busy);
    if st.SendResult? {
      SumAppend(s.mailbox, SolutionResult(s.pcs[st.c].res), MsgEffort);
    } else if !st.Take? {
      assert NextMailbox(s, st) == s.mailbox;
    }
  }

  // Without new arrivals the consumers stop after a bounded number of steps.
  lemma {:induction false} ConsumersStop(s: Hub, steps: seq<Step>)
    requires IsRun(s, steps) && OnlyConsumers(steps)
    ensures |steps| + Work(Exec(s, steps)) <= Work(s)
    ensures Load(Exec(s, steps)) <= Load(s)
    decreases |steps|
  {
    if steps == [] {
    } else {
      WorkDrops(s, steps[0]);
      assert OnlyConsumers(steps[1..]);
      ConsumersStop(Apply(s, steps[0]), steps[1..]);
    }
  }

  // With at most ten messages queued or in hand, a consumer's own send finds a free slot.
  lemma OwnSendNeverWaits(s: Hub, c: nat)
    requires Load(s) <= 10 && c < |s.pcs| && s.pcs[c].Sending?
    ensures Enabled(s, SendResult(c))
  {
    SumUpdate(s.pcs, c, Idle, Busy);
  }

  // ---------------------------------------------------------------- rooms that are sure to drain

  // A full mailbox, and every consumer with a result still to send into it.
  ghost predicate MayWedge(s: Hub) {
    |s.mailbox| == MAILBOX_SLOTS && forall c :: 0 <= c < |s.pcs| ==> BeforeSend(s.pcs[c])
  }

  // Consumers alone never bring this about.
  lemma MayWedgeBefore(s: Hub, st: Step)
    requires Sound(s) && Enabled(s, st) && !FromOutside(st) && MayWedge(Apply(s, st))
    ensures MayWedge(s)
  {
    assert BeforeSend(NextPc(s, st)) by {
      assert Apply(s, st).pcs[st.c] == NextPc(s, st);
    }
    forall c | 0 <= c < |s.pcs| ensures BeforeSend(s.pcs[c]) {
      assert c != st.c ==> Apply(s, st).pcs[c] == s.pcs[c];
    }
  }

  lemma {:induction false} StaysSafe(s: Hub, steps: seq<Step>)
    requires Sound(s) && !MayWedge(s) && IsRun(s, steps) && OnlyConsumers(steps)
    ensures !MayWedge(Exec(s, steps))
    decreases |steps|
  {
    if steps == [] {
    } else {
      if MayWedge(Apply(s, steps[0])) {
        MayWedgeBefore(s, steps[0]);
      }
      SoundStep(s, steps[0]);
      assert OnlyConsumers(steps[1..]);
      StaysSafe(Apply(s, steps[0]), steps[1..]);
    }
  }

  lemma {:induction false} JudgeAll(s: Hub, done: nat) returns (steps: seq<Step>)
    requires done <= |s.pcs|
    requires forall c :: 0 <= c < |s.pcs| ==> if c < done then s.pcs[c].Sending? else BeforeSend(s.pcs[c])
    ensures IsRun(s, steps) && OnlyConsumers(steps)
    ensures var end := Exec(s, steps);
      end.mailbox == s.mailbox && |end.pcs| == |s.pcs| && forall c :: 0 <= c < |s.pcs| ==> end.pcs[c].Sending?
    decreases |s.pcs| - done
  {
    if done == |s.pcs| {
      steps := [];
    } else {
      var first := JudgeInHand(s, done);
      var rest := JudgeAll(Exec(s, first), done + 1);
      RunThenRun(s, first, rest);
      steps := first + rest;
    }
  }

  ghost predicate Stopped(s: Hub) {
    forall st :: !FromOutside(st) ==> !Enabled(s, st)
  }

  // However the consumers interleave, they stop only when everything is handled. By ConsumersStop they do stop.
  ghost predicate SureToDrain(s: Hub) {
    forall steps :: IsRun(s, steps) && OnlyConsumers(steps) && Stopped(Exec(s, steps)) ==> Drained(Exec(s, steps))
  }

  lemma StopsOnlyWhenDrained(s: Hub, steps: seq<Step>)
    requires Sound(s) && s.pcs != [] && !MayWedge(s)
    requires IsRun(s, steps) && OnlyConsumers(steps) && Stopped(Exec(s, steps))
    ensures Drained(Exec(s, steps))
  {
    SoundRun(s, steps);
    StaysSafe(s, steps);
    StuckIffWedged(Exec(s, steps));
  }

  lemma SureToDrainIff(s: Hub)
    requires Sound(s) && s.pcs != []
    ensures SureToDrain(s) <==> !MayWedge(s)
  {
    if MayWedge(s) {
      var steps := JudgeAll(s, 0);
      SoundRun(s, steps);
      var end := Exec(s, steps);
      assert Wedged(end);
      StuckIffWedged(end);
      assert !Drained(end);
    } else {
      forall steps | IsRun(s, steps) && OnlyConsumers(steps) && Stopped(Exec(s, steps))
        ensures Drained(Exec(s, steps))
      {
        StopsOnlyWhenDrained(s, steps);
      }
    }
  }

  // In particular with at most ten messages queued or in hand.
  lemma LightLoadDrains(s: Hub)
    requires Sound(s) && s.pcs != [] && Load(s) <= 10
    ensures SureToDrain(s)
  {
    SumUpdate(s.pcs, 0, Idle, Busy);
    SureToDrainIff(s);
  }

  // ---------------------------------------------------------------- rooms that can drain at all

  // A step that leaves a room that is not wedged unwedged: a consumer that may still give up does.
  lemma GoodStep(s: Hub) returns (st: Step)
    requires Sound(s) && s.pcs != [] && !Drained(s) && !Wedged(s)
    ensures !FromOutside(st) && Enabled(s, st) && !Wedged(Apply(s, st))
  {
    if MayWedge(s) {
      var c :| 0 <= c < |s.pcs| && !s.pcs[c].Sending?;
      st := GiveUp(c);
      assert Apply(s, st).pcs[c].Idle?;
    } else {
      StuckIffWedged(s);
      st :| !FromOutside(st) && Enabled(s, st);
      if MayWedge(Apply(s, st)) {
        MayWedgeBefore(s, st);
      }
    }
  }

  lemma {:induction false} CanDrain(s: Hub) returns (steps: seq<Step>)
    requires Sound(s) && s.pcs != [] && !Wedged(s)
    ensures IsRun(s, steps) && OnlyConsumers(steps) && Drained(Exec(s, steps))
    ensures |steps| <= Work(s)
    decreases Work(s)
  {
    if Drained(s) {
      steps := [];
    } else {
      var st := GoodStep(s);
      WorkDrops(s, st);
      SoundStep(s, st);
      var rest := CanDrain(Apply(s, st));
      StepThenRun(s, st, rest);
      steps := [st] + rest;
      ConsumersStop(s, steps);
    }
  }

  // Consumers alone can drain the room exactly when it is not wedged already.
  lemma CanDrainIff(s: Hub)
    requires Sound(s) && s.pcs != []
    ensures (exists steps :: IsRun(s, steps) && OnlyConsumers(steps) && Drained(Exec(s, steps))) <==> !Wedged(s)
  {
    if Wedged(s) {
      forall steps | IsRun(s, steps) && OnlyConsumers(steps) ensures !Drained(Exec(s, steps)) {
        WedgedForever(s, steps);
      }
    } else {
      var steps := CanDrain(s);
    }
  }
}
