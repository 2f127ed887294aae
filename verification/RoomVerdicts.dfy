/**
What a room's verdicts are worth: the room and the judge together. The verdict a consumer sends on is the room's
reading of the pool's answer for that row's job; a job without an answer is never judged.
*/
module RoomVerdicts {
  import opened Options
  import opened Ranking
  import opened RoomHub
  import Progress
  import SubmissionAccounting
  import Judging

  // The job made of each submission row.
  type Jobs = SubmissionId -> Judging.Job

  ghost predicate AllWellFormed(jobs: Jobs) {
    forall id :: Judging.WellFormed(jobs(id))
  }

  // The room takes the answer for an accepted solution.
  predicate Accepts(job: Judging.Job)
    requires Judging.WellFormed(job)
  {
    Judging.Answer(job).Some? && Judging.HubVerdict(Judging.Answer(job).value) == Judging.Accepted
  }

  predicate Answered(job: Judging.Job)
    requires Judging.WellFormed(job)
  {
    Judging.Answer(job).Some?
  }

  // A consumer goes on with the judge's verdict, once there is one.
  ghost predicate JudgesTruly(s: Hub, st: Step, jobs: Jobs)
    requires Enabled(s, st) && AllWellFormed(jobs)
  {
    st.Judge? ==> var job := jobs(s.pcs[st.c].id); Answered(job) && (st.accepted <==> Accepts(job))
  }

  ghost predicate TrueRun(s: Hub, steps: seq<Step>, jobs: Jobs)
    requires IsRun(s, steps) && AllWellFormed(jobs)
    decreases |steps|
  {
    steps == [] || (JudgesTruly(s, steps[0], jobs) && TrueRun(Apply(s, steps[0]), steps[1..], jobs))
  }

  ghost predicate TrueResult(res: Judged, jobs: Jobs)
    requires AllWellFormed(jobs)
  {
    Answered(jobs(res.id)) && (res.accepted <==> Accepts(jobs(res.id)))
  }

  // The result a consumer holds, credited or not.
  ghost predicate TruePc(pc: Pc, jobs: Jobs)
    requires AllWellFormed(jobs)
  {
    && (pc.Sending? || pc.Settling? ==> TrueResult(pc.res, jobs))
    && (SubmissionAccounting.PaidBy(pc).Some? ==>
      TrueResult(SubmissionAccounting.PaidBy(pc).value, jobs) && SubmissionAccounting.PaidBy(pc).value.accepted)
  }

  ghost predicate TrueMsg(m: Msg, jobs: Jobs)
    requires AllWellFormed(jobs)
  {
    m.SolutionResult? ==> TrueResult(m.res, jobs)
  }

  // Every result on its way says what the judge said, every stored verdict too unless it is from before the run,
  // and only accepted rows were credited.
  ghost predicate Truthful(s: Hub, before: map<SubmissionId, Status>, jobs: Jobs)
    requires AllWellFormed(jobs)
  {
    && (forall i :: 0 <= i < |s.mailbox| ==> TrueMsg(s.mailbox[i], jobs))
    && (forall c :: 0 <= c < |s.pcs| ==> TruePc(s.pcs[c], jobs))
    && (forall id :: id in s.subs ==> TrueStatus(s.subs[id], id, before, jobs))
    && (forall i :: 0 <= i < |s.book.log| ==> Accepts(jobs(s.book.log[i].id)))
  }

  ghost predicate TrueStatus(status: Status, id: SubmissionId, before: map<SubmissionId, Status>, jobs: Jobs)
    requires AllWellFormed(jobs)
  {
    || status == Pending
    || (id in before && status == before[id])
    || (Answered(jobs(id)) && (status == Accepted <==> Accepts(jobs(id))))
  }

  lemma TruePcStep(s: Hub, st: Step, before: map<SubmissionId, Status>, jobs: Jobs)
    requires AllWellFormed(jobs) && Truthful(s, before, jobs) && Enabled(s, st) && JudgesTruly(s, st, jobs)
    requires !FromOutside(st)
    ensures TruePc(NextPc(s, st), jobs)
  {
    assert TruePc(s.pcs[st.c], jobs);
    if st.Take? {
      assert TrueMsg(s.mailbox[0], jobs);
    }
  }

  lemma TrueWrites(s: Hub, st: Step, before: map<SubmissionId, Status>, jobs: Jobs)
    requires AllWellFormed(jobs) && Truthful(s, before, jobs) && Enabled(s, st)
    ensures forall i :: 0 <= i < |NextMailbox(s, st)| ==> TrueMsg(NextMailbox(s, st)[i], jobs)
    ensures forall id :: id in NextSubs(s, st) ==> TrueStatus(NextSubs(s, st)[id], id, before, jobs)
    ensures forall i :: 0 <= i < |NextBook(s, st).log| ==> Accepts(jobs(NextBook(s, st).log[i].id))
  {
    if !FromOutside(st) {
      assert TruePc(s.pcs[st.c], jobs);
    }
  }

  lemma TrueStep(s: Hub, st: Step, before: map<SubmissionId, Status>, jobs: Jobs)
    requires AllWellFormed(jobs) && Truthful(s, before, jobs) && Enabled(s, st) && JudgesTruly(s, st, jobs)
    ensures Truthful(Apply(s, st), before, jobs)
  {
    TrueWrites(s, st, before, jobs);
    if !FromOutside(st) {
      TruePcStep(s, st, before, jobs);
    }
  }

  lemma {:induction false} TruthfulRun(s: Hub, steps: seq<Step>, before: map<SubmissionId, Status>, jobs: Jobs)
    requires AllWellFormed(jobs) && Truthful(s, before, jobs) && IsRun(s, steps) && TrueRun(s, steps, jobs)
    ensures Truthful(Exec(s, steps), before, jobs)
    decreases |steps|
  {
    if steps == [] {
    } else {
      TrueStep(s, steps[0], before, jobs);
      TruthfulRun(Apply(s, steps[0]), steps[1..], before, jobs);
    }
  }

  // Over every run, for any number of consumers: a row ends accepted only if its program passes every case or never
  // ran, wrong only if it ran and failed, and a job that lost its container leaves its row pending for good.
  lemma VerdictsAreEarned(s: Hub, steps: seq<Step>, jobs: Jobs, id: SubmissionId)
    requires AllWellFormed(jobs) && Started(s) && IsRun(s, steps) && TrueRun(s, steps, jobs)
    requires id !in s.subs && id in Exec(s, steps).subs
    ensures
      var status, job := Exec(s, steps).subs[id], jobs(id);
      && (status == Accepted ==> !job.admitted || (job.served && (job.copied ==> Judging.Solves(job))))
      && (status == WrongAnswer ==> Judging.Ran(job) && !Judging.Solves(job))
      && (job.admitted && !job.served ==> status == Pending)
  {
    TruthfulRun(s, steps, s.subs, jobs);
    if Answered(jobs(id)) {
      Judging.HubAcceptsIffSolvedOrNotRun(jobs(id));
    }
  }

  // Points come only from programs that pass every case or never ran.
  lemma PointsAreEarned(s: Hub, steps: seq<Step>, jobs: Jobs, i: nat)
    requires AllWellFormed(jobs) && Started(s) && IsRun(s, steps) && TrueRun(s, steps, jobs)
    requires i < |Exec(s, steps).book.log|
    ensures
      var job := jobs(Exec(s, steps).book.log[i].id);
      !job.admitted || (job.served && (job.copied ==> Judging.Solves(job)))
  {
    TruthfulRun(s, steps, s.subs, jobs);
    Judging.HubAcceptsIffSolvedOrNotRun(jobs(Exec(s, steps).book.log[i].id));
  }

  // ---------------------------------------------------------------- a submission that never ran, accepted

  // A run so far, with the judge's verdicts true, and the state it leads to.
  ghost predicate TrulyRan(s: Hub, steps: seq<Step>, end: Hub, jobs: Jobs)
    requires AllWellFormed(jobs)
  {
    IsRun(s, steps) && Exec(s, steps) == end && TrueRun(s, steps, jobs)
  }

  lemma {:induction false} TrulyRanOn(s: Hub, steps: seq<Step>, end: Hub, st: Step, jobs: Jobs)
    requires AllWellFormed(jobs) && TrulyRan(s, steps, end, jobs) && Enabled(end, st) && JudgesTruly(end, st, jobs)
    ensures TrulyRan(s, steps + [st], Apply(end, st), jobs)
    decreases |steps|
  {
    if steps == [] {
      assert [] + [st] == [st] && [st][1..] == [];
    } else {
      TrulyRanOn(Apply(s, steps[0]), steps[1..], end, st, jobs);
      assert (steps + [st])[1..] == steps[1..] + [st];
    }
  }

  // A submission of `p` up to its queued result.
  lemma SubmitAndJudge(s: Hub, p: PlayerId, jobs: Jobs) returns (steps: seq<Step>, end: Hub, res: Judged)
    requires AllWellFormed(jobs) && Started(s) && s.pcs != [] && forall id :: Accepts(jobs(id))
    ensures TrulyRan(s, steps, end, jobs)
    ensures end.mailbox == [SolutionResult(res)] && end.pcs == s.pcs && end.lock == None && end.room == s.room
    ensures end.book == s.book && res.id !in s.subs && end.subs == s.subs[res.id := RoomHub.Pending]
    ensures res.sub.player == p && res.sub.room == s.room && res.accepted && res.score == AWARD
  {
    var id := Progress.FreshId(s.subs, s.subs.Keys, 0);
    TrulyRanOn(s, [], s, Submit(p), jobs);
    var s1 := Apply(s, Submit(p));
    steps := [] + [Submit(p)];
    TrulyRanOn(s, steps, s1, Take(0), jobs);
    var s2 := Apply(s1, Take(0));
    steps := steps + [Take(0)];
    TrulyRanOn(s, steps, s2, CreateRow(0, id), jobs);
    var s3 := Apply(s2, CreateRow(0, id));
    steps := steps + [CreateRow(0, id)];
    TrulyRanOn(s, steps, s3, Judge(0, true), jobs);
    var s4 := Apply(s3, Judge(0, true));
    steps := steps + [Judge(0, true)];
    TrulyRanOn(s, steps, s4, SendResult(0), jobs);
    end := Apply(s4, SendResult(0));
    steps := steps + [SendResult(0)];
    res := s4.pcs[0].res;
  }

  // The scores of `rows'` are those of `rows`, plus the award for `p` if there is a row for it.
  ghost predicate Awarded(rows: Rows, rows': Rows, p: PlayerId) {
    && rows'.Keys == rows.Keys
    && forall q :: q in rows ==> rows'[q].score == rows[q].score + if q == p then AWARD else 0
  }

  // The queued result up to the stored verdict.
  lemma CreditAndMark(s: Hub, first: seq<Step>, mid: Hub, res: Judged, jobs: Jobs)
    returns (steps: seq<Step>, end: Hub)
    requires AllWellFormed(jobs) && TrulyRan(s, first, mid, jobs)
    requires mid.mailbox == [SolutionResult(res)] && mid.pcs != [] && mid.pcs[0].Idle? && mid.lock == None
    requires res.accepted && res.score == AWARD && res.sub.room == mid.room && CreditFits(mid.book, res)
    ensures TrulyRan(s, steps, end, jobs) && end.subs == mid.subs[res.id := RoomHub.Accepted]
    ensures end.book.log == Credited(mid.book, res).log && Awarded(Members(mid), Members(end), res.sub.player)
  {
    TrulyRanOn(s, first, mid, Take(0), jobs);
    var s1 := Apply(mid, Take(0));
    steps := first + [Take(0)];
    TrulyRanOn(s, steps, s1, AddScore(0, true), jobs);
    var s2 := Apply(s1, AddScore(0, true));
    steps := steps + [AddScore(0, true)];
    assert Awarded(Members(mid), Members(s2), res.sub.player);
    TrulyRanOn(s, steps, s2, Acquire(0), jobs);
    var s3 := Apply(s2, Acquire(0));
    steps := steps + [Acquire(0)];
    TrulyRanOn(s, steps, s3, Snapshot(0), jobs);
    var s4 := Apply(s3, Snapshot(0));
    steps := steps + [Snapshot(0)];
    steps, end := StoreAndMark(s, steps, s4, res, jobs);
  }

  lemma StoreAndMark(s: Hub, first: seq<Step>, mid: Hub, res: Judged, jobs: Jobs) returns (steps: seq<Step>, end: Hub)
    requires AllWellFormed(jobs) && TrulyRan(s, first, mid, jobs)
    requires mid.pcs != [] && mid.pcs[0].Snapped? && mid.pcs[0].why == ByCredit(res)
    ensures TrulyRan(s, steps, end, jobs) && end.subs == mid.subs[res.id := RoomHub.Accepted]
    ensures end.book.log == mid.book.log && Members(end).Keys == Members(mid).Keys
    ensures forall q :: q in Members(mid) ==> Members(end)[q].score == Members(mid)[q].score
  {
    TrulyRanOn(s, first, mid, StorePlaces(0), jobs);
    var s1 := Apply(mid, StorePlaces(0));
    assert Members(s1) == WritePlaces(Members(mid), mid.pcs[0].snap);
    steps, end := ReadAndMark(s, first + [StorePlaces(0)], s1, res, jobs);
  }

  lemma ReadAndMark(s: Hub, first: seq<Step>, mid: Hub, res: Judged, jobs: Jobs) returns (steps: seq<Step>, end: Hub)
    requires AllWellFormed(jobs) && TrulyRan(s, first, mid, jobs)
    requires mid.pcs != [] && mid.pcs[0] == Reading(ByCredit(res))
    ensures TrulyRan(s, steps, end, jobs) && end.subs == mid.subs[res.id := RoomHub.Accepted]
    ensures end.book == mid.book && end.room == mid.room
  {
    TrulyRanOn(s, first, mid, ReadEntries(0, true), jobs);
    var s1 := Apply(mid, ReadEntries(0, true));
    steps := first + [ReadEntries(0, true)];
    TrulyRanOn(s, steps, s1, MarkAccepted(0, true), jobs);
    steps, end := steps + [MarkAccepted(0, true)], Apply(s1, MarkAccepted(0, true));
  }

  // From any started room: a submission the full job queue refused ends accepted, with fifty points for its player;
  // a player without a row gets the verdict, and nobody the points.
  lemma RefusedIsAccepted(s: Hub, p: PlayerId, jobs: Jobs) returns (steps: seq<Step>, id: SubmissionId)
    requires AllWellFormed(jobs) && (forall id :: !jobs(id).admitted) && Started(s) && s.pcs != []
    requires p in Members(s) ==> Members(s)[p].score + AWARD <= MAX_SCORE
    ensures IsRun(s, steps) && TrueRun(s, steps, jobs) && id !in s.subs
    ensures
      var end := Exec(s, steps);
      && id in end.subs && end.subs[id] == RoomHub.Accepted
      && end.book.log == [Credit(id, p, if p in Members(s) then Some(Members(s)[p].rowId) else None)]
      && Awarded(Members(s), Members(end), p)
  {
    var first, mid, res := SubmitAndJudge(s, p, jobs);
    var end;
    steps, end := CreditAndMark(s, first, mid, res, jobs);
    id := res.id;
  }
}
