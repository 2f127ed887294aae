/**
The judge's worker pool as a step system: a bounded job queue, workers that each hold at most one container between
acquiring and releasing it, and a locked scan for an idle container that gives up after ten tries.
*/
module WorkerPool {
  import opened Options
  import opened Containers
  import opened Bags

  type JobId = nat

  // Where a worker is in executeJob.
  datatype Worker =
    | Waiting
    | Scanning(job: JobId, attempt: nat)              // inside GetAvailableContainer
    | Acquired(job: JobId, container: ContainerId)    // container handed out, already marked busy
    | Running(job: JobId, container: ContainerId)
    | Answered(job: JobId, container: ContainerId)    // result sent, release still deferred
    | EmptyHanded(job: JobId)                         // every scan missed: the returned id is empty

  datatype Pool = Pool(
    containers: States,
    workers: seq<Worker>,
    queue: seq<JobId>,
    slots: nat,
    admitted: nat,               // jobs below this number were accepted
    refused: nat,                // submissions answered at once because the queue was full
    replies: multiset<JobId>,    // results sent, by job
    lost: set<JobId>)            // jobs whose worker returned without sending a result

  datatype Step =
    | Enqueue
    | Handoff(w: nat)            // straight to a worker waiting at an empty queue
    | Refuse
    | TakeJob(w: nat)
    | ScanHits(w: nat, found: ContainerId)
    | ScanMisses(w: nat)
    | MarkBusy(w: nat)
    | Reply(w: nat)
    | Release(w: nat)
    | Drop(w: nat)

  predicate Submits(st: Step) {
    st.Enqueue? || st.Handoff? || st.Refuse?
  }

  predicate Enabled(p: Pool, st: Step) {
    match st
    case Enqueue => |p.queue| < p.slots
    case Refuse => |p.queue| >= p.slots
    case Handoff(w) => w < |p.workers| && p.workers[w].Waiting? && p.queue == []
    case TakeJob(w) => w < |p.workers| && p.workers[w].Waiting? && p.queue != []
    case ScanHits(w, id) => w < |p.workers| && p.workers[w].Scanning? && id in Having(p.containers, Idle)
    case ScanMisses(w) => w < |p.workers| && p.workers[w].Scanning? && Having(p.containers, Idle) == {}
    case MarkBusy(w) => w < |p.workers| && p.workers[w].Acquired?
    case Reply(w) => w < |p.workers| && p.workers[w].Running?
    case Release(w) => w < |p.workers| && p.workers[w].Answered?
    case Drop(w) => w < |p.workers| && p.workers[w].EmptyHanded?
  }

  // SetContainerState: an unknown id is an error and changes nothing.
  function SetState(states: States, id: ContainerId, s: ContainerState): States {
    if id in states then states[id := s] else states
  }

  function NextWorker(p: Pool, st: Step): Worker
    requires Enabled(p, st) && !st.Enqueue? && !st.Refuse?
  {
    match st
    case Handoff(w) => Scanning(p.admitted, 0)
    case TakeJob(w) => Scanning(p.queue[0], 0)
    case ScanHits(w, id) => Acquired(p.workers[w].job, id)
    case ScanMisses(w) =>
      if p.workers[w].attempt + 1 < MAX_RETRIES then Scanning(p.workers[w].job, p.workers[w].attempt + 1)
      else EmptyHanded(p.workers[w].job)
    case MarkBusy(w) => Running(p.workers[w].job, p.workers[w].container)
    case Reply(w) => Answered(p.workers[w].job, p.workers[w].container)
    case Release(w) => Waiting
    case Drop(w) => Waiting
  }

  function NextContainers(p: Pool, st: Step): States
    requires Enabled(p, st)
  {
    match st
    case ScanHits(w, id) => p.containers[id := Busy]
    case MarkBusy(w) => SetState(p.containers, p.workers[w].container, Busy)
    case Release(w) => SetState(p.containers, p.workers[w].container, Idle)
    case Drop(w) => SetState(p.containers, NO_CONTAINER, Busy)
    case _ => p.containers
  }

  function Apply(p: Pool, st: Step): Pool
    requires Enabled(p, st)
  {
    Pool(
      NextContainers(p, st),
      if st.Enqueue? || st.Refuse? then p.workers else p.workers[st.w := NextWorker(p, st)],
      if st.Enqueue? then p.queue + [p.admitted] else if st.TakeJob? then p.queue[1..] else p.queue,
      p.slots,
      if st.Enqueue? || st.Handoff? then p.admitted + 1 else p.admitted,
      if st.Refuse? then p.refused + 1 else p.refused,
      if st.Reply? then p.replies + multiset{p.workers[st.w].job} else p.replies,
      if st.Drop? then p.lost + {p.workers[st.w].job} else p.lost)
  }

  predicate IsRun(p: Pool, steps: seq<Step>)
    decreases |steps|
  {
    steps == [] || (Enabled(p, steps[0]) && IsRun(Apply(p, steps[0]), steps[1..]))
  }

  function Exec(p: Pool, steps: seq<Step>): Pool
    requires IsRun(p, steps)
    decreases |steps|
  {
    if steps == [] then p else Exec(Apply(p, steps[0]), steps[1..])
  }

  lemma StepThenRun(p: Pool, st: Step, rest: seq<Step>)
    requires Enabled(p, st) && IsRun(Apply(p, st), rest)
    ensures IsRun(p, [st] + rest) && Exec(p, [st] + rest) == Exec(Apply(p, st), rest)
  {
    assert ([st] + rest)[1..] == rest;
  }

  // A pool as built: every worker waiting, no container busy.
  ghost predicate Started(p: Pool) {
    && (forall w :: 0 <= w < |p.workers| ==> p.workers[w].Waiting?)
    && p.queue == [] && p.admitted == 0 && p.replies == multiset{} && p.lost == {}
    && Having(p.containers, Busy) == {}
    && NO_CONTAINER !in p.containers
  }

  // ---------------------------------------------------------------- containers and their holders

  predicate HasContainer(w: Worker) {
    w.Acquired? || w.Running? || w.Answered?
  }

  // Busy containers and workers between acquire and release correspond one to one; ids never appear or vanish.
  ghost predicate Exclusive(p: Pool) {
    && NO_CONTAINER !in p.containers
    && (forall w :: 0 <= w < |p.workers| && HasContainer(p.workers[w]) ==>
      p.workers[w].container in Having(p.containers, Busy))
    && (forall v, w :: 0 <= v < w < |p.workers| && HasContainer(p.workers[v]) && HasContainer(p.workers[w]) ==>
      p.workers[v].container != p.workers[w].container)
    && (forall id :: id in Having(p.containers, Busy) ==>
      exists w :: 0 <= w < |p.workers| && HasContainer(p.workers[w]) && p.workers[w].container == id)
  }

  lemma HolderPersists(p: Pool, st: Step, id: ContainerId)
    requires Exclusive(p) && Enabled(p, st) && id in Having(NextContainers(p, st), Busy)
    ensures
      var ws := Apply(p, st).workers;
      exists w :: 0 <= w < |ws| && HasContainer(ws[w]) && ws[w].container == id
  {
    var p' := Apply(p, st);
    if st.ScanHits? && st.found == id {
      assert HasContainer(p'.workers[st.w]) && p'.workers[st.w].container == id;
    } else {
      assert id in Having(p.containers, Busy);
      var w :| 0 <= w < |p.workers| && HasContainer(p.workers[w]) && p.workers[w].container == id;
      assert HasContainer(p'.workers[w]) && p'.workers[w].container == id;
    }
  }

  lemma HeldStaysBusy(p: Pool, st: Step, w: nat)
    requires Exclusive(p) && Enabled(p, st) && w < |p.workers| && HasContainer(Apply(p, st).workers[w])
    ensures Apply(p, st).workers[w].container in Having(NextContainers(p, st), Busy)
    ensures forall v :: 0 <= v < |p.workers| && v != w && HasContainer(Apply(p, st).workers[v]) ==>
      Apply(p, st).workers[v].container != Apply(p, st).workers[w].container
  {
    var p' := Apply(p, st);
    forall v | 0 <= v < |p.workers| && v != w && HasContainer(p'.workers[v])
      ensures p'.workers[v].container != p'.workers[w].container
    {
      assert st.ScanHits? && st.w == w ==> p'.workers[v] == p.workers[v];
      assert st.ScanHits? && st.w == v ==> p'.workers[w] == p.workers[w];
    }
  }

  lemma ContainersKept(p: Pool, st: Step)
    requires Exclusive(p) && Enabled(p, st)
    ensures NextContainers(p, st).Keys == p.containers.Keys
    ensures Having(NextContainers(p, st), Error) == Having(p.containers, Error)
  {
  }

  lemma ExclusiveStep(p: Pool, st: Step)
    requires Exclusive(p) && Enabled(p, st)
    ensures Exclusive(Apply(p, st))
    ensures Apply(p, st).containers.Keys == p.containers.Keys
    ensures Having(Apply(p, st).containers, Error) == Having(p.containers, Error)
  {
    var p' := Apply(p, st);
    ContainersKept(p, st);
    forall w | 0 <= w < |p'.workers| && HasContainer(p'.workers[w])
      ensures p'.workers[w].container in Having(p'.containers, Busy)
      ensures forall v :: 0 <= v < |p'.workers| && v != w && HasContainer(p'.workers[v]) ==>
        p'.workers[v].container != p'.workers[w].container
    {
      HeldStaysBusy(p, st, w);
    }
    forall id | id in Having(p'.containers, Busy)
      ensures exists w :: 0 <= w < |p'.workers| && HasContainer(p'.workers[w]) && p'.workers[w].container == id
    {
      HolderPersists(p, st, id);
    }
  }

  lemma {:induction false} ExclusiveRun(p: Pool, steps: seq<Step>)
    requires Exclusive(p) && IsRun(p, steps)
    ensures Exclusive(Exec(p, steps))
    ensures Exec(p, steps).containers.Keys == p.containers.Keys
    ensures Having(Exec(p, steps).containers, Error) == Having(p.containers, Error)
    ensures |Exec(p, steps).workers| == |p.workers|
    decreases |steps|
  {
    if steps == [] {
    } else {
      ExclusiveStep(p, steps[0]);
      ExclusiveRun(Apply(p, steps[0]), steps[1..]);
    }
  }

  // Over every run: a held container is busy, held by one worker only, and never one in the error state.
  lemma MutualExclusion(p: Pool, steps: seq<Step>, v: nat, w: nat)
    requires Started(p) && IsRun(p, steps)
    requires v < |Exec(p, steps).workers| && HasContainer(Exec(p, steps).workers[v])
    requires w < |Exec(p, steps).workers| && HasContainer(Exec(p, steps).workers[w])
    ensures
      var end := Exec(p, steps);
      && (end.workers[v].container == end.workers[w].container ==> v == w)
      && end.workers[v].container in Having(end.containers, Busy)
      && end.workers[v].container in Usable(p.containers)
  {
    ExclusiveRun(p, steps);
    var id := Exec(p, steps).workers[v].container;
    assert id !in Having(Exec(p, steps).containers, Error);
  }

  function Holds(w: Worker): nat {
    if HasContainer(w) then 1 else 0
  }

  function Held(ws: seq<Worker>): set<ContainerId> {
    set w | w in ws && HasContainer(w) :: w.container
  }

  lemma HeldFirst(ws: seq<Worker>)
    requires ws != []
    ensures Held(ws) == Held(ws[1..]) + if HasContainer(ws[0]) then {ws[0].container} else {}
  {
    assert ws == [ws[0]] + ws[1..];
  }

  lemma {:induction false} HeldSize(ws: seq<Worker>)
    requires forall v, w :: 0 <= v < w < |ws| && HasContainer(ws[v]) && HasContainer(ws[w]) ==>
      ws[v].container != ws[w].container
    ensures |Held(ws)| == Sum(ws, Holds) <= |ws|
    ensures (exists w :: 0 <= w < |ws| && !HasContainer(ws[w])) ==> Sum(ws, Holds) < |ws|
  {
    if ws == [] {
    } else {
      var rest := ws[1..];
      assert forall w :: 0 <= w < |rest| ==> rest[w] == ws[w + 1];
      HeldSize(rest);
      HeldFirst(ws);
      if w :| 0 < w < |ws| && !HasContainer(ws[w]) {
        assert !HasContainer(rest[w - 1]);
      }
    }
  }

  lemma BusyIsHeld(p: Pool)
    requires Exclusive(p)
    ensures Having(p.containers, Busy) == Held(p.workers)
    ensures |Having(p.containers, Busy)| == Sum(p.workers, Holds)
  {
    HeldSize(p.workers);
    forall id ensures id in Having(p.containers, Busy) <==> id in Held(p.workers) {
    }
  }

  // Jobs in containers at one time never exceed the containers that were not in error, nor the workers.
  lemma ConcurrencyBound(p: Pool, steps: seq<Step>)
    requires Started(p) && IsRun(p, steps)
    ensures Sum(Exec(p, steps).workers, Holds) == |Having(Exec(p, steps).containers, Busy)|
    ensures Sum(Exec(p, steps).workers, Holds) <= |Usable(p.containers)|
    ensures Sum(Exec(p, steps).workers, Holds) <= |p.workers|
  {
    ExclusiveRun(p, steps);
    var end := Exec(p, steps);
    BusyIsHeld(end);
    HeldSize(end.workers);
    UsableKept(p, end);
    UsableIsIdleOrBusy(end.containers);
  }

  lemma UsableKept(p: Pool, end: Pool)
    requires end.containers.Keys == p.containers.Keys
    requires Having(end.containers, Error) == Having(p.containers, Error)
    ensures Usable(end.containers) == Usable(p.containers)
  {
    forall id | id in p.containers ensures id in Usable(end.containers) <==> id in Usable(p.containers) {
      assert id in Having(end.containers, Error) <==> id in Having(p.containers, Error);
    }
  }

  // ---------------------------------------------------------------- the first scan always finds a container

  lemma IdleForScanner(p: Pool, w: nat)
    requires Exclusive(p) && |Usable(p.containers)| >= |p.workers|
    requires w < |p.workers| && !HasContainer(p.workers[w])
    ensures Having(p.containers, Idle) != {}
  {
    BusyIsHeld(p);
    HeldSize(p.workers);
    UsableIsIdleOrBusy(p.containers);
  }

  // No worker has ever missed.
  ghost predicate NeverMissed(p: Pool) {
    && p.lost == {}
    && forall w :: 0 <= w < |p.workers| ==>
      !p.workers[w].EmptyHanded? && (p.workers[w].Scanning? ==> p.workers[w].attempt == 0)
  }

  lemma {:induction false} NeverMisses(p: Pool, steps: seq<Step>)
    requires Exclusive(p) && NeverMissed(p) && |Usable(p.containers)| >= |p.workers| && IsRun(p, steps)
    ensures NeverMissed(Exec(p, steps))
    decreases |steps|
  {
    if steps == [] {
    } else {
      if steps[0].ScanMisses? {
        IdleForScanner(p, steps[0].w);
        assert false;
      }
      ExclusiveStep(p, steps[0]);
      UsableKept(p, Apply(p, steps[0]));
      NeverMisses(Apply(p, steps[0]), steps[1..]);
    }
  }

  lemma FirstScanFinds(p: Pool, steps: seq<Step>, w: nat)
    requires Started(p) && |Usable(p.containers)| >= |p.workers| && IsRun(p, steps)
    requires w < |Exec(p, steps).workers| && Exec(p, steps).workers[w].Scanning?
    ensures Exec(p, steps).workers[w].attempt == 0 && Having(Exec(p, steps).containers, Idle) != {}
  {
    NeverMisses(p, steps);
    ExclusiveRun(p, steps);
    UsableKept(p, Exec(p, steps));
    IdleForScanner(Exec(p, steps), w);
  }

  // ---------------------------------------------------------------- with fewer containers a job can be lost

  lemma {:induction false} MissUntilEmpty(p: Pool, w: nat) returns (steps: seq<Step>)
    requires w < |p.workers| && p.workers[w].Scanning? && p.workers[w].attempt < MAX_RETRIES
    requires Having(p.containers, Idle) == {}
    ensures IsRun(p, steps) && Exec(p, steps).lost != {}
    decreases MAX_RETRIES - p.workers[w].attempt
  {
    var p' := Apply(p, ScanMisses(w));
    if p.workers[w].attempt + 1 < MAX_RETRIES {
      var rest := MissUntilEmpty(p', w);
      StepThenRun(p, ScanMisses(w), rest);
      steps := [ScanMisses(w)] + rest;
    } else {
      assert p.workers[w].job in Apply(p', Drop(w)).lost;
      StepThenRun(p', Drop(w), []);
      StepThenRun(p, ScanMisses(w), [Drop(w)] + []);
      steps := [ScanMisses(w)] + ([Drop(w)] + []);
    }
  }

  lemma {:induction false} OccupyThenMiss(p: Pool, w: nat) returns (steps: seq<Step>)
    requires p.queue == [] && w < |p.workers| && |Having(p.containers, Idle)| < |p.workers| - w
    requires forall v :: w <= v < |p.workers| ==> p.workers[v].Waiting?
    ensures IsRun(p, steps) && Exec(p, steps).lost != {}
    decreases |p.workers| - w
  {
    var p1 := Apply(p, Handoff(w));
    var idle := Having(p.containers, Idle);
    if idle == {} {
      var rest := MissUntilEmpty(p1, w);
      StepThenRun(p, Handoff(w), rest);
      steps := [Handoff(w)] + rest;
    } else {
      var id :| id in idle;
      var p2 := Apply(p1, ScanHits(w, id));
      assert Having(p2.containers, Idle) == idle - {id};
      var rest := OccupyThenMiss(p2, w + 1);
      StepThenRun(p1, ScanHits(w, id), rest);
      StepThenRun(p, Handoff(w), [ScanHits(w, id)] + rest);
      steps := [Handoff(w)] + ([ScanHits(w, id)] + rest);
    }
  }

  ghost predicate NeverLosesJobs(p: Pool) {
    forall steps :: IsRun(p, steps) ==> Exec(p, steps).lost == {}
  }

  // The pool is sure to answer every job exactly when it has a usable container for each worker.
  lemma NoJobLostIffEnoughContainers(p: Pool)
    requires Started(p)
    ensures NeverLosesJobs(p) <==> |Usable(p.containers)| >= |p.workers|
  {
    if |Usable(p.containers)| >= |p.workers| {
      forall steps | IsRun(p, steps) ensures Exec(p, steps).lost == {} {
        NeverMisses(p, steps);
      }
    } else {
      UsableIsIdleOrBusy(p.containers);
      var steps := OccupyThenMiss(p, 0);
    }
  }

  // ---------------------------------------------------------------- one result per job

  function QueuedJob(j: JobId): multiset<nat> {
    multiset{j}
  }

  // The job a worker has taken and not yet answered.
  function InHand(w: Worker): Option<JobId> {
    if w.Waiting? || w.Answered? then None else Some(w.job)
  }

  function JobInHand(w: Worker): multiset<nat> {
    if InHand(w).Some? then multiset{InHand(w).value} else multiset{}
  }

  predicate JobOk(p: Pool, j: JobId) {
    Count(p.queue, QueuedJob, j) + Count(p.workers, JobInHand, j) + p.replies[j] + Flag(j in p.lost)
    == Flag(j < p.admitted)
  }

  // Worker `w` is given a new job, takes one from the queue, answers or loses the one in hand, or keeps it.
  ghost predicate JobMoves(p: Pool, p': Pool, w: nat)
    requires w < |p.workers| == |p'.workers|
  {
    var h, h' := InHand(p.workers[w]), InHand(p'.workers[w]);
    var kept := p'.queue == p.queue && p'.admitted == p.admitted;
    || (h == None && h' == Some(p.admitted) && p'.admitted == p.admitted + 1 && p'.queue == p.queue
        && p'.replies == p.replies && p'.lost == p.lost)
    || (h == None && p.queue != [] && h' == Some(p.queue[0]) && p'.queue == p.queue[1..] && p'.admitted == p.admitted
        && p'.replies == p.replies && p'.lost == p.lost)
    || (kept && h.Some? && h' == None && p'.replies == p.replies + multiset{h.value} && p'.lost == p.lost)
    || (kept && h.Some? && h' == None && p'.replies == p.replies && p'.lost == p.lost + {h.value})
    || (kept && h' == h && p'.replies == p.replies && p'.lost == p.lost)
  }

  lemma StepMovesJob(p: Pool, st: Step)
    requires Enabled(p, st) && !st.Enqueue? && !st.Refuse?
    ensures JobMoves(p, Apply(p, st), st.w)
  {
  }

  lemma JobMoved(p: Pool, p': Pool, w: nat, j: JobId)
    requires w < |p.workers| == |p'.workers| && p'.workers == p.workers[w := p'.workers[w]]
    requires JobMoves(p, p', w) && JobOk(p, j)
    ensures JobOk(p', j)
  {
    CountUpdate(p.workers, w, p'.workers[w], JobInHand, j);
    if p.queue != [] {
      CountTail(p.queue, QueuedJob, j);
    }
  }

  lemma JobStep(p: Pool, st: Step, j: JobId)
    requires Enabled(p, st) && JobOk(p, j)
    ensures JobOk(Apply(p, st), j)
  {
    if st.Enqueue? {
      CountAppend(p.queue, p.admitted, QueuedJob, j);
    } else if !st.Refuse? {
      StepMovesJob(p, st);
      JobMoved(p, Apply(p, st), st.w, j);
    }
  }

  lemma {:induction false} JobRun(p: Pool, steps: seq<Step>, j: JobId)
    requires IsRun(p, steps) && JobOk(p, j)
    ensures JobOk(Exec(p, steps), j)
    decreases |steps|
  {
    if steps == [] {
    } else {
      JobStep(p, steps[0], j);
      JobRun(Apply(p, steps[0]), steps[1..], j);
    }
  }

  // An admitted job is queued, in a worker's hands, answered once, or lost; so its one-slot channel never fills.
  lemma JobAccounted(p: Pool, steps: seq<Step>, j: JobId)
    requires Started(p) && IsRun(p, steps)
    ensures
      var end := Exec(p, steps);
      Count(end.queue, QueuedJob, j) + Count(end.workers, JobInHand, j) + end.replies[j] + Flag(j in end.lost)
      == Flag(j < end.admitted)
  {
    BagEmpty(p.workers, JobInHand);
    JobRun(p, steps, j);
  }

  // ---------------------------------------------------------------- admission

  // The queue fits its slots and holds the latest jobs in the order of their admission.
  ghost predicate InOrder(p: Pool) {
    |p.queue| <= p.slots && |p.queue| <= p.admitted
    && forall i :: 0 <= i < |p.queue| ==> p.queue[i] == p.admitted - |p.queue| + i
  }

  lemma InOrderStep(p: Pool, st: Step)
    requires InOrder(p) && Enabled(p, st)
    ensures InOrder(Apply(p, st)) && Apply(p, st).slots == p.slots
    ensures Apply(p, st).admitted + Apply(p, st).refused == p.admitted + p.refused + Flag(Submits(st))
    ensures Apply(p, st).refused > p.refused ==> |p.queue| == p.slots
  {
  }

  function Submissions(steps: seq<Step>): nat {
    if steps == [] then 0 else Flag(Submits(steps[0])) + Submissions(steps[1..])
  }

  // Over every run each submission is admitted or refused, the queue never outgrows its slots, and jobs are taken
  // from it first in, first out.
  lemma {:induction false} AdmissionRun(p: Pool, steps: seq<Step>)
    requires InOrder(p) && IsRun(p, steps)
    ensures InOrder(Exec(p, steps)) && Exec(p, steps).slots == p.slots
    ensures Exec(p, steps).admitted + Exec(p, steps).refused == p.admitted + p.refused + Submissions(steps)
    decreases |steps|
  {
    if steps == [] {
    } else {
      InOrderStep(p, steps[0]);
      AdmissionRun(Apply(p, steps[0]), steps[1..]);
    }
  }

  // ---------------------------------------------------------------- how a job is lost

  // The step is a scan for job `j` that finds no idle container.
  predicate MissesFor(p: Pool, st: Step, j: JobId)
    requires Enabled(p, st)
  {
    st.ScanMisses? && p.workers[st.w].job == j
  }

  function Misses(p: Pool, steps: seq<Step>, j: JobId): nat
    requires IsRun(p, steps)
    decreases |steps|
  {
    if steps == [] then 0
    else Flag(MissesFor(p, steps[0], j)) + Misses(Apply(p, steps[0]), steps[1..], j)
  }

  // How far a worker is with its job when `n` scans for it have missed: after ten it has given up.
  predicate TriedBy(w: Worker, n: nat) {
    match w
    case Scanning(_, attempt) => attempt == n && n < 10
    case EmptyHanded(_) => n == 10
    case _ => n < 10
  }

  // `n` scans for job `j` have missed.
  ghost predicate Tried(p: Pool, j: JobId, n: nat) {
    && (j in p.queue || j >= p.admitted ==> n == 0)
    && (forall w :: 0 <= w < |p.workers| && InHand(p.workers[w]) == Some(j) ==> TriedBy(p.workers[w], n))
    && (j in p.lost ==> n == 10)
  }

  // A job in a worker's hands is in no other worker's, not queued and not lost.
  lemma HeldCounts(p: Pool, v: nat, w: nat, j: JobId)
    requires v < |p.workers| && w < |p.workers| && InHand(p.workers[v]) == InHand(p.workers[w]) == Some(j)
    requires JobOk(p, j)
    ensures v == w && j < p.admitted && j !in p.lost && j !in p.queue
  {
    CountUpdate(p.workers, w, Waiting, JobInHand, j);
    if v != w {
      CountUpdate(p.workers[w := Waiting], v, Waiting, JobInHand, j);
    }
    if i :| 0 <= i < |p.queue| && p.queue[i] == j {
      CountUpdate(p.queue, i, j, QueuedJob, j);
    }
  }

  // The job is in one place, and that is as far as it has come.
  ghost predicate Located(p: Pool, j: JobId, n: nat) {
    JobOk(p, j) && Tried(p, j, n)
  }

  // A step of the worker that holds the job.
  lemma HolderTries(p: Pool, st: Step, j: JobId, n: nat)
    requires Enabled(p, st) && !st.Enqueue? && !st.Refuse?
    requires InHand(p.workers[st.w]) == Some(j) && TriedBy(p.workers[st.w], n)
    ensures InHand(NextWorker(p, st)) == Some(j) ==> TriedBy(NextWorker(p, st), n + Flag(MissesFor(p, st, j)))
    ensures MissesFor(p, st, j) ==> InHand(NextWorker(p, st)) == Some(j)
    ensures j in Apply(p, st).lost ==> j in p.lost || n == 10
    ensures Apply(p, st).queue == p.queue && Apply(p, st).admitted == p.admitted
  {
  }

  // A step of any other worker.
  lemma OthersTry(p: Pool, st: Step, j: JobId, n: nat)
    requires Enabled(p, st) && !st.Enqueue? && !st.Refuse? && InHand(p.workers[st.w]) != Some(j)
    requires j in p.queue || j >= p.admitted ==> n == 0
    ensures !MissesFor(p, st, j)
    ensures InHand(NextWorker(p, st)) == Some(j) ==> TriedBy(NextWorker(p, st), n)
    ensures j in Apply(p, st).lost ==> j in p.lost
    ensures j in Apply(p, st).queue || j >= Apply(p, st).admitted ==> n == 0
  {
  }

  lemma TriedStep(p: Pool, st: Step, j: JobId, n: nat)
    requires Enabled(p, st) && JobOk(p, j) && Tried(p, j, n)
    ensures Tried(Apply(p, st), j, n + Flag(MissesFor(p, st, j)))
  {
    var p' := Apply(p, st);
    if st.Enqueue? || st.Refuse? {
      assert p'.workers == p.workers && p'.lost == p.lost;
    } else {
      var n' := n + Flag(MissesFor(p, st, j));
      if InHand(p.workers[st.w]) == Some(j) {
        HeldCounts(p, st.w, st.w, j);
        HolderTries(p, st, j, n);
      } else {
        OthersTry(p, st, j, n);
      }
      forall v | 0 <= v < |p'.workers| && InHand(p'.workers[v]) == Some(j) ensures TriedBy(p'.workers[v], n') {
        if v == st.w {
          assert p'.workers[v] == NextWorker(p, st);
        } else {
          assert p'.workers[v] == p.workers[v];
          if InHand(p.workers[st.w]) == Some(j) {
            HeldCounts(p, v, st.w, j);
          }
        }
      }
    }
  }

  lemma LocatedStep(p: Pool, st: Step, j: JobId, n: nat, p': Pool)
    requires Enabled(p, st) && p' == Apply(p, st) && Located(p, j, n)
    ensures Located(p', j, n + Flag(MissesFor(p, st, j)))
  {
    JobStep(p, st, j);
    TriedStep(p, st, j, n);
  }

  lemma {:induction false} TriedRun(p: Pool, steps: seq<Step>, j: JobId, n: nat, m: nat, end: Pool)
    requires IsRun(p, steps) && Located(p, j, n) && end == Exec(p, steps) && m == n + Misses(p, steps, j)
    ensures Located(end, j, m)
    decreases |steps|
  {
    if steps == [] {
    } else {
      var p' := Apply(p, steps[0]);
      LocatedStep(p, steps[0], j, n, p');
      TriedRun(p', steps[1..], j, n + Flag(MissesFor(p, steps[0], j)), m, end);
    }
  }

  // A job is lost only after ten scans for it have missed, and no job is scanned for more often.
  lemma LostAfterTenMisses(p: Pool, steps: seq<Step>, j: JobId)
    requires Started(p) && IsRun(p, steps)
    ensures j in Exec(p, steps).lost ==> Misses(p, steps, j) == 10
    ensures j in Exec(p, steps).queue ==> Misses(p, steps, j) == 0
  {
    BagEmpty(p.workers, JobInHand);
    TriedRun(p, steps, j, 0, Misses(p, steps, j), Exec(p, steps));
  }

  // ---------------------------------------------------------------- every admitted job is answered

  function Effort(w: Worker): nat {
    match w
    case Waiting => 0
    case Answered(_, _) => 1
    case Running(_, _) => 2
    case Acquired(_, _) => 3
    case EmptyHanded(_) => 3
    case Scanning(_, attempt) => if attempt < MAX_RETRIES then 4 + (MAX_RETRIES - attempt) else 4
  }

  function QueueEffort(j: JobId): nat {
    15
  }

  function Work(p: Pool): nat {
    Sum(p.queue, QueueEffort) + Sum(p.workers, Effort)
  }

  lemma WorkDrops(p: Pool, st: Step)
    requires Enabled(p, st) && !Submits(st)
    ensures Work(Apply(p, st)) < Work(p)
  {
    SumUpdate(p.workers, st.w, NextWorker(p, st), Effort);
  }

  ghost predicate Quiet(p: Pool) {
    p.queue == [] && forall w :: 0 <= w < |p.workers| ==> p.workers[w].Waiting?
  }

  // Without new submissions the workers stop after a bounded number of steps, and only when nothing is left to do.
  lemma {:induction false} WorkersFinish(p: Pool, steps: seq<Step>)
    requires IsRun(p, steps) && forall i :: 0 <= i < |steps| ==> !Submits(steps[i])
    ensures |steps| + Work(Exec(p, steps)) <= Work(p)
    decreases |steps|
  {
    if steps == [] {
    } else {
      WorkDrops(p, steps[0]);
      WorkersFinish(Apply(p, steps[0]), steps[1..]);
    }
  }

  lemma QuietIffNoWorkerStep(p: Pool)
    requires p.workers != []
    ensures Quiet(p) <==> forall st :: !Submits(st) ==> !Enabled(p, st)
  {
    if w :| 0 <= w < |p.workers| && !p.workers[w].Waiting? {
      var st := match p.workers[w]
        case Scanning(_, _) =>
          if id :| id in Having(p.containers, Idle) then ScanHits(w, id) else ScanMisses(w)
        case Acquired(_, _) => MarkBusy(w)
        case Running(_, _) => Reply(w)
        case Answered(_, _) => Release(w)
        case EmptyHanded(_) => Drop(w);
      assert !Submits(st) && Enabled(p, st);
    } else if p.queue != [] {
      assert Enabled(p, TakeJob(0));
    }
  }

  // With enough containers, once the pool is quiet every admitted job has been answered exactly once.
  lemma EveryJobAnsweredOnce(p: Pool, steps: seq<Step>, j: JobId)
    requires Started(p) && |Usable(p.containers)| >= |p.workers| && IsRun(p, steps) && Quiet(Exec(p, steps))
    ensures Exec(p, steps).replies[j] == if j < Exec(p, steps).admitted then 1 else 0
  {
    NeverMisses(p, steps);
    JobAccounted(p, steps, j);
    BagEmpty(Exec(p, steps).workers, JobInHand);
  }
}
