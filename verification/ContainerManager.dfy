/**
The container manager: a map from container ids to records whose state is updated in place. Docker's answers
(which ids it assigns, which calls fail) and the iteration order of the map are arbitrary.
*/
module ContainerManagers {
  import opened Options
  import opened Containers
  import WorkerPool

  // Some states plus new idle containers.
  function Grown(states: States, ids: seq<ContainerId>): States {
    map id | id in states.Keys + (set x | x in ids) :: if id in states then states[id] else Idle
  }

  lemma GrownAdds(states: States, ids: seq<ContainerId>, id: ContainerId)
    ensures id in Grown(states, ids) <==> id in states || exists i :: 0 <= i < |ids| && ids[i] == id
    ensures id in states ==> Grown(states, ids)[id] == states[id]
    ensures id in Grown(states, ids) && id !in states ==> Grown(states, ids)[id] == Idle
  {
    if id in Grown(states, ids) && id !in states {
      assert id in ids;
    }
  }

  lemma GrownNone(states: States)
    ensures Grown(states, []) == states
  {
  }

  lemma GrownOne(states: States, ids: seq<ContainerId>, n: nat)
    requires n < |ids| && ids[n] !in states
    ensures Grown(states, ids[..n + 1]) == Grown(states, ids[..n])[ids[n] := Idle]
  {
    assert ids[..n + 1] == ids[..n] + [ids[n]];
  }

  lemma InsertSize(states: States, id: ContainerId)
    requires id !in states
    ensures |states[id := Idle]| == |states| + 1
  {
    assert states[id := Idle].Keys == states.Keys + {id};
  }

  lemma {:induction false} GrownSize(states: States, ids: seq<ContainerId>, n: nat)
    requires n <= |ids|
    requires forall i :: 0 <= i < |ids| ==> ids[i] !in states
    requires forall i, j :: 0 <= i < j < |ids| ==> ids[i] != ids[j]
    ensures |Grown(states, ids[..n])| == |states| + n
  {
    if n == 0 {
      GrownNone(states);
    } else {
      GrownSize(states, ids, n - 1);
      GrownOne(states, ids, n - 1);
      assert ids[n - 1] !in ids[..n - 1];
      InsertSize(Grown(states, ids[..n - 1]), ids[n - 1]);
    }
  }

  // A container found at start-up: its id, whether it was built from the worker image, whether it is running.
  datatype Summary = Summary(id: ContainerId, worker: bool, running: bool)

  // What start-up files for the containers Docker lists: only workers, a stopped one as being in error.
  function Listed(found: seq<Summary>): States {
    if found == [] then map[]
    else
      var last, before := found[|found| - 1], Listed(found[..|found| - 1]);
      if last.worker then before[last.id := if last.running then Idle else Error] else before
  }

  // `states` holds exactly the workers among `found`, each as its last summary has it.
  ghost predicate FiledFrom(found: seq<Summary>, states: States) {
    && (forall id :: id in states <==> exists k :: 0 <= k < |found| && found[k].worker && found[k].id == id)
    && (forall k :: 0 <= k < |found| && IsLast(found, k) ==>
      found[k].id in states && states[found[k].id] == if found[k].running then Idle else Error)
  }

  // No later worker has the same id.
  ghost predicate IsLast(found: seq<Summary>, k: nat)
    requires k < |found|
  {
    found[k].worker && forall j :: k < j < |found| && found[j].worker ==> found[j].id != found[k].id
  }

  lemma {:induction false} ListedKeys(found: seq<Summary>, id: ContainerId)
    ensures id in Listed(found) <==> exists k :: 0 <= k < |found| && found[k].worker && found[k].id == id
  {
    if found == [] {
    } else {
      var n := |found| - 1;
      var rest := found[..n];
      ListedKeys(rest, id);
      if id in Listed(rest) {
        var k :| 0 <= k < |rest| && rest[k].worker && rest[k].id == id;
        assert found[k].worker && found[k].id == id;
      } else if k :| 0 <= k < |found| && found[k].worker && found[k].id == id {
        assert k < n ==> rest[k] == found[k];
      }
    }
  }

  lemma {:induction false} ListedLast(found: seq<Summary>, k: nat)
    requires k < |found| && IsLast(found, k)
    ensures found[k].id in Listed(found)
    ensures Listed(found)[found[k].id] == if found[k].running then Idle else Error
  {
    var n := |found| - 1;
    if k < n {
      var rest := found[..n];
      assert rest[k] == found[k] && IsLast(rest, k);
      ListedLast(rest, k);
    }
  }

  lemma ListedIsFiled(found: seq<Summary>)
    ensures FiledFrom(found, Listed(found))
  {
    forall id ensures id in Listed(found) <==> exists k :: 0 <= k < |found| && found[k].worker && found[k].id == id {
      ListedKeys(found, id);
    }
    forall k | 0 <= k < |found| && IsLast(found, k)
      ensures found[k].id in Listed(found)
      ensures Listed(found)[found[k].id] == if found[k].running then Idle else Error
    {
      ListedLast(found, k);
    }
  }

  lemma {:induction false} LastOf(found: seq<Summary>, id: ContainerId, k: nat) returns (last: nat)
    requires k < |found| && found[k].worker && found[k].id == id
    ensures last < |found| && IsLast(found, last) && found[last].id == id
    decreases |found| - k
  {
    if j :| k < j < |found| && found[j].worker && found[j].id == id {
      last := LastOf(found, id, j);
    } else {
      last := k;
    }
  }

  // There is only one such state.
  lemma FiledOnce(found: seq<Summary>, a: States, b: States)
    requires FiledFrom(found, a) && FiledFrom(found, b)
    ensures a == b
  {
    forall id | id in a || id in b ensures id in a && id in b && a[id] == b[id] {
      var k :| 0 <= k < |found| && found[k].worker && found[k].id == id;
      var last := LastOf(found, id, k);
    }
    assert a.Keys == b.Keys;
  }

  lemma {:induction false} ListedStates(found: seq<Summary>)
    ensures Having(Listed(found), Busy) == {}
    ensures (forall k :: 0 <= k < |found| && found[k].worker ==> found[k].running) ==>
      Having(Listed(found), Error) == {}
  {
    if found == [] {
    } else {
      ListedStates(found[..|found| - 1]);
    }
  }

  // Where balancing may lead, whichever Docker calls fail and in whatever order the map is walked: growing adds the
  // first so many of the ids Docker assigns, idle; shrinking keeps some of the containers, never fewer than the limit.
  ghost predicate BalancesTo(before: States, after: States, maxWorkers: int, newIds: seq<ContainerId>) {
    if |before| <= maxWorkers then
      exists n: nat :: n <= maxWorkers - |before| && n <= |newIds| && after == Grown(before, newIds[..n])
    else
      Keeps(before, after) && |after| >= maxWorkers
  }

  // Some of the containers, with their states.
  ghost predicate Keeps(before: States, after: States) {
    after.Keys <= before.Keys && forall id :: id in after ==> after[id] == before[id]
  }

  function IdsOf(ids: seq<ContainerId>): set<ContainerId> {
    set id | id in ids
  }

  lemma {:induction false} IdsAtMost(ids: seq<ContainerId>)
    ensures |IdsOf(ids)| <= |ids|
  {
    if ids == [] {
    } else {
      IdsAtMost(ids[1..]);
      assert IdsOf(ids) == IdsOf(ids[1..]) + {ids[0]};
    }
  }

  lemma GrownAtMost(states: States, ids: seq<ContainerId>)
    ensures |Grown(states, ids)| <= |states| + |ids|
  {
    IdsAtMost(ids);
    assert Grown(states, ids).Keys == states.Keys + IdsOf(ids);
  }

  function Min(a: nat, b: nat): nat {
    if a <= b then a else b
  }

  // How many containers are started or removed to get from `count` to the limit.
  function DockerCalls(count: nat, maxWorkers: int): nat {
    if count < maxWorkers then maxWorkers - count else if maxWorkers < 0 then count else count - maxWorkers
  }

  class ContainerInfo {
    const id: ContainerId
    var state: ContainerState

    constructor (id: ContainerId, state: ContainerState)
      ensures this.id == id && this.state == state
    {
      this.id, this.state := id, state;
    }
  }

  class ContainerManager {
    var containers: map<ContainerId, ContainerInfo>
    const maxWorkers: int

    ghost function Infos(): set<ContainerInfo>
      reads this
    {
      set id | id in containers :: containers[id]
    }

    // Each record is filed under its own id, so no two ids share a record.
    ghost predicate Valid()
      reads this, Infos()
    {
      NO_CONTAINER !in containers && forall id :: id in containers ==> containers[id].id == id
    }

    ghost function View(): States
      reads this, Infos()
    {
      map id | id in containers :: containers[id].state
    }

    constructor (maxWorkers: int)
      ensures Valid() && View() == map[] && this.maxWorkers == maxWorkers && Infos() == {}
    {
      this.maxWorkers := maxWorkers;
      containers := map[];
    }

    // Files a new record for `id`.
    method Register(id: ContainerId, state: ContainerState)
      requires Valid() && id != NO_CONTAINER
      modifies this
      ensures Valid() && View() == old(View())[id := state]
      ensures fresh(Infos() - old(Infos()))
    {
      var info := new ContainerInfo(id, state);
      ghost var before := View();
      containers := containers[id := info];
      assert View() == before[id := state];
    }

    // SetContainerState: takes no lock; an id that is not filed is an error.
    method SetContainerState(id: ContainerId, state: ContainerState) returns (err: bool)
      requires Valid()
      modifies Infos()
      ensures Valid()
      ensures err <==> id !in old(View())
      ensures View() == WorkerPool.SetState(old(View()), id, state)
      ensures View().Keys == old(View()).Keys && (id in View() ==> View()[id] == state)
      ensures forall x :: x in View() && x != id ==> View()[x] == old(View())[x]
    {
      err := id !in containers;
      if !err {
        containers[id].state := state;
      }
    }

    // One locked pass over the map, in any order, up to the first idle record.
    method ScanForIdle() returns (id: ContainerId)
      requires Valid()
      modifies Infos()
      ensures Valid()
      ensures if Having(old(View()), Idle) == {} then id == NO_CONTAINER && View() == old(View())
              else id in Having(old(View()), Idle) && View() == old(View())[id := Busy]
    {
      var rest := containers.Keys;
      id := NO_CONTAINER;
      while rest != {}
        invariant rest <= containers.Keys && Valid() && View() == old(View())
        invariant forall x :: x in containers && x !in rest ==> x !in Having(old(View()), Idle)
      {
        id :| id in rest;
        rest := rest - {id};
        if containers[id].state == Idle {
          assert id in Having(old(View()), Idle);
          containers[id].state := Busy;
          return;
        }
      }
      id := NO_CONTAINER;
    }

    // What other workers do to the states while this one sleeps between two passes.
    method OthersAct()
      requires Valid()
      modifies Infos()
      ensures Valid() && View().Keys == old(View()).Keys
    {
      var rest := containers.Keys;
      while rest != {}
        invariant rest <= containers.Keys && Valid() && View().Keys == old(View()).Keys
      {
        var id :| id in rest;
        rest := rest - {id};
        containers[id].state := *;
      }
    }

    // Up to ten passes; the empty id, not an error, when all of them miss. `seen` holds the states each pass met.
    method GetAvailableContainer() returns (id: ContainerId, ghost seen: seq<States>)
      requires Valid()
      modifies Infos()
      ensures Valid()
      ensures 0 < |seen| <= MAX_RETRIES && seen[0] == old(View())
      ensures forall i :: 0 <= i < |seen| - 1 ==> Having(seen[i], Idle) == {}
      ensures
        var last := seen[|seen| - 1];
        if id != NO_CONTAINER then id in Having(last, Idle) && View() == last[id := Busy]
        else |seen| == MAX_RETRIES && Having(last, Idle) == {} && View().Keys == last.Keys
    {
      seen := [];
      for attempt := 0 to MAX_RETRIES
        invariant Valid() && |seen| == attempt
        invariant if attempt == 0 then View() == old(View()) else seen[0] == old(View())
        invariant View().Keys == old(View()).Keys
        invariant forall i :: 0 <= i < attempt ==> Having(seen[i], Idle) == {} && seen[i].Keys == old(View()).Keys
      {
        seen := seen + [View()];
        id := ScanForIdle();
        if id != NO_CONTAINER {
          return;
        }
        OthersAct();
      }
      id := NO_CONTAINER;
    }

    // Docker creates and starts a container under the id it picks, or fails and nothing is filed.
    method StartContainer(newId: ContainerId, fails: bool) returns (err: bool)
      requires Valid() && newId !in View() && newId != NO_CONTAINER
      modifies this
      ensures Valid() && fresh(Infos() - old(Infos()))
      ensures err == fails
      ensures View() == if err then old(View()) else old(View())[newId := Idle]
    {
      err := fails;
      if !err {
        Register(newId, Idle);
      }
    }

    method RemoveContainer(id: ContainerId, fails: bool) returns (err: bool)
      requires Valid()
      modifies this
      ensures Valid() && Infos() <= old(Infos())
      ensures err == fails
      ensures View() == if err then old(View()) else old(View()) - {id}
    {
      err := fails;
      if !err {
        containers := containers - {id};
      }
    }

    // Removal `failing` is the first that Docker fails, and ends the removals; with none beyond it, all succeed.
    method RemoveExcessContainer(amount: nat, failing: nat) returns (err: bool)
      requires Valid()
      modifies this
      ensures Valid() && Infos() <= old(Infos())
      ensures View().Keys <= old(View()).Keys && forall id :: id in View() ==> View()[id] == old(View())[id]
      ensures err <==> failing < Min(amount, |old(View())|)
      ensures |View()| == |old(View())| - Min(failing, Min(amount, |old(View())|))
    {
      ghost var before := View();
      var removes: seq<ContainerId> := [];
      var rest := containers.Keys;
      while rest != {}
        invariant rest <= containers.Keys && |removes| <= amount
        invariant forall i :: 0 <= i < |removes| ==> removes[i] in containers && removes[i] !in rest
        invariant forall i, j :: 0 <= i < j < |removes| ==> removes[i] != removes[j]
        invariant |removes| == if amount <= |containers| - |rest| then amount else |containers| - |rest|
      {
        var id :| id in rest;
        rest := rest - {id};
        if |removes| < amount {
          removes := removes + [id];
        }
      }
      assert before.Keys == containers.Keys;
      for i := 0 to |removes|
        invariant Valid() && Infos() <= old(Infos())
        invariant View().Keys <= old(View()).Keys && forall id :: id in View() ==> View()[id] == old(View())[id]
        invariant |View()| == |old(View())| - i
        invariant forall j :: i <= j < |removes| ==> removes[j] in View()
        invariant i <= failing
      {
        ghost var keys := View().Keys;
        err := RemoveContainer(removes[i], i == failing);
        if err {
          return;
        }
        assert View().Keys == keys - {removes[i]};
      }
      err := false;
    }

    // Starts `needed` containers one after the other, up to the first failure.
    method StartContainers(needed: nat, newIds: seq<ContainerId>, failing: nat)
      returns (err: bool, started: nat)
      requires Valid() && needed <= |newIds|
      requires forall i :: 0 <= i < |newIds| ==> newIds[i] !in View() && newIds[i] != NO_CONTAINER
      requires forall i, j :: 0 <= i < j < |newIds| ==> newIds[i] != newIds[j]
      modifies this
      ensures Valid() && fresh(Infos() - old(Infos()))
      ensures started == Min(failing, needed) && (err <==> failing < needed)
      ensures View() == Grown(old(View()), newIds[..started])
    {
      ghost var before := View();
      GrownNone(before);
      started, err := 0, false;
      while started < needed
        invariant Valid() && fresh(Infos() - old(Infos())) && !err
        invariant started <= needed && View() == Grown(before, newIds[..started])
        invariant started <= failing
      {
        assert newIds[started] !in newIds[..started];
        err := StartContainer(newIds[started], started == failing);
        if err {
          return;
        }
        GrownOne(before, newIds, started);
        started := started + 1;
      }
    }

    // Brings the pool to exactly maxWorkers containers. `newIds` are the ids Docker will assign, `failing` its first
    // call to fail.
    method BalanceWorker(newIds: seq<ContainerId>, failing: nat) returns (err: bool)
      requires Valid()
      requires maxWorkers <= |View()| + |newIds|
      requires forall i :: 0 <= i < |newIds| ==> newIds[i] !in View() && newIds[i] != NO_CONTAINER
      requires forall i, j :: 0 <= i < j < |newIds| ==> newIds[i] != newIds[j]
      modifies this
      ensures Valid() && fresh(Infos() - old(Infos()))
      ensures !err ==> |View()| == if maxWorkers < 0 then 0 else maxWorkers
      ensures BalancesTo(old(View()), View(), maxWorkers, newIds)
      ensures err <==> failing < DockerCalls(|old(View())|, maxWorkers)
    {
      var currentCount := |containers|;
      ghost var before := View();
      assert before.Keys == containers.Keys;
      err := false;
      if currentCount < maxWorkers {
        var started;
        err, started := StartContainers(maxWorkers - currentCount, newIds, failing);
        GrownSize(before, newIds, started);
        assert View() == Grown(before, newIds[..started]);
      } else if currentCount > maxWorkers {
        err := RemoveExcessContainer(currentCount - maxWorkers, failing);
      } else {
        GrownNone(before);
        assert View() == Grown(before, newIds[..0]);
      }
    }

    // Files the worker containers Docker lists, then balances. The error from balancing is ignored; `balanced`
    // tells whether there was none.
    method InitializePool(listed: Option<seq<Summary>>, newIds: seq<ContainerId>, failing: nat)
      returns (err: bool, balanced: bool, ghost filed: States)
      requires Valid() && View() == map[]
      requires listed.Some? ==> forall i :: 0 <= i < |listed.value| ==> listed.value[i].id != NO_CONTAINER
      requires maxWorkers <= |newIds|
      requires forall i :: 0 <= i < |newIds| ==> newIds[i] != NO_CONTAINER
      requires listed.Some? ==>
        forall i, k :: 0 <= i < |newIds| && 0 <= k < |listed.value| ==> listed.value[k].id != newIds[i]
      requires forall i, j :: 0 <= i < j < |newIds| ==> newIds[i] != newIds[j]
      modifies this
      ensures Valid()
      ensures err <==> listed.None?
      ensures err ==> View() == map[]
      ensures !err ==> FiledFrom(listed.value, filed) && BalancesTo(filed, View(), maxWorkers, newIds)
      ensures !err ==> (balanced <==> failing >= DockerCalls(|filed|, maxWorkers))
      ensures !err && balanced ==> |View()| == if maxWorkers < 0 then 0 else maxWorkers
      ensures Having(View(), Busy) == {}
    {
      balanced := false;
      if listed == None {
        return true, false, map[];
      }
      var found := listed.value;
      for i := 0 to |found|
        invariant Valid() && fresh(Infos() - old(Infos()))
        invariant View() == Listed(found[..i])
      {
        assert found[..i + 1][..i] == found[..i];
        if found[i].worker {
          Register(found[i].id, if found[i].running then Idle else Error);
        }
      }
      assert found[..|found|] == found;
      ListedStates(found);
      ListedIsFiled(found);
      filed := View();
      assert filed.Keys == containers.Keys;
      var failed := BalanceWorker(newIds, failing);
      err, balanced := false, !failed;
    }
  }

  // ---------------------------------------------------------------- does start-up provide enough containers?

  lemma UsableAndError(states: States)
    ensures |Usable(states)| + |Having(states, Error)| == |states|
  {
    assert Usable(states) + Having(states, Error) == states.Keys;
  }

  // When nothing is removed, the containers in error are exactly the stopped ones listed.
  lemma GrownErrors(before: States, after: States, maxWorkers: nat, newIds: seq<ContainerId>)
    requires BalancesTo(before, after, maxWorkers, newIds) && |before| <= maxWorkers
    ensures Having(after, Error) == Having(before, Error)
    ensures |Usable(after)| == |after| - |Having(before, Error)| && |after| <= maxWorkers
  {
    var n: nat :| n <= maxWorkers - |before| && n <= |newIds| && after == Grown(before, newIds[..n]);
    GrownAtMost(before, newIds[..n]);
    assert Having(after, Error) == Having(before, Error);
    UsableAndError(after);
  }

  // Balancing without failure over running containers gives each worker a container, so no job is ever lost.
  lemma BalancedPoolNeverLoses(p: WorkerPool.Pool, maxWorkers: nat)
    requires WorkerPool.Started(p) && |p.workers| == maxWorkers
    requires |p.containers| == maxWorkers && Having(p.containers, Error) == {}
    ensures WorkerPool.NeverLosesJobs(p)
  {
    UsableAndError(p.containers);
    WorkerPool.NoJobLostIffEnoughContainers(p);
  }

  // No worker is filed as being in error exactly when the last summary of each shows it running.
  lemma NoneStoppedIff(found: seq<Summary>)
    ensures Having(Listed(found), Error) == {} <==>
      forall k :: 0 <= k < |found| && IsLast(found, k) ==> found[k].running
  {
    ListedIsFiled(found);
    if forall k :: 0 <= k < |found| && IsLast(found, k) ==> found[k].running {
      forall id | id in Listed(found) ensures Listed(found)[id] != Error {
        var k :| 0 <= k < |found| && found[k].worker && found[k].id == id;
        var last := LastOf(found, id, k);
      }
    } else {
      var k :| 0 <= k < |found| && IsLast(found, k) && !found[k].running;
      assert found[k].id in Having(Listed(found), Error);
    }
  }

  // With no more workers listed than the limit, a pool started from what start-up leaves never loses a job if and
  // only if balancing reached the limit and none of the listed workers was stopped.
  lemma StartupNeverLosesIff(p: WorkerPool.Pool, found: seq<Summary>, maxWorkers: nat, newIds: seq<ContainerId>)
    requires WorkerPool.Started(p) && |p.workers| == maxWorkers
    requires BalancesTo(Listed(found), p.containers, maxWorkers, newIds) && |Listed(found)| <= maxWorkers
    ensures |Usable(p.containers)| == |p.containers| - |Having(Listed(found), Error)|
    ensures WorkerPool.NeverLosesJobs(p) <==> |p.containers| == maxWorkers && Having(Listed(found), Error) == {}
  {
    GrownErrors(Listed(found), p.containers, maxWorkers, newIds);
    WorkerPool.NoJobLostIffEnoughContainers(p);
  }

  // One stopped container, found at start-up, is all a one-worker pool gets: its first job is lost.
  lemma StoppedContainerTakesTheSlot(p: WorkerPool.Pool, id: ContainerId)
    requires WorkerPool.Started(p) && |p.workers| == 1 && p.containers == Listed([Summary(id, true, false)])
    ensures BalancesTo(Listed([Summary(id, true, false)]), p.containers, 1, []) && |p.containers| == 1
    ensures !WorkerPool.NeverLosesJobs(p)
  {
    var found := [Summary(id, true, false)];
    assert found[..0] == [];
    assert p.containers == map[id := Error];
    var none: seq<ContainerId> := [];
    GrownNone(p.containers);
    assert p.containers == Grown(p.containers, none[..0]);
    assert id in Having(p.containers, Error);
    StartupNeverLosesIff(p, found, 1, []);
  }

  // Any number of containers can be kept, among them a chosen one.
  lemma {:induction false} KeepWith(states: States, n: nat, id: ContainerId) returns (kept: States)
    requires 0 < n <= |states| && id in states
    ensures |kept| == n && id in kept && kept.Keys <= states.Keys
    ensures forall x :: x in kept ==> kept[x] == states[x]
    decreases |states|
  {
    if |states| == n {
      kept := states;
    } else {
      assert |states.Keys - {id}| == |states| - 1;
      var x :| x in states.Keys - {id};
      assert (states - {x}).Keys == states.Keys - {x};
      kept := KeepWith(states - {x}, n, id);
    }
  }

  // A stopped container may be among those balancing keeps, at the cost of running ones where it removes any.
  lemma StoppedMayStay(found: seq<Summary>, maxWorkers: nat, newIds: seq<ContainerId>, id: ContainerId)
    returns (after: States)
    requires 0 < maxWorkers <= |newIds| && id in Having(Listed(found), Error)
    requires forall i :: 0 <= i < |newIds| ==> newIds[i] !in Listed(found)
    requires forall i, j :: 0 <= i < j < |newIds| ==> newIds[i] != newIds[j]
    ensures BalancesTo(Listed(found), after, maxWorkers, newIds) && |after| == maxWorkers && id in Having(after, Error)
  {
    var before := Listed(found);
    if |before| <= maxWorkers {
      var n := maxWorkers - |before|;
      after := Grown(before, newIds[..n]);
      GrownSize(before, newIds, n);
    } else {
      after := KeepWith(before, maxWorkers, id);
    }
  }

  // Start-up without Docker failures is sure to leave a usable container for every worker, whatever it removes,
  // if and only if no listed worker was stopped.
  lemma StartupSureIff(found: seq<Summary>, maxWorkers: nat, newIds: seq<ContainerId>)
    requires 0 < maxWorkers <= |newIds|
    requires forall i :: 0 <= i < |newIds| ==> newIds[i] !in Listed(found)
    requires forall i, j :: 0 <= i < j < |newIds| ==> newIds[i] != newIds[j]
    ensures (forall after :: BalancesTo(Listed(found), after, maxWorkers, newIds) && |after| == maxWorkers ==>
        |Usable(after)| >= maxWorkers)
      <==> Having(Listed(found), Error) == {}
  {
    if id :| id in Having(Listed(found), Error) {
      var after := StoppedMayStay(found, maxWorkers, newIds, id);
      UsableAndError(after);
    } else {
      forall after | BalancesTo(Listed(found), after, maxWorkers, newIds) && |after| == maxWorkers
        ensures |Usable(after)| >= maxWorkers
      {
        forall id | id in after ensures id in Usable(after) {
          assert id in Listed(found) ==> id !in Having(Listed(found), Error);
        }
        assert Usable(after) == after.Keys;
      }
    }
  }
}
