// States of judge containers, shared by the worker pool and the container manager.
module Containers {
  // Docker's container id; the empty string stands for "no container".
  type ContainerId = string

  datatype ContainerState = Idle | Busy | Error

  type States = map<ContainerId, ContainerState>

  const NO_CONTAINER: ContainerId := ""
  const MAX_RETRIES := 10

  function Having(states: States, s: ContainerState): set<ContainerId> {
    set id | id in states && states[id] == s
  }

  function Usable(states: States): set<ContainerId> {
    set id | id in states && states[id] != Error
  }

  lemma UsableIsIdleOrBusy(states: States)
    ensures Usable(states) == Having(states, Idle) + Having(states, Busy)
    ensures |Usable(states)| == |Having(states, Idle)| + |Having(states, Busy)|
  {
    assert Usable(states) == Having(states, Idle) + Having(states, Busy);
  }
}
