/**
Event-stream connections: the listener map of a room (`JoinRoomHandler`) and the listener maps of events
(`SpectateEventHandler`), as step systems. Each locked section, channel send and channel close is one step.
*/
module Connections {
  import opened Options
  import opened Ranking
  import opened RoomHub
  import opened Membership

  type ConnId = nat

  // Registered: listening, joined message not sent yet. Connected: joined message sent.
  // Removed: the deferred function has taken the player out of the listener map.
  datatype Phase = Registered | Connected | Removed

  // `closed`: the connection's channel has been closed; `leftSent`: its left message is in the mailbox.
  datatype Conn = Conn(player: PlayerId, phase: Phase, closed: bool, leftSent: bool)

  datatype Lobby = Lobby(
    room: RoomId,
    conns: seq<Conn>,                     // every connection ever opened; its index is its channel
    listeners: map<PlayerId, ConnId>,
    sent: seq<Msg>)

  datatype ConnStep =
    | Open(player: PlayerId)
    | SendJoined(k: ConnId)
    | Remove(k: ConnId)
    | Close(k: ConnId)
    | SendLeft(k: ConnId)

  predicate CanStep(l: Lobby, st: ConnStep) {
    match st
    case Open(_) => true
    case SendJoined(k) => k < |l.conns| && l.conns[k].phase.Registered?
    case Remove(k) => k < |l.conns| && l.conns[k].phase.Connected?
    case Close(k) => k < |l.conns| && l.conns[k].phase.Removed? && !l.conns[k].closed
    case SendLeft(k) => k < |l.conns| && l.conns[k].phase.Removed? && !l.conns[k].leftSent
  }

  function Sends(l: Lobby, st: ConnStep): Option<Msg>
    requires CanStep(l, st)
  {
    match st
    case SendJoined(k) => Some(PlayerJoined(l.conns[k].player, l.room))
    case SendLeft(k) => Some(PlayerLeft(l.conns[k].player, l.room))
    case _ => None
  }

  function Step1(l: Lobby, st: ConnStep): Lobby
    requires CanStep(l, st)
  {
    match st
    case Open(p) => l.(conns := l.conns + [Conn(p, Registered, false, false)], listeners := l.listeners[p := |l.conns|])
    case SendJoined(k) =>
      l.(conns := l.conns[k := l.conns[k].(phase := Connected)], sent := l.sent + [Sends(l, st).value])
    case Remove(k) =>
      l.(conns := l.conns[k := l.conns[k].(phase := Removed)], listeners := l.listeners - {l.conns[k].player})
    case Close(k) => l.(conns := l.conns[k := l.conns[k].(closed := true)])
    case SendLeft(k) =>
      l.(conns := l.conns[k := l.conns[k].(leftSent := true)], sent := l.sent + [Sends(l, st).value])
  }

  predicate IsConnRun(l: Lobby, steps: seq<ConnStep>)
    decreases |steps|
  {
    steps == [] || (CanStep(l, steps[0]) && IsConnRun(Step1(l, steps[0]), steps[1..]))
  }

  function ConnExec(l: Lobby, steps: seq<ConnStep>): Lobby
    requires IsConnRun(l, steps)
    decreases |steps|
  {
    if steps == [] then l else ConnExec(Step1(l, steps[0]), steps[1..])
  }

  function NewLobby(room: RoomId): Lobby {
    Lobby(room, [], map[], [])
  }

  // ---------------------------------------------------------------- the listener map holds no closed channel

  // Every listener is a connection of its own player that has not been removed, hence not closed.
  ghost predicate ListenersLive(l: Lobby) {
    && (forall p :: p in l.listeners ==>
      l.listeners[p] < |l.conns| && l.conns[l.listeners[p]].player == p && !l.conns[l.listeners[p]].phase.Removed?)
    && (forall k :: 0 <= k < |l.conns| ==>
      (l.conns[k].closed || l.conns[k].leftSent ==> l.conns[k].phase.Removed?))
  }

  lemma ListenersLiveStep(l: Lobby, st: ConnStep)
    requires ListenersLive(l) && CanStep(l, st)
    ensures ListenersLive(Step1(l, st))
  {
  }

  lemma {:induction false} ListenersLiveRun(l: Lobby, steps: seq<ConnStep>)
    requires ListenersLive(l) && IsConnRun(l, steps)
    ensures ListenersLive(ConnExec(l, steps))
    decreases |steps|
  {
    if steps == [] {
    } else {
      ListenersLiveStep(l, steps[0]);
      ListenersLiveRun(Step1(l, steps[0]), steps[1..]);
    }
  }

  // In every run, even with repeated connections by one player.
  lemma NoClosedListener(room: RoomId, steps: seq<ConnStep>, p: PlayerId)
    requires IsConnRun(NewLobby(room), steps) && p in ConnExec(NewLobby(room), steps).listeners
    ensures
      var l := ConnExec(NewLobby(room), steps);
      var k := l.listeners[p];
      k < |l.conns| && l.conns[k].player == p && !l.conns[k].closed
  {
    ListenersLiveRun(NewLobby(room), steps);
  }

  // ---------------------------------------------------------------- each step once

  // The connection is already past this step.
  predicate Done(l: Lobby, st: ConnStep) {
    !st.Open? && st.k < |l.conns| &&
    match st
    case SendJoined(k) => !l.conns[k].phase.Registered?
    case Remove(k) => l.conns[k].phase.Removed?
    case Close(k) => l.conns[k].closed
    case SendLeft(k) => l.conns[k].leftSent
  }

  lemma DoneStep(l: Lobby, st: ConnStep, past: ConnStep)
    requires CanStep(l, st)
    ensures Done(Step1(l, st), past) <==> Done(l, past) || (past == st && !st.Open?)
    ensures !Done(l, st)
  {
  }

  lemma {:induction false} DoneStays(l: Lobby, steps: seq<ConnStep>, past: ConnStep)
    requires IsConnRun(l, steps) && Done(l, past)
    ensures past !in steps
    decreases |steps|
  {
    if steps == [] {
    } else {
      DoneStep(l, steps[0], past);
      DoneStays(Step1(l, steps[0]), steps[1..], past);
    }
  }

  // In every run a connection sends one joined and one left message, is removed once, and its channel is closed
  // once: a second close would panic.
  lemma {:induction false} EachStepOnce(l: Lobby, steps: seq<ConnStep>, i: nat, j: nat)
    requires IsConnRun(l, steps) && i < j < |steps| && !steps[i].Open?
    ensures steps[i] != steps[j]
    decreases |steps|
  {
    if i == 0 {
      DoneStep(l, steps[0], steps[0]);
      DoneStays(Step1(l, steps[0]), steps[1..], steps[0]);
      assert steps[j] == steps[1..][j - 1];
    } else {
      EachStepOnce(Step1(l, steps[0]), steps[1..], i - 1, j - 1);
    }
  }

  lemma {:induction false} DoneIff(l: Lobby, steps: seq<ConnStep>, past: ConnStep)
    requires IsConnRun(l, steps) && !past.Open?
    ensures Done(ConnExec(l, steps), past) <==> Done(l, past) || past in steps
    decreases |steps|
  {
    if steps == [] {
    } else {
      DoneStep(l, steps[0], past);
      DoneIff(Step1(l, steps[0]), steps[1..], past);
      assert steps == [steps[0]] + steps[1..];
    }
  }

  // A connection closes its channel and leaves only after it has been taken out of the map, and is taken out only
  // after it has joined.
  lemma StepsInOrder(room: RoomId, steps: seq<ConnStep>, k: ConnId)
    requires IsConnRun(NewLobby(room), steps)
    ensures Close(k) in steps || SendLeft(k) in steps ==> Remove(k) in steps
    ensures Remove(k) in steps ==> SendJoined(k) in steps
  {
    var l := NewLobby(room);
    DoneIff(l, steps, SendJoined(k));
    DoneIff(l, steps, Remove(k));
    DoneIff(l, steps, Close(k));
    DoneIff(l, steps, SendLeft(k));
    ListenersLiveRun(l, steps);
  }

  // ---------------------------------------------------------------- when the map is exact

  ghost predicate Listening(l: Lobby, k: ConnId)
    requires k < |l.conns|
  {
    l.conns[k].player in l.listeners && l.listeners[l.conns[k].player] == k
  }

  // The map holds exactly the connections not yet removed.
  ghost predicate MapExact(l: Lobby) {
    forall k :: 0 <= k < |l.conns| ==> (Listening(l, k) <==> !l.conns[k].phase.Removed?)
  }

  // A connection opens while an earlier one of its player is still in the map.
  predicate Displaces(l: Lobby, st: ConnStep) {
    st.Open? && st.player in l.listeners
  }

  lemma MapExactStep(l: Lobby, st: ConnStep)
    requires ListenersLive(l) && MapExact(l) && CanStep(l, st)
    ensures MapExact(Step1(l, st)) <==> !Displaces(l, st)
  {
    var l' := Step1(l, st);
    if Displaces(l, st) {
      assert !Listening(l', l.listeners[st.player]);
    } else {
      forall k | 0 <= k < |l'.conns| ensures Listening(l', k) <==> !l'.conns[k].phase.Removed? {
        if k < |l.conns| {
          assert Listening(l, k) <==> !l.conns[k].phase.Removed?;
          assert st.Remove? ==> Listening(l, st.k);
        }
      }
    }
  }

  ghost predicate ExactThroughout(l: Lobby, steps: seq<ConnStep>)
    requires IsConnRun(l, steps)
    decreases |steps|
  {
    MapExact(l) && (steps == [] || ExactThroughout(Step1(l, steps[0]), steps[1..]))
  }

  predicate NeverDisplaces(l: Lobby, steps: seq<ConnStep>)
    requires IsConnRun(l, steps)
    decreases |steps|
  {
    steps == [] || (!Displaces(l, steps[0]) && NeverDisplaces(Step1(l, steps[0]), steps[1..]))
  }

  lemma {:induction false} ExactIffNeverDisplaces(l: Lobby, steps: seq<ConnStep>)
    requires ListenersLive(l) && MapExact(l) && IsConnRun(l, steps)
    ensures ExactThroughout(l, steps) <==> NeverDisplaces(l, steps)
    decreases |steps|
  {
    if steps == [] {
    } else {
      ListenersLiveStep(l, steps[0]);
      MapExactStep(l, steps[0]);
      if !Displaces(l, steps[0]) {
        ExactIffNeverDisplaces(Step1(l, steps[0]), steps[1..]);
      } else {
        assert !MapExact(Step1(l, steps[0]));
      }
    }
  }

  // All along a run the map holds exactly the connections not yet removed, if and only if no connection is opened
  // while its player is still in the map.
  lemma ListenersAreTheLiveOnes(room: RoomId, steps: seq<ConnStep>)
    requires IsConnRun(NewLobby(room), steps)
    ensures ExactThroughout(NewLobby(room), steps) <==> NeverDisplaces(NewLobby(room), steps)
  {
    ExactIffNeverDisplaces(NewLobby(room), steps);
  }

  // ---------------------------------------------------------------- when the last message follows the connection

  lemma LastWordAppend(sent: seq<Msg>, m: Msg, p: PlayerId)
    requires IsMembership(m)
    ensures LastWord(sent + [m], p) == if m.player == p then Some(m.PlayerJoined?) else LastWord(sent, p)
  {
    assert (sent + [m])[..|sent|] == sent;
  }

  lemma WordsStep(l: Lobby, st: ConnStep, p: PlayerId)
    requires CanStep(l, st)
    ensures LastWord(Step1(l, st).sent, p)
      == if Sends(l, st).Some? && Sends(l, st).value.player == p then Some(st.SendJoined?) else LastWord(l.sent, p)
  {
    if Sends(l, st).Some? {
      LastWordAppend(l.sent, Sends(l, st).value, p);
    }
  }

  ghost predicate ConnectedNow(l: Lobby, p: PlayerId) {
    exists k :: 0 <= k < |l.conns| && l.conns[k].player == p && l.conns[k].phase.Connected?
  }

  ghost predicate NeverConnected(l: Lobby, p: PlayerId) {
    forall k :: 0 <= k < |l.conns| && l.conns[k].player == p ==> l.conns[k].phase.Registered?
  }

  // Some connection of the player has joined and not yet sent its left message.
  ghost predicate LeftOwed(l: Lobby, p: PlayerId) {
    exists k :: 0 <= k < |l.conns| && l.conns[k].player == p && !l.conns[k].phase.Registered? && !l.conns[k].leftSent
  }

  // In every run: no word before the first joined message, and a last word of joined has a left message to come.
  ghost predicate WordsBacked(l: Lobby) {
    && (forall p :: LastWord(l.sent, p) == None <==> NeverConnected(l, p))
    && (forall p :: LastWord(l.sent, p) == Some(true) ==> LeftOwed(l, p))
  }

  lemma NeverConnectedStep(l: Lobby, st: ConnStep, p: PlayerId)
    requires ListenersLive(l) && CanStep(l, st)
    ensures NeverConnected(Step1(l, st), p)
      <==> NeverConnected(l, p) && !(Sends(l, st).Some? && Sends(l, st).value.player == p)
  {
    var l' := Step1(l, st);
    if !NeverConnected(l, p) {
      var k :| 0 <= k < |l.conns| && l.conns[k].player == p && !l.conns[k].phase.Registered?;
      assert l'.conns[k].player == p && !l'.conns[k].phase.Registered?;
    }
    if Sends(l, st).Some? {
      assert l'.conns[st.k].player == Sends(l, st).value.player && !l'.conns[st.k].phase.Registered?;
    }
  }

  lemma LeftOwedStep(l: Lobby, st: ConnStep, p: PlayerId)
    requires ListenersLive(l) && CanStep(l, st)
    ensures
      var sender := if Sends(l, st).Some? then Some(Sends(l, st).value.player) else None;
      LeftOwed(Step1(l, st), p)
      <== (st.SendJoined? && sender == Some(p)) || (LeftOwed(l, p) && !(st.SendLeft? && sender == Some(p)))
  {
    var l' := Step1(l, st);
    if st.SendJoined? && l.conns[st.k].player == p {
      assert l'.conns[st.k].player == p && !l'.conns[st.k].leftSent;
    } else if LeftOwed(l, p) {
      var k :| 0 <= k < |l.conns| && l.conns[k].player == p && !l.conns[k].phase.Registered? && !l.conns[k].leftSent;
      assert l'.conns[k].player == p && !l'.conns[k].phase.Registered?;
    }
  }

  lemma WordsBackedStep(l: Lobby, st: ConnStep)
    requires ListenersLive(l) && WordsBacked(l) && CanStep(l, st)
    ensures WordsBacked(Step1(l, st))
  {
    forall p
      ensures LastWord(Step1(l, st).sent, p) == None <==> NeverConnected(Step1(l, st), p)
      ensures LastWord(Step1(l, st).sent, p) == Some(true) ==> LeftOwed(Step1(l, st), p)
    {
      WordsStep(l, st, p);
      NeverConnectedStep(l, st, p);
      LeftOwedStep(l, st, p);
    }
  }

  lemma {:induction false} WordsBackedRun(l: Lobby, steps: seq<ConnStep>)
    requires ListenersLive(l) && WordsBacked(l) && IsConnRun(l, steps)
    ensures WordsBacked(ConnExec(l, steps))
    decreases |steps|
  {
    if steps == [] {
    } else {
      ListenersLiveStep(l, steps[0]);
      WordsBackedStep(l, steps[0]);
      WordsBackedRun(Step1(l, steps[0]), steps[1..]);
    }
  }

  // Every connected player's last message is joined.
  ghost predicate WordsFollow(l: Lobby) {
    forall p :: ConnectedNow(l, p) ==> LastWord(l.sent, p) == Some(true)
  }

  // A left message is sent while another connection of its player is connected.
  ghost predicate LateLeft(l: Lobby, st: ConnStep) {
    st.SendLeft? && st.k < |l.conns| && ConnectedNow(l, l.conns[st.k].player)
  }

  lemma ConnectedStep(l: Lobby, st: ConnStep, p: PlayerId)
    requires CanStep(l, st)
    ensures st.SendJoined? && l.conns[st.k].player == p ==> ConnectedNow(Step1(l, st), p)
    ensures !(st.SendJoined? && l.conns[st.k].player == p) && ConnectedNow(Step1(l, st), p) ==> ConnectedNow(l, p)
    ensures !st.Remove? && ConnectedNow(l, p) ==> ConnectedNow(Step1(l, st), p)
  {
    var l' := Step1(l, st);
    if st.SendJoined? && l.conns[st.k].player == p {
      assert l'.conns[st.k].player == p && l'.conns[st.k].phase.Connected?;
    } else if ConnectedNow(l', p) {
      var k :| 0 <= k < |l'.conns| && l'.conns[k].player == p && l'.conns[k].phase.Connected?;
      assert k < |l.conns| && l.conns[k] == l'.conns[k];
    }
    if !st.Remove? && ConnectedNow(l, p) {
      var k :| 0 <= k < |l.conns| && l.conns[k].player == p && l.conns[k].phase.Connected?;
      assert l'.conns[k] == l.conns[k];
    }
  }

  lemma WordsFollowStep(l: Lobby, st: ConnStep)
    requires WordsFollow(l) && CanStep(l, st)
    ensures WordsFollow(Step1(l, st)) <==> !LateLeft(l, st)
  {
    var l' := Step1(l, st);
    if LateLeft(l, st) {
      var p := l.conns[st.k].player;
      ConnectedStep(l, st, p);
      WordsStep(l, st, p);
    } else {
      forall p | ConnectedNow(l', p) ensures LastWord(l'.sent, p) == Some(true) {
        ConnectedStep(l, st, p);
        WordsStep(l, st, p);
      }
    }
  }

  ghost predicate FollowThroughout(l: Lobby, steps: seq<ConnStep>)
    requires IsConnRun(l, steps)
    decreases |steps|
  {
    WordsFollow(l) && (steps == [] || FollowThroughout(Step1(l, steps[0]), steps[1..]))
  }

  ghost predicate NoLateLeft(l: Lobby, steps: seq<ConnStep>)
    requires IsConnRun(l, steps)
    decreases |steps|
  {
    steps == [] || (!LateLeft(l, steps[0]) && NoLateLeft(Step1(l, steps[0]), steps[1..]))
  }

  // All along a run every connected player's last message is joined, if and only if no left message is sent while
  // another connection of its player is connected.
  lemma {:induction false} WordsFollowIffNoLateLeft(l: Lobby, steps: seq<ConnStep>)
    requires WordsFollow(l) && IsConnRun(l, steps)
    ensures FollowThroughout(l, steps) <==> NoLateLeft(l, steps)
    ensures NoLateLeft(l, steps) ==> WordsFollow(ConnExec(l, steps))
    decreases |steps|
  {
    if steps == [] {
    } else {
      WordsFollowStep(l, steps[0]);
      if !LateLeft(l, steps[0]) {
        WordsFollowIffNoLateLeft(Step1(l, steps[0]), steps[1..]);
      } else {
        assert !WordsFollow(Step1(l, steps[0]));
      }
    }
  }

  // ---------------------------------------------------------------- players who leave and come back

  // Every connection of the player has sent its left message.
  ghost predicate AllLeft(l: Lobby, p: PlayerId) {
    forall k :: 0 <= k < |l.conns| && l.conns[k].player == p ==> l.conns[k].leftSent
  }

  // Players connect again only after the left message of their last connection.
  ghost predicate ReturnsAfterLeft(l: Lobby, steps: seq<ConnStep>)
    requires IsConnRun(l, steps)
    decreases |steps|
  {
    steps == []
    || ((steps[0].Open? ==> AllLeft(l, steps[0].player)) && ReturnsAfterLeft(Step1(l, steps[0]), steps[1..]))
  }

  // Of two connections of one player the earlier has sent its left message.
  ghost predicate OneAtATime(l: Lobby) {
    forall j, k :: 0 <= j < k < |l.conns| && l.conns[j].player == l.conns[k].player ==> l.conns[j].leftSent
  }

  lemma OneAtATimeStep(l: Lobby, st: ConnStep)
    requires ListenersLive(l) && OneAtATime(l) && CanStep(l, st) && (st.Open? ==> AllLeft(l, st.player))
    ensures OneAtATime(Step1(l, st)) && !Displaces(l, st) && !LateLeft(l, st)
  {
    var l' := Step1(l, st);
    forall j, k | 0 <= j < k < |l'.conns| && l'.conns[j].player == l'.conns[k].player ensures l'.conns[j].leftSent {
      assert l.conns[j].player == l'.conns[j].player;
      assert l.conns[j].leftSent;
    }
    if st.SendLeft? {
      forall k | 0 <= k < |l.conns| && l.conns[k].player == l.conns[st.k].player ensures !l.conns[k].phase.Connected? {
        assert k < st.k ==> l.conns[k].leftSent;
      }
    }
  }

  // Then neither accident happens, however often players come and go.
  lemma {:induction false} CleanReturnsKeepBoth(l: Lobby, steps: seq<ConnStep>)
    requires ListenersLive(l) && OneAtATime(l) && IsConnRun(l, steps) && ReturnsAfterLeft(l, steps)
    ensures NeverDisplaces(l, steps) && NoLateLeft(l, steps)
    decreases |steps|
  {
    if steps == [] {
    } else {
      ListenersLiveStep(l, steps[0]);
      OneAtATimeStep(l, steps[0]);
      CleanReturnsKeepBoth(Step1(l, steps[0]), steps[1..]);
    }
  }

  // ---------------------------------------------------------------- what goes wrong otherwise

  // Two connections of one player, both joined.
  lemma TwoOfOne(room: RoomId, p: PlayerId) returns (steps: seq<ConnStep>, l: Lobby)
    ensures IsConnRun(NewLobby(room), steps) && ConnExec(NewLobby(room), steps) == l
    ensures l.conns == [Conn(p, Connected, false, false), Conn(p, Connected, false, false)]
    ensures l.listeners == map[p := 1] && l.room == room
  {
    var l1 := Step1(NewLobby(room), Open(p));
    var l2 := Step1(l1, SendJoined(0));
    var l3 := Step1(l2, Open(p));
    l := Step1(l3, SendJoined(1));
    ConnChain(l3, SendJoined(1), []);
    ConnChain(l2, Open(p), [SendJoined(1)]);
    ConnChain(l1, SendJoined(0), [Open(p), SendJoined(1)]);
    ConnChain(NewLobby(room), Open(p), [SendJoined(0), Open(p), SendJoined(1)]);
    steps := [Open(p)] + [SendJoined(0), Open(p), SendJoined(1)];
  }

  lemma {:induction false} ConnRunThenRun(l: Lobby, a: seq<ConnStep>, b: seq<ConnStep>)
    requires IsConnRun(l, a) && IsConnRun(ConnExec(l, a), b)
    ensures IsConnRun(l, a + b) && ConnExec(l, a + b) == ConnExec(ConnExec(l, a), b)
    decreases |a|
  {
    if a == [] {
      assert a + b == b;
    } else {
      ConnRunThenRun(Step1(l, a[0]), a[1..], b);
      ConnChain(l, a[0], a[1..] + b);
      assert [a[0]] + (a[1..] + b) == a + b;
    }
  }

  // A player who reconnects before the old connection is cleaned up loses the new listener, and the old
  // connection's late left message has the last word.
  lemma ReconnectLosesListener(room: RoomId, p: PlayerId) returns (steps: seq<ConnStep>)
    ensures IsConnRun(NewLobby(room), steps)
    ensures
      var l := ConnExec(NewLobby(room), steps);
      && |l.conns| == 2 && l.conns[1] == Conn(p, Connected, false, false)
      && p !in l.listeners && LastWord(l.sent, p) == Some(false)
  {
    var joined, l4 := TwoOfOne(room, p);
    var l5 := Step1(l4, Remove(0));
    var l6 := Step1(l5, Close(0));
    ConnChain(l6, SendLeft(0), []);
    ConnChain(l5, Close(0), [SendLeft(0)]);
    ConnChain(l4, Remove(0), [Close(0), SendLeft(0)]);
    var left := [Remove(0)] + [Close(0), SendLeft(0)];
    ConnRunThenRun(NewLobby(room), joined, left);
    steps := joined + left;
    LastWordAppend(l6.sent, PlayerLeft(p, room), p);
  }

  lemma ConnChain(l: Lobby, st: ConnStep, rest: seq<ConnStep>)
    requires CanStep(l, st) && IsConnRun(Step1(l, st), rest)
    ensures IsConnRun(l, [st] + rest) && ConnExec(l, [st] + rest) == ConnExec(Step1(l, st), rest)
  {
    assert ([st] + rest)[1..] == rest;
  }

  // ---------------------------------------------------------------- spectators

  type EventId = nat
  type ClientId = nat

  const SEEDED_EVENT: EventId := 0

  // Listener maps by event, and the spectators between registration and cleanup.
  datatype Stands = Stands(listeners: map<EventId, set<ClientId>>, live: set<(EventId, ClientId)>)

  datatype SpectatorStep = Register(event: EventId, client: ClientId) | Cleanup(event: EventId, client: ClientId)

  function NewStands(): Stands {
    Stands(map[SEEDED_EVENT := {}], {})
  }

  // A spectator's client id is a new random one.
  predicate CanSpectate(s: Stands, st: SpectatorStep) {
    match st
    case Register(e, c) => forall x :: x in s.live ==> x.1 != c
    case Cleanup(e, c) => (e, c) in s.live
  }

  function Spectate(s: Stands, st: SpectatorStep): Stands {
    match st
    case Register(e, c) =>
      var inner := if e in s.listeners then s.listeners[e] else {};
      Stands(s.listeners[e := inner + {c}], s.live + {(e, c)})
    case Cleanup(e, c) =>
      if e !in s.listeners then s.(live := s.live - {(e, c)})
      else if s.listeners[e] - {c} == {} then Stands(s.listeners - {e}, s.live - {(e, c)})
      else Stands(s.listeners[e := s.listeners[e] - {c}], s.live - {(e, c)})
  }

  predicate IsSpectatorRun(s: Stands, steps: seq<SpectatorStep>)
    decreases |steps|
  {
    steps == [] || (CanSpectate(s, steps[0]) && IsSpectatorRun(Spectate(s, steps[0]), steps[1..]))
  }

  function SpectatorExec(s: Stands, steps: seq<SpectatorStep>): Stands
    requires IsSpectatorRun(s, steps)
    decreases |steps|
  {
    if steps == [] then s else SpectatorExec(Spectate(s, steps[0]), steps[1..])
  }

  // The maps hold exactly the live spectators, and no event but the seeded one keeps an empty map.
  ghost predicate StandsExact(s: Stands) {
    && (forall e, c :: (e in s.listeners && c in s.listeners[e]) <==> (e, c) in s.live)
    && (forall e :: e in s.listeners && s.listeners[e] == {} ==> e == SEEDED_EVENT)
  }

  lemma StandsStep(s: Stands, st: SpectatorStep)
    requires StandsExact(s) && CanSpectate(s, st)
    ensures StandsExact(Spectate(s, st))
  {
    if st.Cleanup? {
      var e, c := st.event, st.client;
      assert e in s.listeners && c in s.listeners[e];
    }
  }

  lemma {:induction false} StandsRun(s: Stands, steps: seq<SpectatorStep>)
    requires StandsExact(s) && IsSpectatorRun(s, steps)
    ensures StandsExact(SpectatorExec(s, steps))
    decreases |steps|
  {
    if steps == [] {
    } else {
      StandsStep(s, steps[0]);
      StandsRun(Spectate(s, steps[0]), steps[1..]);
    }
  }

  lemma SpectatorMapsExact(steps: seq<SpectatorStep>)
    requires IsSpectatorRun(NewStands(), steps)
    ensures
      var s := SpectatorExec(NewStands(), steps);
      && (forall e, c :: (e in s.listeners && c in s.listeners[e]) <==> (e, c) in s.live)
      && (forall e :: e in s.listeners && s.listeners[e] == {} ==> e == SEEDED_EVENT)
  {
    StandsRun(NewStands(), steps);
  }
}
