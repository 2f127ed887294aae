/**
A room and its connections together: the joined and left messages the hub receives are the ones the connection
handlers send, and a sender waits until the mailbox has a free slot.
*/
module RoomSystem {
  import opened Options
  import opened Ranking
  import opened RoomHub
  import opened Progress
  import opened Membership
  import opened Connections

  datatype World = World(lobby: Lobby, hub: Hub)

  datatype WorldStep = InLobby(conn: ConnStep) | InHub(step: Step)

  predicate CanMove(w: World, st: WorldStep) {
    match st
    case InLobby(c) =>
      CanStep(w.lobby, c) && (Sends(w.lobby, c).Some? ==> Enabled(w.hub, Arrive(Sends(w.lobby, c).value)))
    case InHub(h) => !h.Arrive? && Enabled(w.hub, h)
  }

  function Move(w: World, st: WorldStep): World
    requires CanMove(w, st)
  {
    match st
    case InLobby(c) =>
      World(Step1(w.lobby, c),
            if Sends(w.lobby, c).Some? then Apply(w.hub, Arrive(Sends(w.lobby, c).value)) else w.hub)
    case InHub(h) => w.(hub := Apply(w.hub, h))
  }

  predicate IsWorldRun(w: World, steps: seq<WorldStep>)
    decreases |steps|
  {
    steps == [] || (CanMove(w, steps[0]) && IsWorldRun(Move(w, steps[0]), steps[1..]))
  }

  function WorldExec(w: World, steps: seq<WorldStep>): World
    requires IsWorldRun(w, steps)
    decreases |steps|
  {
    if steps == [] then w else WorldExec(Move(w, steps[0]), steps[1..])
  }

  // A connection's step waits for nothing but a free slot, and only if it sends; its message is for the room and
  // about its own player.
  lemma LobbyWaitsForSlots(w: World, c: ConnStep)
    requires CanStep(w.lobby, c) && w.lobby.room == w.hub.room
    ensures CanMove(w, InLobby(c)) <==> (c.SendJoined? || c.SendLeft? ==> |w.hub.mailbox| < 10)
    ensures CanMove(w, InLobby(c)) ==>
      var w' := Move(w, InLobby(c));
      && w'.lobby.room == w'.hub.room == w.hub.room
      && w'.hub.mailbox == w.hub.mailbox +
        (if c.SendJoined? then [PlayerJoined(w.lobby.conns[c.k].player, w.hub.room)]
         else if c.SendLeft? then [PlayerLeft(w.lobby.conns[c.k].player, w.hub.room)] else [])
  {
  }

  // No left message is sent while another connection of its player is connected.
  ghost predicate LeavesInOrder(w: World, steps: seq<WorldStep>)
    requires IsWorldRun(w, steps)
    decreases |steps|
  {
    steps == []
    || ((steps[0].InLobby? ==> !LateLeft(w.lobby, steps[0].conn)) && LeavesInOrder(Move(w, steps[0]), steps[1..]))
  }

  // No message of the player is taken while another consumer is about to do the opposite.
  ghost predicate HandledInOrder(w: World, steps: seq<WorldStep>, p: PlayerId)
    requires IsWorldRun(w, steps)
    decreases |steps|
  {
    steps == []
    || ((steps[0].InHub? ==> !Crosses(w.hub, steps[0].step, p)) && HandledInOrder(Move(w, steps[0]), steps[1..], p))
  }

  // A run of the whole is a run of each part, over the same messages.
  lemma {:induction false} Parts(w: World, steps: seq<WorldStep>, p: PlayerId)
    returns (hs: seq<Step>, cs: seq<ConnStep>)
    requires IsWorldRun(w, steps) && w.hub.sent == w.lobby.sent
    ensures IsRun(w.hub, hs) && Exec(w.hub, hs) == WorldExec(w, steps).hub
    ensures IsConnRun(w.lobby, cs) && ConnExec(w.lobby, cs) == WorldExec(w, steps).lobby
    ensures WorldExec(w, steps).hub.sent == WorldExec(w, steps).lobby.sent
    ensures NoLateLeft(w.lobby, cs) <==> LeavesInOrder(w, steps)
    ensures NeverCrosses(w.hub, hs, p) <==> HandledInOrder(w, steps, p)
    decreases |steps|
  {
    if steps == [] {
      hs, cs := [], [];
    } else {
      hs, cs := Parts(Move(w, steps[0]), steps[1..], p);
      match steps[0]
      case InLobby(c) =>
        ConnChain(w.lobby, c, cs);
        LateLeftChain(w.lobby, c, cs);
        cs := [c] + cs;
        if Sends(w.lobby, c).Some? {
          StepThenRun(w.hub, Arrive(Sends(w.lobby, c).value), hs);
          CrossesChain(w.hub, Arrive(Sends(w.lobby, c).value), hs, p);
          hs := [Arrive(Sends(w.lobby, c).value)] + hs;
        }
      case InHub(h) =>
        StepThenRun(w.hub, h, hs);
        CrossesChain(w.hub, h, hs, p);
        hs := [h] + hs;
    }
  }

  lemma LateLeftChain(l: Lobby, st: ConnStep, rest: seq<ConnStep>)
    requires CanStep(l, st) && IsConnRun(Step1(l, st), rest) && IsConnRun(l, [st] + rest)
    ensures NoLateLeft(l, [st] + rest) <==> !LateLeft(l, st) && NoLateLeft(Step1(l, st), rest)
  {
    assert ([st] + rest)[1..] == rest;
  }

  lemma CrossesChain(s: Hub, st: Step, rest: seq<Step>, p: PlayerId)
    requires Enabled(s, st) && IsRun(Apply(s, st), rest) && IsRun(s, [st] + rest)
    ensures NeverCrosses(s, [st] + rest, p) <==> !Crosses(s, st, p) && NeverCrosses(Apply(s, st), rest, p)
  {
    assert ([st] + rest)[1..] == rest;
  }

  ghost predicate NoLeftPending(l: Lobby) {
    forall k :: 0 <= k < |l.conns| && l.conns[k].phase.Removed? ==> l.conns[k].leftSent
  }

  lemma WordOfPlayer(l: Lobby, p: PlayerId)
    requires WordsBacked(l) && NoLeftPending(l)
    ensures LastWord(l.sent, p) == None <==> NeverConnected(l, p)
    ensures LastWord(l.sent, p) == Some(true) ==> ConnectedNow(l, p)
    ensures ConnectedNow(l, p) ==> !NeverConnected(l, p)
  {
    if LastWord(l.sent, p) == Some(true) {
      assert LeftOwed(l, p);
      var k :| 0 <= k < |l.conns| && l.conns[k].player == p && !l.conns[k].phase.Registered? && !l.conns[k].leftSent;
      assert l.conns[k].phase.Connected?;
    }
  }

  // The members are as they should be: the player is one if connected, or if an initial member who never connected.
  ghost predicate MemberAsConnected(w: World, end: World, p: PlayerId) {
    p in Members(end.hub) <==>
      ConnectedNow(end.lobby, p) || (NeverConnected(end.lobby, p) && p in Members(w.hub))
  }

  lemma EndRightIff(w: World, end: World, p: PlayerId)
    requires end.hub.sent == end.lobby.sent && WordsBacked(end.lobby) && NoLeftPending(end.lobby)
    requires p in Members(end.hub) <==>
      LastWord(end.hub.sent, p) == Some(true) || (LastWord(end.hub.sent, p) == None && p in Members(w.hub))
    ensures MemberAsConnected(w, end, p) <==> (ConnectedNow(end.lobby, p) ==> LastWord(end.hub.sent, p) != Some(false))
  {
    WordOfPlayer(end.lobby, p);
    var word := LastWord(end.hub.sent, p);
    if word.Some? {
      assert word == if word.value then Some(true) else Some(false);
    }
  }

  // For any number of consumers that handle the player's messages in order, and no failing row query: once the
  // mailbox is drained and every left message has been sent, the player's membership is right exactly when a player
  // still connected was not last heard of as leaving.
  lemma MembershipRightIff(w: World, steps: seq<WorldStep>, p: PlayerId)
    requires w.lobby == NewLobby(w.hub.room) && Started(w.hub)
    requires IsWorldRun(w, steps) && HandledInOrder(w, steps, p)
    requires var end := WorldExec(w, steps);
      Drained(end.hub) && !end.hub.rowErrors && NoLeftPending(end.lobby)
    ensures
      var end := WorldExec(w, steps);
      MemberAsConnected(w, end, p) <==> (ConnectedNow(end.lobby, p) ==> LastWord(end.hub.sent, p) != Some(false))
  {
    var hs, cs := Parts(w, steps, p);
    DrainedMembersFollowLastWord(w.hub, hs, p);
    WordsBackedRun(w.lobby, cs);
    EndRightIff(w, WorldExec(w, steps), p);
  }

  // So it is right for all such players, including players who left and came back, if no left message was sent while
  // another connection of its player was connected.
  lemma DrainedRoomHoldsTheConnected(w: World, steps: seq<WorldStep>, p: PlayerId)
    requires w.lobby == NewLobby(w.hub.room) && Started(w.hub)
    requires IsWorldRun(w, steps) && HandledInOrder(w, steps, p) && LeavesInOrder(w, steps)
    requires var end := WorldExec(w, steps);
      Drained(end.hub) && !end.hub.rowErrors && NoLeftPending(end.lobby)
    ensures
      var end := WorldExec(w, steps);
      p in Members(end.hub) <==>
        ConnectedNow(end.lobby, p) || (NeverConnected(end.lobby, p) && p in Members(w.hub))
  {
    var hs, cs := Parts(w, steps, p);
    WordsFollowIffNoLateLeft(w.lobby, cs);
    MembershipRightIff(w, steps, p);
  }
}
