/**
Approving and declining event requests. A handler first reads the request and checks that it is pending, then acts:
an approval is one transaction creating the event, its rooms and its first participant and linking request and event;
a decline is one update. Nothing locks the request between reading and acting.
*/
module EventApproval {
  import opened Options

  type RequestId = nat
  type EventId = nat
  type GuildId = nat

  datatype Status = Pending | Approved | Rejected

  datatype RoomConfig = RoomConfig(numberOfRooms: int, prefix: string)

  // `config` is None when the stored configuration does not parse.
  datatype Request = Request(status: Status, guild: GuildId, title: string, config: Option<RoomConfig>,
                             event: Option<EventId>, reason: Option<string>)

  datatype Event = Event(title: string, numberOfRooms: int, origin: RequestId)

  datatype Room = Room(event: EventId, name: string)

  datatype Store = Store(
    requests: map<RequestId, Request>,
    events: map<EventId, Event>,
    rooms: seq<Room>,
    participants: set<(EventId, GuildId)>)

  // ---------------------------------------------------------------- room names

  function Digit(d: nat): char
    requires d < 10
  {
    "0123456789"[d]
  }

  // The decimal form fmt's %d gives a natural number.
  function Decimal(n: nat): string {
    if n < 10 then [Digit(n)] else Decimal(n / 10) + [Digit(n % 10)]
  }

  function Value(s: string): int {
    if s == "" then 0 else 10 * Value(s[..|s| - 1]) + (s[|s| - 1] as int - '0' as int)
  }

  lemma DigitValue(d: nat)
    requires d < 10
    ensures Digit(d) as int - '0' as int == d
  {
  }

  lemma {:induction false} DecimalValue(n: nat)
    ensures Value(Decimal(n)) == n
  {
    if n < 10 {
      DigitValue(n);
      assert [Digit(n)][..0] == "";
    } else {
      DigitValue(n % 10);
      DecimalValue(n / 10);
      assert Decimal(n)[..|Decimal(n)| - 1] == Decimal(n / 10);
    }
  }

  function RoomName(prefix: string, number: nat): string {
    prefix + " " + Decimal(number)
  }

  ghost predicate IsNumeral(s: string) {
    s != "" && (forall k :: 0 <= k < |s| ==> '0' <= s[k] <= '9') && (s[0] == '0' ==> |s| == 1)
  }

  lemma {:induction false} DecimalIsNumeral(n: nat)
    ensures IsNumeral(Decimal(n)) && (n > 0 ==> Decimal(n)[0] != '0')
  {
    if n < 10 {
    } else {
      DecimalIsNumeral(n / 10);
      assert Decimal(n)[0] == Decimal(n / 10)[0];
    }
  }

  lemma RoomNamesDiffer(prefix: string, a: nat, b: nat)
    requires a != b
    ensures RoomName(prefix, a) != RoomName(prefix, b)
  {
    DecimalValue(a);
    DecimalValue(b);
    var cut := |prefix + " "|;
    assert RoomName(prefix, a)[cut..] == Decimal(a);
    assert RoomName(prefix, b)[cut..] == Decimal(b);
  }

  function RoomCount(n: int): nat {
    if n < 0 then 0 else n
  }

  function NewRooms(e: EventId, prefix: string, n: int): (rooms: seq<Room>)
    ensures |rooms| == RoomCount(n)
  {
    seq(RoomCount(n), i requires 0 <= i => Room(e, RoomName(prefix, i + 1)))
  }

  // Room `i` is called by the prefix, a blank and the numeral of i + 1, without leading zeros.
  lemma NewRoomsNumbered(e: EventId, prefix: string, n: int, i: nat) returns (numeral: string)
    requires i < RoomCount(n)
    ensures NewRooms(e, prefix, n)[i] == Room(e, prefix + [' '] + numeral)
    ensures IsNumeral(numeral) && Value(numeral) == i + 1
  {
    numeral := Decimal(i + 1);
    DecimalIsNumeral(i + 1);
    DecimalValue(i + 1);
  }

  lemma NewRoomsDistinct(e: EventId, prefix: string, n: int, i: nat, j: nat)
    requires i < j < RoomCount(n)
    ensures NewRooms(e, prefix, n)[i].name != NewRooms(e, prefix, n)[j].name
    ensures NewRooms(e, prefix, n)[i].event == e
  {
    RoomNamesDiffer(prefix, i + 1, j + 1);
  }

  // The count is stored in 32 bits.
  function WrapInt32(n: int): (r: int)
    ensures -0x8000_0000 <= r < 0x8000_0000 && (r - n) % 0x1_0000_0000 == 0
  {
    (n + 0x8000_0000) % 0x1_0000_0000 - 0x8000_0000
  }

  lemma StoredCountRightIff(n: int)
    ensures WrapInt32(n) == RoomCount(n) <==> 0 <= n < 0x8000_0000 || (n < 0 && n % 0x1_0000_0000 == 0)
  {
  }

  // ---------------------------------------------------------------- what the handlers do to the store

  // The transaction, as a whole, for request `id` read as `req`.
  function ApprovedStore(s: Store, id: RequestId, req: Request, e: EventId): Store
    requires id in s.requests && req.config.Some?
  {
    var config := req.config.value;
    Store(
      s.requests[id := s.requests[id].(status := Approved, event := Some(e), reason := None)],
      s.events[e := Event(req.title, WrapInt32(config.numberOfRooms), id)],
      s.rooms + NewRooms(e, config.prefix, config.numberOfRooms),
      s.participants + {(e, req.guild)})
  }

  function DeclinedStore(s: Store, id: RequestId, reason: string): Store
    requires id in s.requests
  {
    s.(requests := s.requests[id := s.requests[id].(status := Rejected, event := None, reason := Some(reason))])
  }

  // Requests other than `id` are as they were, and `id` differs at most in its decision.
  ghost predicate OnlyDecided(s: Store, s': Store, id: RequestId) {
    && s'.requests.Keys == s.requests.Keys && id in s.requests
    && (forall r :: r in s.requests && r != id ==> s'.requests[r] == s.requests[r])
    && s'.requests[id].guild == s.requests[id].guild && s'.requests[id].title == s.requests[id].title
    && s'.requests[id].config == s.requests[id].config
  }

  // What approving a request as it is stored means, field by field: the request names a new event, which carries the
  // request's title, its room count as far as 32 bits hold it, and the request; the rooms asked for are added behind
  // the others, numbered from one; and the requester's guild takes part.
  ghost predicate Approves(s: Store, s': Store, id: RequestId, req: Request, e: EventId)
    requires req.config.Some?
  {
    && OnlyDecided(s, s', id)
    && s'.requests[id].status == Approved && s'.requests[id].event == Some(e) && s'.requests[id].reason == None
    && e !in s.events && s'.events.Keys == s.events.Keys + {e}
    && (forall x :: x in s.events ==> s'.events[x] == s.events[x])
    && s'.events[e].title == req.title && s'.events[e].origin == id
    && s'.events[e].numberOfRooms == WrapInt32(req.config.value.numberOfRooms)
    && |s'.rooms| == |s.rooms| + RoomCount(req.config.value.numberOfRooms) && s'.rooms[..|s.rooms|] == s.rooms
    && (forall i :: |s.rooms| <= i < |s'.rooms| ==>
      s'.rooms[i] == Room(e, req.config.value.prefix + " " + Decimal(i - |s.rooms| + 1)))
    && (e, req.guild) in s'.participants && s'.participants - {(e, req.guild)} == s.participants - {(e, req.guild)}
  }

  // What declining a request means, field by field.
  ghost predicate Declines(s: Store, s': Store, id: RequestId, reason: string) {
    && OnlyDecided(s, s', id)
    && s'.requests[id].status == Rejected && s'.requests[id].event == None && s'.requests[id].reason == Some(reason)
    && s'.events == s.events && s'.rooms == s.rooms && s'.participants == s.participants
  }

  lemma ApprovedStoreApproves(s: Store, id: RequestId, req: Request, e: EventId)
    requires id in s.requests && req.config.Some? && e !in s.events
    ensures Approves(s, ApprovedStore(s, id, req, e), id, req, e)
  {
    var s' := ApprovedStore(s, id, req, e);
    var config := req.config.value;
    forall i | |s.rooms| <= i < |s'.rooms|
      ensures s'.rooms[i] == Room(e, config.prefix + " " + Decimal(i - |s.rooms| + 1))
    {
      assert s'.rooms[i] == NewRooms(e, config.prefix, config.numberOfRooms)[i - |s.rooms|];
    }
  }

  lemma DeclinedStoreDeclines(s: Store, id: RequestId, reason: string)
    requires id in s.requests
    ensures Declines(s, DeclinedStore(s, id, reason), id, reason)
  {
  }

  datatype Action = Approve | Decline | Unknown

  datatype Response = NotFound | AlreadyProcessed | Invalid | ServerError | Done

  class EventDesk {
    var requests: map<RequestId, Request>
    var events: map<EventId, Event>
    var rooms: seq<Room>
    var participants: set<(EventId, GuildId)>

    ghost function View(): Store
      reads this
    {
      Store(requests, events, rooms, participants)
    }

    // `newEvent` is the id the database generates; `fails(n)` says whether statement `n` of the transaction fails:
    // the event, each room, the participant, the request's update, the commit. The deferred rollback undoes all.
    method ApproveEventRequest(id: RequestId, req: Request, newEvent: EventId, fails: nat -> bool)
      returns (err: bool)
      modifies this
      ensures err ==> View() == old(View())
      ensures !err ==> id in old(requests) && newEvent !in old(events) && req.config.Some?
      ensures !err ==> View() == ApprovedStore(old(View()), id, req, newEvent)
      ensures !err ==> Approves(old(View()), View(), id, req, newEvent)
      ensures err <==>
        || req.config == None || newEvent in old(events) || id !in old(requests)
        || (newEvent, req.guild) in old(participants)
        || exists i :: 0 <= i < RoomCount(req.config.value.numberOfRooms) + 4 && fails(i)
    {
      if req.config == None {
        return true;
      }
      var config := req.config.value;
      if fails(0) || newEvent in events {
        return true;
      }
      var txEvents := events[newEvent := Event(req.title, WrapInt32(config.numberOfRooms), id)];
      var roomsFail, newRooms := CreateRooms(newEvent, config, fails);
      if roomsFail {
        return true;
      }
      var n := RoomCount(config.numberOfRooms);
      if fails(n + 1) || (newEvent, req.guild) in participants {
        return true;
      }
      if fails(n + 2) || id !in requests {
        return true;
      }
      if fails(n + 3) {
        return true;
      }
      ApprovedStoreApproves(View(), id, req, newEvent);
      events, rooms := txEvents, rooms + newRooms;
      participants := participants + {(newEvent, req.guild)};
      requests := requests[id := requests[id].(status := Approved, event := Some(newEvent), reason := None)];
      return false;
    }

    // The transaction's room loop: statement `i` creates room `i`.
    method CreateRooms(newEvent: EventId, config: RoomConfig, fails: nat -> bool)
      returns (err: bool, newRooms: seq<Room>)
      ensures err <==> exists i :: 1 <= i <= RoomCount(config.numberOfRooms) && fails(i)
      ensures !err ==> newRooms == NewRooms(newEvent, config.prefix, config.numberOfRooms)
    {
      newRooms := [];
      var i := 0;
      while i < config.numberOfRooms
        invariant 0 <= i <= RoomCount(config.numberOfRooms)
        invariant forall j :: 1 <= j <= i ==> !fails(j)
        invariant newRooms == NewRooms(newEvent, config.prefix, config.numberOfRooms)[..i]
      {
        if fails(i + 1) {
          return true, newRooms;
        }
        newRooms := newRooms + [Room(newEvent, RoomName(config.prefix, i + 1))];
        i := i + 1;
      }
      return false, newRooms;
    }

    method DeclineEventRequest(id: RequestId, reason: string, fails: bool) returns (err: bool)
      modifies this
      ensures err <==> fails || id !in old(requests)
      ensures err ==> View() == old(View())
      ensures !err ==> View() == DeclinedStore(old(View()), id, reason)
      ensures !err ==> Declines(old(View()), View(), id, reason)
    {
      if fails || id !in requests {
        return true;
      }
      DeclinedStoreDeclines(View(), id, reason);
      requests := requests[id := requests[id].(status := Rejected, event := None, reason := Some(reason))];
      return false;
    }

    // The whole handler with nobody else at the desk: links survive, and the answer says what happened. `readFails`
    // tells whether the first query fails, `fails(n)` whether statement `n` of the write does.
    method ProcessEventRequest(id: RequestId, action: Action, reason: string, newEvent: EventId,
                               readFails: bool, fails: nat -> bool)
      returns (response: Response)
      modifies this
      ensures Linked(old(View())) ==> Linked(View())
      ensures response != Done ==> View() == old(View())
      ensures response == Done ==> id in old(requests) && old(requests)[id].status == Pending
      ensures response == Done && action == Approve ==>
        old(requests)[id].config.Some? && Approves(old(View()), View(), id, old(requests)[id], newEvent)
      ensures response == Done && action != Approve ==>
        action == Decline && reason != "" && Declines(old(View()), View(), id, reason)
      ensures response == NotFound <==> !readFails && id !in old(requests)
      ensures response == AlreadyProcessed <==>
        !readFails && id in old(requests) && old(requests)[id].status != Pending
      ensures response == Invalid <==>
        && !readFails && id in old(requests) && old(requests)[id].status == Pending
        && (action == Unknown || (action == Decline && reason == ""))
      ensures readFails ==> response == ServerError
      ensures response == ServerError && action == Decline ==> readFails || fails(0)
      ensures response == ServerError && action == Approve && !readFails ==>
        var req := old(requests)[id];
        || req.config == None || newEvent in old(events) || (newEvent, req.guild) in old(participants)
        || exists i :: 0 <= i < RoomCount(req.config.value.numberOfRooms) + 4 && fails(i)
    {
      if readFails {
        return ServerError;
      }
      if id !in requests {
        return NotFound;
      }
      var eventRequest := requests[id];
      if eventRequest.status != Pending {
        return AlreadyProcessed;
      }
      var err;
      match action {
        case Approve =>
          ghost var before := View();
          err := ApproveEventRequest(id, eventRequest, newEvent, fails);
          if !err && Linked(before) {
            ApprovalLinks(before, id, eventRequest, newEvent);
          }
        case Decline =>
          if reason == "" {
            return Invalid;
          }
          ghost var before := View();
          err := DeclineEventRequest(id, reason, fails(0));
          if !err && Linked(before) {
            DeclineLinks(before, id, reason);
          }
        case Unknown => return Invalid;
      }
      return if err then ServerError else Done;
    }
  }

  // ---------------------------------------------------------------- links in both directions

  // Every approved request names an event made for it.
  ghost predicate RequestsLinked(s: Store) {
    forall r :: r in s.requests ==>
      if s.requests[r].status == Approved
      then s.requests[r].event.Some? && s.requests[r].event.value in s.events
        && s.events[s.requests[r].event.value].origin == r
      else s.requests[r].event == None
  }

  // Every event is named by the approved request it was made for.
  ghost predicate EventsLinked(s: Store) {
    forall e :: e in s.events ==>
      s.events[e].origin in s.requests && s.requests[s.events[e].origin].status == Approved
      && s.requests[s.events[e].origin].event == Some(e)
  }

  ghost predicate Linked(s: Store) {
    RequestsLinked(s) && EventsLinked(s)
  }

  lemma ApprovalLinks(s: Store, id: RequestId, req: Request, e: EventId)
    requires Linked(s) && id in s.requests && req.config.Some? && e !in s.events
    ensures RequestsLinked(ApprovedStore(s, id, req, e))
    ensures Linked(ApprovedStore(s, id, req, e)) <==> s.requests[id].status != Approved
  {
    var s' := ApprovedStore(s, id, req, e);
    if s.requests[id].status == Approved {
      assert s.requests[id].event.value in s'.events;
    }
  }

  lemma DeclineLinks(s: Store, id: RequestId, reason: string)
    requires Linked(s) && id in s.requests
    ensures RequestsLinked(DeclinedStore(s, id, reason))
    ensures Linked(DeclinedStore(s, id, reason)) <==> s.requests[id].status != Approved
  {
    var s' := DeclinedStore(s, id, reason);
    if s.requests[id].status == Approved {
      assert s.requests[id].event.value in s'.events;
    }
  }

  // ---------------------------------------------------------------- handlers interleaved

  // A handler between its check and its write holds the request as it read it.
  datatype Handler = Away | Checked(id: RequestId, req: Request)

  datatype Desk = Desk(store: Store, handlers: seq<Handler>)

  datatype Step =
    | File(id: RequestId, guild: GuildId, title: string, config: Option<RoomConfig>)
    | Check(h: nat, id: RequestId)
    | ActApprove(h: nat, e: EventId)
    | ActDecline(h: nat, reason: string)
    | Leave(h: nat)

  predicate Enabled(d: Desk, st: Step) {
    match st
    case File(id, _, _, _) => id !in d.store.requests
    case Check(h, id) => h < |d.handlers| && d.handlers[h].Away? && id in d.store.requests
      && d.store.requests[id].status == Pending
    case ActApprove(h, e) => h < |d.handlers| && d.handlers[h].Checked? && d.handlers[h].req.config.Some?
      && d.handlers[h].id in d.store.requests && e !in d.store.events
    case ActDecline(h, reason) => h < |d.handlers| && d.handlers[h].Checked? && d.handlers[h].id in d.store.requests
    case Leave(h) => h < |d.handlers|
  }

  function Apply(d: Desk, st: Step): Desk
    requires Enabled(d, st)
  {
    match st
    case File(id, guild, title, config) =>
      d.(store := d.store.(requests := d.store.requests[id := Request(Pending, guild, title, config, None, None)]))
    case Check(h, id) => d.(handlers := d.handlers[h := Checked(id, d.store.requests[id])])
    case ActApprove(h, e) =>
      Desk(ApprovedStore(d.store, d.handlers[h].id, d.handlers[h].req, e), d.handlers[h := Away])
    case ActDecline(h, reason) => Desk(DeclinedStore(d.store, d.handlers[h].id, reason), d.handlers[h := Away])
    case Leave(h) => d.(handlers := d.handlers[h := Away])
  }

  predicate IsRun(d: Desk, steps: seq<Step>)
    decreases |steps|
  {
    steps == [] || (Enabled(d, steps[0]) && IsRun(Apply(d, steps[0]), steps[1..]))
  }

  function Exec(d: Desk, steps: seq<Step>): Desk
    requires IsRun(d, steps)
    decreases |steps|
  {
    if steps == [] then d else Exec(Apply(d, steps[0]), steps[1..])
  }

  // A write that finds its request already approved by someone else.
  predicate Overwrites(d: Desk, st: Step)
    requires Enabled(d, st)
  {
    (st.ActApprove? || st.ActDecline?) && d.store.requests[d.handlers[st.h].id].status == Approved
  }

  predicate NoOverwrite(d: Desk, steps: seq<Step>)
    requires IsRun(d, steps)
    decreases |steps|
  {
    steps == [] || (!Overwrites(d, steps[0]) && NoOverwrite(Apply(d, steps[0]), steps[1..]))
  }

  lemma LinkedStep(d: Desk, st: Step)
    requires Linked(d.store) && Enabled(d, st)
    ensures Linked(Apply(d, st).store) <==> !Overwrites(d, st)
  {
    match st
    case ActApprove(h, e) => ApprovalLinks(d.store, d.handlers[h].id, d.handlers[h].req, e);
    case ActDecline(h, reason) => DeclineLinks(d.store, d.handlers[h].id, reason);
    case File(id, _, _, _) =>
    case Check(_, _) =>
    case Leave(_) =>
  }

  // An event its request does not name.
  ghost predicate Orphaned(s: Store, e: EventId) {
    e in s.events && !(s.events[e].origin in s.requests && s.requests[s.events[e].origin].event == Some(e))
  }

  // It is never named again: an approval names a new event.
  lemma {:induction false} OrphanedForGood(d: Desk, steps: seq<Step>, e: EventId)
    requires Orphaned(d.store, e) && IsRun(d, steps)
    ensures Orphaned(Exec(d, steps).store, e)
    decreases |steps|
  {
    if steps == [] {
    } else {
      OrphanedForGood(Apply(d, steps[0]), steps[1..], e);
    }
  }

  lemma OverwriteOrphans(d: Desk, st: Step) returns (e: EventId)
    requires Linked(d.store) && Enabled(d, st) && Overwrites(d, st)
    ensures Orphaned(Apply(d, st).store, e)
  {
    e := d.store.requests[d.handlers[st.h].id].event.value;
  }

  // However handlers interleave, requests and events are linked both ways at the end if and only if no write on the
  // way overwrote an approval.
  lemma {:induction false} LinkedIffNoOverwrite(d: Desk, steps: seq<Step>)
    requires Linked(d.store) && IsRun(d, steps)
    ensures Linked(Exec(d, steps).store) <==> NoOverwrite(d, steps)
    decreases |steps|
  {
    if steps == [] {
    } else {
      LinkedStep(d, steps[0]);
      if Overwrites(d, steps[0]) {
        var e := OverwriteOrphans(d, steps[0]);
        OrphanedForGood(Apply(d, steps[0]), steps[1..], e);
      } else {
        LinkedIffNoOverwrite(Apply(d, steps[0]), steps[1..]);
      }
    }
  }

  // In every interleaving an approved request still names an event made for it.
  lemma {:induction false} ApprovedAlwaysNamed(d: Desk, steps: seq<Step>)
    requires RequestsLinked(d.store) && IsRun(d, steps)
    ensures RequestsLinked(Exec(d, steps).store)
    decreases |steps|
  {
    if steps == [] {
    } else {
      ApprovedAlwaysNamed(Apply(d, steps[0]), steps[1..]);
    }
  }

  // A request that has been decided and that no handler holds any more.
  ghost predicate AtRest(d: Desk, id: RequestId) {
    && id in d.store.requests && d.store.requests[id].status != Pending
    && forall h :: 0 <= h < |d.handlers| && d.handlers[h].Checked? ==> d.handlers[h].id != id
  }

  ghost predicate NeverChecked(steps: seq<Step>, id: RequestId) {
    forall i :: 0 <= i < |steps| && steps[i].Check? ==> steps[i].id != id
  }

  // It never passes a check again, so it stays as it was decided: a declined one stays rejected with its reason.
  lemma {:induction false} DecidedForGood(d: Desk, steps: seq<Step>, id: RequestId)
    requires AtRest(d, id) && IsRun(d, steps)
    ensures AtRest(Exec(d, steps), id) && Exec(d, steps).store.requests[id] == d.store.requests[id]
    ensures NeverChecked(steps, id)
    decreases |steps|
  {
    if steps == [] {
    } else {
      DecidedForGood(Apply(d, steps[0]), steps[1..], id);
      forall i | 0 <= i < |steps| && steps[i].Check? ensures steps[i].id != id {
        assert i > 0 ==> steps[i] == steps[1..][i - 1];
      }
    }
  }

  // What the writes of the interleaved handlers do is what the transaction and the update do.
  lemma WritesDecide(d: Desk, st: Step)
    requires Enabled(d, st)
    ensures st.ActApprove? ==>
      Approves(d.store, Apply(d, st).store, d.handlers[st.h].id, d.handlers[st.h].req, st.e)
    ensures st.ActDecline? ==> Declines(d.store, Apply(d, st).store, d.handlers[st.h].id, st.reason)
    ensures st.Check? || st.Leave? ==> Apply(d, st).store == d.store
    ensures st.File? ==>
      var store := Apply(d, st).store;
      && store.requests.Keys == d.store.requests.Keys + {st.id} && st.id !in d.store.requests
      && (forall r :: r in d.store.requests ==> store.requests[r] == d.store.requests[r])
      && store.requests[st.id] == Request(Pending, st.guild, st.title, st.config, None, None)
      && store.events == d.store.events && store.rooms == d.store.rooms && store.participants == d.store.participants
    ensures st.Check? ==> Apply(d, st).handlers[st.h] == Checked(st.id, d.store.requests[st.id])
    ensures st.Leave? || st.ActApprove? || st.ActDecline? ==> Apply(d, st).handlers[st.h].Away?
    ensures |Apply(d, st).handlers| == |d.handlers|
    ensures forall g :: 0 <= g < |d.handlers| && (st.File? || g != st.h) ==> Apply(d, st).handlers[g] == d.handlers[g]
  {
    match st
    case ActApprove(h, e) => ApprovedStoreApproves(d.store, d.handlers[h].id, d.handlers[h].req, e);
    case ActDecline(h, reason) => DeclinedStoreDeclines(d.store, d.handlers[h].id, reason);
    case _ =>
  }

  // Requests whose handlers are running, one handler per request, never overwrite.
  ghost predicate OneHandlerEach(d: Desk) {
    && (forall g, h :: 0 <= g < h < |d.handlers| && d.handlers[g].Checked? && d.handlers[h].Checked? ==>
      d.handlers[g].id != d.handlers[h].id)
    && (forall h :: 0 <= h < |d.handlers| && d.handlers[h].Checked? ==>
      d.handlers[h].id in d.store.requests && d.store.requests[d.handlers[h].id].status == Pending)
  }

  ghost predicate ChecksApart(d: Desk, steps: seq<Step>)
    requires IsRun(d, steps)
    decreases |steps|
  {
    steps == []
    || ((steps[0].Check? ==>
          forall h :: 0 <= h < |d.handlers| && d.handlers[h].Checked? ==> d.handlers[h].id != steps[0].id)
        && ChecksApart(Apply(d, steps[0]), steps[1..]))
  }

  lemma {:induction false} OneAtATimeNeverOverwrites(d: Desk, steps: seq<Step>)
    requires OneHandlerEach(d) && IsRun(d, steps) && ChecksApart(d, steps)
    ensures NoOverwrite(d, steps)
    decreases |steps|
  {
    if steps == [] {
    } else {
      OneAtATimeNeverOverwrites(Apply(d, steps[0]), steps[1..]);
    }
  }

  // Two handlers that both read a request as pending can both approve it: two events, one of them orphaned.
  lemma DoubleApproval(d: Desk, id: RequestId, e1: EventId, e2: EventId) returns (steps: seq<Step>)
    requires |d.handlers| >= 2 && d.handlers[0].Away? && d.handlers[1].Away?
    requires id in d.store.requests && d.store.requests[id].status == Pending && d.store.requests[id].config.Some?
    requires e1 !in d.store.events && e2 !in d.store.events && e1 != e2
    ensures IsRun(d, steps)
    ensures var end := Exec(d, steps).store;
      && e1 in end.events && e2 in end.events && end.events[e1].origin == end.events[e2].origin == id
      && id in end.requests && end.requests[id].event == Some(e2) && !EventsLinked(end)
  {
    var d1 := Apply(d, Check(0, id));
    var d2 := Apply(d1, Check(1, id));
    var d3 := Apply(d2, ActApprove(0, e1));
    var d4 := Apply(d3, ActApprove(1, e2));
    Chain(d3, ActApprove(1, e2), []);
    Chain(d2, ActApprove(0, e1), [ActApprove(1, e2)]);
    Chain(d1, Check(1, id), [ActApprove(0, e1), ActApprove(1, e2)]);
    Chain(d, Check(0, id), [Check(1, id), ActApprove(0, e1), ActApprove(1, e2)]);
    steps := [Check(0, id), Check(1, id), ActApprove(0, e1), ActApprove(1, e2)];
    assert e1 in d4.store.events;
  }

  lemma Chain(d: Desk, st: Step, rest: seq<Step>)
    requires Enabled(d, st) && IsRun(Apply(d, st), rest)
    ensures IsRun(d, [st] + rest) && Exec(d, [st] + rest) == Exec(Apply(d, st), rest)
  {
    assert ([st] + rest)[1..] == rest;
  }
}
