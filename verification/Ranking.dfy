/**
Places on a room's leaderboard.

The recalculation query ranks the rows of one room with
`RANK() OVER (ORDER BY score DESC, joined_at ASC)` (RANK as in section 6.10 of ISO/IEC 9075-2:2003).
`PlaceOf` is the counting reading of that expression, `ScanRanks` the sort-and-scan reading; they are proved
equal on every ordering the database may choose.
*/
module Ranking {
  import opened Options

  type PlayerId = nat

  // A row of room_players. `rowId` tells apart two rows inserted one after the other for the same player.
  datatype Row = Row(rowId: nat, score: int, joinedAt: int, place: Option<nat>)

  // The rows of one room, under the primary key (room_id, user_id).
  type Rows = map<PlayerId, Row>

  predicate Ahead(a: Row, b: Row) {
    a.score > b.score || (a.score == b.score && a.joinedAt < b.joinedAt)
  }

  predicate Tied(a: Row, b: Row) {
    a.score == b.score && a.joinedAt == b.joinedAt
  }

  function AheadOf(rows: Rows, p: PlayerId): set<PlayerId>
    requires p in rows
  {
    set q | q in rows && Ahead(rows[q], rows[p])
  }

  // One more than the number of players strictly ahead.
  function PlaceOf(rows: Rows, p: PlayerId): nat
    requires p in rows
  {
    1 + |AheadOf(rows, p)|
  }

  // Every stored place is the place the rows of the room call for.
  ghost predicate Fresh(rows: Rows) {
    forall p :: p in rows ==> rows[p].place == Some(PlaceOf(rows, p))
  }

  ghost predicate NoTies(rows: Rows) {
    forall p, q :: p in rows && q in rows && p != q ==> !Tied(rows[p], rows[q])
  }

  // ---------------------------------------------------------------- the order of places

  lemma PlaceOrder(rows: Rows, p: PlayerId, q: PlayerId)
    requires p in rows && q in rows
    ensures PlaceOf(rows, p) < PlaceOf(rows, q) <==>
      rows[p].score > rows[q].score || (rows[p].score == rows[q].score && rows[p].joinedAt < rows[q].joinedAt)
    ensures PlaceOf(rows, p) == PlaceOf(rows, q) <==>
      rows[p].score == rows[q].score && rows[p].joinedAt == rows[q].joinedAt
  {
    FewerAhead(rows, p, q);
    FewerAhead(rows, q, p);
    if Tied(rows[p], rows[q]) {
      assert AheadOf(rows, p) == AheadOf(rows, q);
    }
  }

  lemma FewerAhead(rows: Rows, p: PlayerId, q: PlayerId)
    requires p in rows && q in rows
    ensures Ahead(rows[p], rows[q]) ==> PlaceOf(rows, p) < PlaceOf(rows, q)
  {
    if Ahead(rows[p], rows[q]) {
      SubsetSize(AheadOf(rows, p) + {p}, AheadOf(rows, q));
      assert |AheadOf(rows, p) + {p}| == |AheadOf(rows, p)| + 1;
    }
  }

  lemma {:induction false} SubsetSize<T>(a: set<T>, b: set<T>)
    requires a <= b
    ensures |a| <= |b|
    ensures |a| == |b| ==> a == b
  {
    if a == {} {
    } else {
      var x :| x in a;
      SubsetSize(a - {x}, b - {x});
    }
  }

  lemma PlaceInRange(rows: Rows, p: PlayerId)
    requires p in rows
    ensures 1 <= PlaceOf(rows, p) <= |rows|
  {
    SubsetSize(AheadOf(rows, p) + {p}, rows.Keys);
  }

  lemma {:induction false} SomeoneIsFirst(rows: Rows, start: PlayerId) returns (first: PlayerId)
    requires start in rows
    ensures first in rows && PlaceOf(rows, first) == 1
    decreases PlaceOf(rows, start)
  {
    if AheadOf(rows, start) == {} {
      first := start;
    } else {
      var q :| q in AheadOf(rows, start);
      PlaceOrder(rows, q, start);
      first := SomeoneIsFirst(rows, q);
    }
  }

  // ---------------------------------------------------------------- places as a permutation of 1..n

  function PlacesOf(rows: Rows, players: set<PlayerId>): set<nat>
    requires players <= rows.Keys
  {
    set p | p in players :: PlaceOf(rows, p)
  }

  function UpTo(n: nat): (ks: set<nat>)
    ensures forall k :: k in ks <==> 1 <= k <= n
    ensures |ks| == n
  {
    if n == 0 then {} else UpTo(n - 1) + {n}
  }

  lemma {:induction false} PlacesSize(rows: Rows, players: set<PlayerId>)
    requires players <= rows.Keys
    ensures |PlacesOf(rows, players)| <= |players|
    ensures NoTies(rows) ==> |PlacesOf(rows, players)| == |players|
  {
    if players == {} {
    } else {
      var p :| p in players;
      var rest := players - {p};
      PlacesSize(rows, rest);
      assert PlacesOf(rows, players) == PlacesOf(rows, rest) + {PlaceOf(rows, p)};
      if NoTies(rows) && PlaceOf(rows, p) in PlacesOf(rows, rest) {
        var q :| q in rest && PlaceOf(rows, q) == PlaceOf(rows, p);
        PlaceOrder(rows, p, q);
        assert false;
      }
    }
  }

  lemma PlacesWithin(rows: Rows)
    ensures PlacesOf(rows, rows.Keys) <= UpTo(|rows|)
  {
    forall p | p in rows ensures PlaceOf(rows, p) in UpTo(|rows|) { PlaceInRange(rows, p); }
  }

  lemma TieLosesPlace(rows: Rows, p: PlayerId, q: PlayerId)
    requires p in rows && q in rows && p != q && Tied(rows[p], rows[q])
    ensures |PlacesOf(rows, rows.Keys)| < |rows|
  {
    PlaceOrder(rows, p, q);
    var rest := rows.Keys - {q};
    assert p in rest && rows.Keys == rest + {q};
    assert PlacesOf(rows, rows.Keys) == PlacesOf(rows, rest);
    PlacesSize(rows, rest);
  }

  lemma PlacesArePermutation(rows: Rows)
    ensures PlacesOf(rows, rows.Keys) == UpTo(|rows|) <==> NoTies(rows)
  {
    PlacesWithin(rows);
    PlacesSize(rows, rows.Keys);
    SubsetSize(PlacesOf(rows, rows.Keys), UpTo(|rows|));
    if !NoTies(rows) {
      var p, q :| p in rows && q in rows && p != q && Tied(rows[p], rows[q]);
      TieLosesPlace(rows, p, q);
    }
  }

  // ---------------------------------------------------------------- sort and scan

  ghost predicate Enumerates(rows: Rows, order: seq<PlayerId>) {
    && (forall p :: p in order <==> p in rows)
    && (forall i, j :: 0 <= i < j < |order| ==> order[i] != order[j])
  }

  // An ordering the database may produce for ORDER BY score DESC, joined_at ASC.
  ghost predicate SortedByKey(rows: Rows, order: seq<PlayerId>) {
    && Enumerates(rows, order)
    && (forall i, j :: 0 <= i < j < |order| ==>
      var a, b := rows[order[i]], rows[order[j]];
      a.score > b.score || (a.score == b.score && a.joinedAt <= b.joinedAt))
  }

  // RANK by one pass over an ordering: a row tied with its predecessor repeats its rank.
  function ScanRanks(rows: Rows, order: seq<PlayerId>): (ranks: seq<nat>)
    requires forall p :: p in order ==> p in rows
    ensures |ranks| == |order|
  {
    if order == [] then [] else
      var i := |order| - 1;
      var before := ScanRanks(rows, order[..i]);
      if i > 0 && Tied(rows[order[i - 1]], rows[order[i]]) then before + [before[i - 1]] else before + [i + 1]
  }

  function SetOf<T>(s: seq<T>): set<T> {
    set x | x in s
  }

  lemma {:induction false} DistinctSize<T>(s: seq<T>)
    requires forall i, j :: 0 <= i < j < |s| ==> s[i] != s[j]
    ensures |SetOf(s)| == |s|
  {
    if s == [] {
    } else {
      var n := |s| - 1;
      DistinctSize(s[..n]);
      assert SetOf(s) == SetOf(s[..n]) + {s[n]};
    }
  }

  lemma AheadIsPrefix(rows: Rows, order: seq<PlayerId>, i: nat)
    requires SortedByKey(rows, order) && i < |order|
    requires i == 0 || !Tied(rows[order[i - 1]], rows[order[i]])
    ensures PlaceOf(rows, order[i]) == i + 1
  {
    forall q ensures q in AheadOf(rows, order[i]) <==> q in order[..i] {
      if q in AheadOf(rows, order[i]) {
        var j :| 0 <= j < |order| && order[j] == q;
        assert j < i;
        assert order[..i][j] == q;
      }
      if q in order[..i] {
        var j :| 0 <= j < i && order[j] == q;
        assert order[i - 1] in order && order[i] in order && order[j] in order;
        assert Ahead(rows[order[i - 1]], rows[order[i]]);
        assert j == i - 1 || !Ahead(rows[order[i - 1]], rows[order[j]]);
      }
    }
    assert AheadOf(rows, order[i]) == SetOf(order[..i]);
    DistinctSize(order[..i]);
  }

  lemma ScanExtends(rows: Rows, order: seq<PlayerId>, n: nat)
    requires (forall p :: p in order ==> p in rows) && 0 < n <= |order|
    ensures
      var before := ScanRanks(rows, order[..n - 1]);
      ScanRanks(rows, order[..n]) == before +
        [if n > 1 && Tied(rows[order[n - 2]], rows[order[n - 1]]) then before[n - 2] else n]
  {
    assert order[..n][..n - 1] == order[..n - 1];
  }

  lemma ScanLast(rows: Rows, order: seq<PlayerId>, n: nat)
    requires SortedByKey(rows, order) && 0 < n <= |order|
    requires n > 1 ==> order[n - 2] in rows && ScanRanks(rows, order[..n - 1])[n - 2] == PlaceOf(rows, order[n - 2])
    ensures order[n - 1] in rows && ScanRanks(rows, order[..n])[n - 1] == PlaceOf(rows, order[n - 1])
  {
    ScanExtends(rows, order, n);
    assert order[n - 1] in order;
    if n > 1 && Tied(rows[order[n - 2]], rows[order[n - 1]]) {
      PlaceOrder(rows, order[n - 2], order[n - 1]);
    } else {
      AheadIsPrefix(rows, order, n - 1);
    }
  }

  lemma {:induction false} ScanPrefix(rows: Rows, order: seq<PlayerId>, n: nat)
    requires SortedByKey(rows, order) && n <= |order|
    ensures forall i :: 0 <= i < n ==> order[i] in rows && ScanRanks(rows, order[..n])[i] == PlaceOf(rows, order[i])
  {
    if n == 0 {
    } else {
      ScanPrefix(rows, order, n - 1);
      ScanExtends(rows, order, n);
      ScanLast(rows, order, n);
    }
  }

  lemma ScanIsCount(rows: Rows, order: seq<PlayerId>)
    requires SortedByKey(rows, order)
    ensures forall i :: 0 <= i < |order| ==> order[i] in rows && ScanRanks(rows, order)[i] == PlaceOf(rows, order[i])
  {
    ScanPrefix(rows, order, |order|);
    assert order[..|order|] == order;
  }

  // RANK, not DENSE_RANK or ROW_NUMBER: a rank is the position at which the group of equal keys starts.
  lemma {:induction false} RankIsGroupStart(rows: Rows, order: seq<PlayerId>, i: nat) returns (k: nat)
    requires SortedByKey(rows, order) && i < |order|
    ensures k <= i && order[k] in rows && order[i] in rows && PlaceOf(rows, order[i]) == k + 1
    ensures rows[order[k]].score == rows[order[i]].score && rows[order[k]].joinedAt == rows[order[i]].joinedAt
    ensures forall j :: 0 <= j < k ==> order[j] in rows
    ensures forall j :: 0 <= j < k ==>
      var a, b := rows[order[j]], rows[order[i]];
      a.score > b.score || (a.score == b.score && a.joinedAt < b.joinedAt)
  {
    assert forall j :: 0 <= j < |order| ==> order[j] in order;
    if i > 0 && Tied(rows[order[i - 1]], rows[order[i]]) {
      k := RankIsGroupStart(rows, order, i - 1);
      PlaceOrder(rows, order[i - 1], order[i]);
    } else {
      k := i;
      AheadIsPrefix(rows, order, i);
      forall j | 0 <= j < k
        ensures rows[order[j]].score > rows[order[i]].score
          || (rows[order[j]].score == rows[order[i]].score && rows[order[j]].joinedAt < rows[order[i]].joinedAt)
      {
        assert Ahead(rows[order[i - 1]], rows[order[i]]);
      }
    }
  }

  lemma NoneAheadIsSorted(rows: Rows, order: seq<PlayerId>)
    requires Enumerates(rows, order)
    requires forall i, j :: 0 <= i < j < |order| ==> order[i] in rows && order[j] in rows
    requires forall i, j :: 0 <= i < j < |order| ==> !Ahead(rows[order[j]], rows[order[i]])
    ensures SortedByKey(rows, order)
  {
    forall i, j | 0 <= i < j < |order|
      ensures
        var a, b := rows[order[i]], rows[order[j]];
        a.score > b.score || (a.score == b.score && a.joinedAt <= b.joinedAt)
    {
      assert !Ahead(rows[order[j]], rows[order[i]]);
    }
  }

  lemma FirstEnumerates(rows: Rows, first: PlayerId, tail: seq<PlayerId>)
    requires first in rows && Enumerates(rows - {first}, tail)
    ensures Enumerates(rows, [first] + tail)
  {
    var order := [first] + tail;
    forall p ensures p in order <==> p in rows {
      assert p in order <==> p == first || p in tail;
      assert p in tail <==> p in rows - {first};
    }
    forall j | 0 <= j < |tail| ensures order[j + 1] == tail[j] && tail[j] != first {
      assert tail[j] in tail;
    }
  }

  lemma NoneAheadOfEarlier(rows: Rows, first: PlayerId, tail: seq<PlayerId>, i: nat, j: nat)
    requires first in rows && PlaceOf(rows, first) == 1
    requires SortedByKey(rows - {first}, tail) && i < j <= |tail|
    ensures
      var order := [first] + tail;
      order[i] in rows && order[j] in rows && !Ahead(rows[order[j]], rows[order[i]])
  {
    assert tail[j - 1] in tail;
    assert AheadOf(rows, first) == {};
    if i == 0 {
      assert tail[j - 1] !in AheadOf(rows, first);
    } else {
      assert tail[i - 1] in tail;
    }
  }

  lemma FirstThenRest(rows: Rows, first: PlayerId, tail: seq<PlayerId>)
    requires first in rows && PlaceOf(rows, first) == 1
    requires SortedByKey(rows - {first}, tail)
    ensures SortedByKey(rows, [first] + tail)
  {
    var order := [first] + tail;
    FirstEnumerates(rows, first, tail);
    forall i, j | 0 <= i < j < |order|
      ensures order[i] in rows && order[j] in rows && !Ahead(rows[order[j]], rows[order[i]])
    {
      NoneAheadOfEarlier(rows, first, tail, i, j);
    }
    NoneAheadIsSorted(rows, order);
  }

  // The database always has such an ordering to scan.
  lemma {:induction false} SortedOrderExists(rows: Rows) returns (order: seq<PlayerId>)
    ensures SortedByKey(rows, order)
  {
    if rows == map[] {
      order := [];
    } else {
      var start :| start in rows;
      var first := SomeoneIsFirst(rows, start);
      var tail := SortedOrderExists(rows - {first});
      FirstThenRest(rows, first, tail);
      order := [first] + tail;
    }
  }

  // ---------------------------------------------------------------- the entries sent to clients

  // An ordering the database may produce for ORDER BY score DESC, place ASC over rows with places.
  ghost predicate EntryOrder(rows: Rows, order: seq<PlayerId>) {
    && Enumerates(rows, order)
    && (forall p :: p in rows ==> rows[p].place.Some?)
    && (forall i, j :: 0 <= i < j < |order| ==>
      var a, b := rows[order[i]], rows[order[j]];
      a.score > b.score || (a.score == b.score && a.place.value <= b.place.value))
  }

  lemma FreshEntriesAreSorted(rows: Rows, order: seq<PlayerId>)
    requires Fresh(rows) && EntryOrder(rows, order)
    ensures SortedByKey(rows, order)
  {
    forall i, j | 0 <= i < j < |order| ensures !Ahead(rows[order[j]], rows[order[i]]) {
      assert order[i] in order && order[j] in order;
      PlaceOrder(rows, order[j], order[i]);
    }
    assert forall j :: 0 <= j < |order| ==> order[j] in order;
    NoneAheadIsSorted(rows, order);
  }

  ghost function EntryPlaces(rows: Rows, order: seq<PlayerId>): (places: seq<nat>)
    requires EntryOrder(rows, order)
    ensures |places| == |order|
  {
    seq(|order|, i requires 0 <= i < |order| => assert order[i] in order; rows[order[i]].place.value)
  }

  lemma EntryIsPlace(rows: Rows, order: seq<PlayerId>, i: nat)
    requires Fresh(rows) && EntryOrder(rows, order) && i < |order|
    ensures order[i] in rows && EntryPlaces(rows, order)[i] == PlaceOf(rows, order[i])
  {
    assert order[i] in order;
  }

  lemma EntriesAscend(rows: Rows, order: seq<PlayerId>, i: nat, j: nat)
    requires Fresh(rows) && EntryOrder(rows, order) && i < j < |order|
    ensures EntryPlaces(rows, order)[i] <= EntryPlaces(rows, order)[j]
  {
    EntryIsPlace(rows, order, i);
    EntryIsPlace(rows, order, j);
    FreshEntriesAreSorted(rows, order);
    PlaceOrder(rows, order[j], order[i]);
  }

  // The entries read after a recalculation carry the ranks of their own positions, first place first.
  lemma EntriesCarryRanks(rows: Rows, order: seq<PlayerId>)
    requires Fresh(rows) && EntryOrder(rows, order)
    ensures EntryPlaces(rows, order) == ScanRanks(rows, order)
    ensures forall i, j :: 0 <= i < j < |order| ==> EntryPlaces(rows, order)[i] <= EntryPlaces(rows, order)[j]
    ensures order != [] ==> EntryPlaces(rows, order)[0] == 1
  {
    var places, ranks := EntryPlaces(rows, order), ScanRanks(rows, order);
    FreshEntriesAreSorted(rows, order);
    ScanIsCount(rows, order);
    forall i | 0 <= i < |order| ensures places[i] == ranks[i] {
      EntryIsPlace(rows, order, i);
    }
    forall i, j | 0 <= i < j < |order| ensures places[i] <= places[j] {
      EntriesAscend(rows, order, i, j);
    }
    if order != [] {
      AheadIsPrefix(rows, order, 0);
    }
  }

  // The browser sorts the entries again by place, with a stable sort; here by insertion.
  function StableInsert(e: (PlayerId, nat), sorted: seq<(PlayerId, nat)>): seq<(PlayerId, nat)> {
    if sorted == [] || e.1 <= sorted[0].1 then [e] + sorted else [sorted[0]] + StableInsert(e, sorted[1..])
  }

  function StableSort(entries: seq<(PlayerId, nat)>): seq<(PlayerId, nat)> {
    if entries == [] then [] else StableInsert(entries[0], StableSort(entries[1..]))
  }

  // The entries of one place, in order.
  function OfPlace(entries: seq<(PlayerId, nat)>, place: nat): seq<(PlayerId, nat)> {
    if entries == [] then []
    else (if entries[0].1 == place then [entries[0]] else []) + OfPlace(entries[1..], place)
  }

  ghost predicate ByPlace(entries: seq<(PlayerId, nat)>) {
    forall i, j :: 0 <= i < j < |entries| ==> entries[i].1 <= entries[j].1
  }

  lemma {:induction false} InsertSorted(e: (PlayerId, nat), sorted: seq<(PlayerId, nat)>)
    requires ByPlace(sorted)
    ensures ByPlace(StableInsert(e, sorted))
    ensures
      var all := StableInsert(e, sorted);
      all != [] && (all[0] == e || (sorted != [] && all[0] == sorted[0] && sorted[0].1 < e.1))
  {
    if sorted == [] || e.1 <= sorted[0].1 {
    } else {
      var rest := sorted[1..];
      assert forall i :: 0 <= i < |rest| ==> rest[i] == sorted[i + 1];
      InsertSorted(e, rest);
      var tail := StableInsert(e, rest);
      assert forall i :: 0 <= i < |tail| ==> tail[0].1 <= tail[i].1;
    }
  }

  lemma OfPlaceFirst(e: (PlayerId, nat), rest: seq<(PlayerId, nat)>, place: nat)
    ensures OfPlace([e] + rest, place) == if e.1 == place then [e] + OfPlace(rest, place) else OfPlace(rest, place)
  {
    assert ([e] + rest)[1..] == rest;
  }

  lemma {:induction false} InsertOfPlace(e: (PlayerId, nat), sorted: seq<(PlayerId, nat)>, place: nat)
    ensures OfPlace(StableInsert(e, sorted), place) == OfPlace([e] + sorted, place)
  {
    if sorted == [] || e.1 <= sorted[0].1 {
    } else {
      var first, rest := sorted[0], sorted[1..];
      assert sorted == [first] + rest;
      InsertOfPlace(e, rest, place);
      OfPlaceFirst(first, StableInsert(e, rest), place);
      OfPlaceFirst(e, rest, place);
      OfPlaceFirst(e, sorted, place);
      OfPlaceFirst(first, rest, place);
    }
  }

  // It sorts by place, and leaves the entries of each place in their order.
  lemma {:induction false} StableSortSorts(entries: seq<(PlayerId, nat)>, place: nat)
    ensures
      var all := StableSort(entries);
      && (forall i, j :: 0 <= i < j < |all| ==> all[i].1 <= all[j].1)
      && OfPlace(all, place) == OfPlace(entries, place)
  {
    if entries == [] {
    } else {
      StableSortSorts(entries[1..], place);
      InsertSorted(entries[0], StableSort(entries[1..]));
      InsertOfPlace(entries[0], StableSort(entries[1..]), place);
      OfPlaceFirst(entries[0], StableSort(entries[1..]), place);
      OfPlaceFirst(entries[0], entries[1..], place);
      assert entries == [entries[0]] + entries[1..];
    }
  }

  ghost function Entries(rows: Rows, order: seq<PlayerId>): (es: seq<(PlayerId, nat)>)
    requires EntryOrder(rows, order)
    ensures |es| == |order|
  {
    seq(|order|, i requires 0 <= i < |order| => (order[i], EntryPlaces(rows, order)[i]))
  }

  lemma {:induction false} SortedStaysPut(entries: seq<(PlayerId, nat)>)
    requires forall i, j :: 0 <= i < j < |entries| ==> entries[i].1 <= entries[j].1
    ensures StableSort(entries) == entries
  {
    if entries == [] {
    } else {
      SortedStaysPut(entries[1..]);
      assert |entries| > 1 ==> entries[1..][0] == entries[1];
    }
  }

  lemma ClientSortChangesNothing(rows: Rows, order: seq<PlayerId>)
    requires Fresh(rows) && EntryOrder(rows, order)
    ensures StableSort(Entries(rows, order)) == Entries(rows, order)
  {
    EntriesCarryRanks(rows, order);
    SortedStaysPut(Entries(rows, order));
  }

  // ---------------------------------------------------------------- recalculation: snapshot, then write

  datatype Ranked = Ranked(rowId: nat, place: nat)

  // What the ranking query computes from the rows it sees.
  function SnapshotOf(rows: Rows): map<PlayerId, Ranked> {
    map p | p in rows :: Ranked(rows[p].rowId, PlaceOf(rows, p))
  }

  // Storing a snapshot touches only the rows it was taken of: a row deleted since is skipped,
  // and so is a row inserted since, even one of the same player.
  function WritePlaces(rows: Rows, snap: map<PlayerId, Ranked>): Rows {
    map p | p in rows ::
      if p in snap && snap[p].rowId == rows[p].rowId then rows[p].(place := Some(snap[p].place)) else rows[p]
  }

  // Two tables that differ at most in their places.
  ghost predicate SameButPlaces(a: Rows, b: Rows) {
    && a.Keys == b.Keys
    && forall p :: p in a ==> a[p].(place := None) == b[p].(place := None)
  }

  lemma PlacesIgnorePlaces(a: Rows, b: Rows)
    requires SameButPlaces(a, b)
    ensures forall p :: p in a ==> PlaceOf(a, p) == PlaceOf(b, p)
    ensures SnapshotOf(a) == SnapshotOf(b)
  {
    forall p | p in a ensures a[p].rowId == b[p].rowId && !Ahead(a[p], b[p]) && Tied(a[p], b[p]) {
      assert a[p].(place := None).rowId == b[p].(place := None).rowId;
      assert Tied(a[p].(place := None), b[p].(place := None));
    }
    forall p | p in a ensures PlaceOf(a, p) == PlaceOf(b, p) {
      assert AheadOf(a, p) == AheadOf(b, p);
    }
  }

  lemma CurrentSnapshotRefreshes(rows: Rows)
    ensures Fresh(WritePlaces(rows, SnapshotOf(rows)))
  {
    var after := WritePlaces(rows, SnapshotOf(rows));
    assert SameButPlaces(rows, after);
    PlacesIgnorePlaces(rows, after);
  }

  // Every place a snapshot would store is the place the rows call for.
  ghost predicate Agrees(rows: Rows, snap: map<PlayerId, Ranked>) {
    forall p :: p in rows && p in snap && snap[p].rowId == rows[p].rowId ==> snap[p].place == PlaceOf(rows, p)
  }

  // What leaderboardMu prevents: a snapshot stored after a newer one leaves the places right only if it agrees
  // with the current rows.
  lemma LateStoreFreshIff(rows: Rows, older: map<PlayerId, Ranked>)
    ensures Fresh(WritePlaces(WritePlaces(rows, SnapshotOf(rows)), older)) <==> Agrees(rows, older)
  {
    var newer := WritePlaces(rows, SnapshotOf(rows));
    var late := WritePlaces(newer, older);
    assert SameButPlaces(rows, late);
    PlacesIgnorePlaces(rows, late);
    forall p | p in rows
      ensures late[p].place == Some(PlaceOf(late, p))
        <==> (p in older && older[p].rowId == rows[p].rowId ==> older[p].place == PlaceOf(rows, p))
    {
      assert newer[p].rowId == rows[p].rowId && newer[p].place == Some(PlaceOf(rows, p));
    }
  }
}
