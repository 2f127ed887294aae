/**
Freshness of the leaderboard under concurrency: places differ from the ranks of the current rows only while some
consumer still owes a recalculation, or after a recalculation failed.
*/
module Freshness {
  import opened Ranking
  import opened RoomHub

  // Consumer `c` will still store the ranks of rows at least as new as the current ones.
  predicate Owes(s: Hub, c: nat)
    requires c < |s.pcs|
  {
    var pc := s.pcs[c];
    pc.WantLock? || pc.Locked? || (pc.Snapped? && pc.snap == SnapshotOf(Members(s)))
  }

  ghost predicate SomeoneOwes(s: Hub) {
    exists c :: 0 <= c < |s.pcs| && Owes(s, c)
  }

  ghost predicate SomeoneWaits(s: Hub) {
    exists c :: 0 <= c < |s.pcs| && s.pcs[c].WantLock?
  }

  // A consumer about to store ranks of older rows has another one waiting behind it.
  ghost predicate OldSnapshotsFollowed(s: Hub) {
    forall c :: 0 <= c < |s.pcs| && s.pcs[c].Snapped? && s.pcs[c].snap != SnapshotOf(Members(s)) ==> SomeoneWaits(s)
  }

  ghost predicate Tracked(s: Hub) {
    && (Fresh(Members(s)) || s.missed || SomeoneOwes(s))
    && OldSnapshotsFollowed(s)
  }

  // A step that leaves the rows and the debts of the others alone.
  lemma KeepsTracked(s: Hub, s': Hub, c: nat)
    requires c < |s.pcs| == |s'.pcs| && s'.pcs == s.pcs[c := s'.pcs[c]]
    requires Members(s') == Members(s) && (s.missed ==> s'.missed)
    requires Owes(s, c) ==> Owes(s', c)
    requires s.pcs[c].WantLock? ==> s'.pcs[c].WantLock? || (forall d :: 0 <= d < |s.pcs| ==> !s.pcs[d].Snapped?)
    requires s'.pcs[c].Snapped? ==> s'.pcs[c].snap == SnapshotOf(Members(s))
    requires Tracked(s)
    ensures Tracked(s')
  {
    if SomeoneOwes(s) {
      var d :| 0 <= d < |s.pcs| && Owes(s, d);
      assert Owes(s', d);
    }
    if SomeoneWaits(s) {
      var d :| 0 <= d < |s.pcs| && s.pcs[d].WantLock?;
      assert d != c ==> s'.pcs[d].WantLock?;
    }
  }

  // A step that changes the rows leaves its consumer waiting to recalculate.
  lemma ChangeIsTracked(s': Hub, c: nat)
    requires c < |s'.pcs| && s'.pcs[c].WantLock?
    ensures Tracked(s')
  {
    assert Owes(s', c);
  }

  lemma StoreTracked(s: Hub, c: nat)
    requires Sound(s) && Tracked(s) && Enabled(s, StorePlaces(c))
    ensures Tracked(Apply(s, StorePlaces(c)))
  {
    var s' := Apply(s, StorePlaces(c));
    SoundStep(s, StorePlaces(c));
    if s.pcs[c].snap == SnapshotOf(Members(s)) {
      CurrentSnapshotRefreshes(Members(s));
      assert Fresh(Members(s'));
    } else {
      var d :| 0 <= d < |s.pcs| && s.pcs[d].WantLock?;
      assert s'.pcs[d].WantLock?;
      assert Owes(s', d);
    }
  }

  lemma RowsKept(s: Hub, st: Step)
    requires Enabled(s, st) && !st.StorePlaces?
    requires !FromOutside(st) ==> !NextPc(s, st).WantLock?
    ensures Members(Apply(s, st)) == Members(s)
  {
    assert NextBook(s, st) == s.book;
  }

  lemma TrackedStep(s: Hub, st: Step)
    requires Sound(s) && Tracked(s) && Enabled(s, st)
    ensures Tracked(Apply(s, st))
  {
    var s' := Apply(s, st);
    if st.StorePlaces? {
      StoreTracked(s, st.c);
    } else if FromOutside(st) {
      RowsKept(s, st);
      if SomeoneOwes(s) {
        var d :| 0 <= d < |s.pcs| && Owes(s, d);
        assert Owes(s', d);
      }
      if SomeoneWaits(s) {
        var d :| 0 <= d < |s.pcs| && s.pcs[d].WantLock?;
        assert s'.pcs[d].WantLock?;
      }
    } else if NextPc(s, st).WantLock? {
      ChangeIsTracked(s', st.c);
    } else {
      RowsKept(s, st);
      if st.RecalcFails? {
        RecalcFailureTracked(s, st.c);
      } else {
        KeepsTracked(s, s', st.c);
      }
    }
  }

  lemma RecalcFailureTracked(s: Hub, c: nat)
    requires Sound(s) && Tracked(s) && Enabled(s, RecalcFails(c))
    ensures Tracked(Apply(s, RecalcFails(c)))
  {
    SoundStep(s, RecalcFails(c));
  }

  lemma {:induction false} TrackedRun(s: Hub, steps: seq<Step>)
    requires Sound(s) && Tracked(s) && IsRun(s, steps)
    ensures Sound(Exec(s, steps)) && Tracked(Exec(s, steps))
    decreases |steps|
  {
    if steps == [] {
    } else {
      SoundStep(s, steps[0]);
      TrackedStep(s, steps[0]);
      TrackedRun(Apply(s, steps[0]), steps[1..]);
    }
  }

  // For any number of consumers and every interleaving.
  lemma StaleIsOwed(s: Hub, steps: seq<Step>)
    requires Started(s) && IsRun(s, steps)
    ensures
      var end := Exec(s, steps);
      !Fresh(Members(end)) ==> end.missed || exists c :: 0 <= c < |end.pcs| && Owes(end, c)
  {
    TrackedRun(s, steps);
  }

  // Once every consumer is idle and the last recalculation went through, every place is right.
  lemma IdleHubIsFresh(s: Hub, steps: seq<Step>)
    requires Started(s) && IsRun(s, steps)
    requires var end := Exec(s, steps);
      !end.missed && forall c :: 0 <= c < |end.pcs| ==> end.pcs[c].Idle?
    ensures Fresh(Members(Exec(s, steps)))
  {
    TrackedRun(s, steps);
  }

  // More generally, once nobody owes a recalculation any more.
  lemma UnowedRoomIsFresh(s: Hub, steps: seq<Step>)
    requires Started(s) && IsRun(s, steps)
    requires var end := Exec(s, steps); !end.missed && forall c :: 0 <= c < |end.pcs| ==> !Owes(end, c)
    ensures Fresh(Members(Exec(s, steps)))
  {
    TrackedRun(s, steps);
  }

  // For any number of consumers: entries read after a recalculation that went through, when nobody owes another, are
  // the ranks of their positions, in place order from the first place on; the browser's second sort leaves them as
  // they are.
  lemma EntriesReadAreRanks(s: Hub, steps: seq<Step>, rows: Rows, order: seq<PlayerId>)
    requires Started(s) && IsRun(s, steps)
    requires var end := Exec(s, steps);
      !end.missed && rows == Members(end) && forall c :: 0 <= c < |end.pcs| ==> !Owes(end, c)
    requires EntryOrder(rows, order)
    ensures EntryPlaces(rows, order) == ScanRanks(rows, order)
    ensures forall i, j :: 0 <= i < j < |order| ==> EntryPlaces(rows, order)[i] <= EntryPlaces(rows, order)[j]
    ensures order != [] ==> EntryPlaces(rows, order)[0] == 1
    ensures StableSort(Entries(rows, order)) == Entries(rows, order)
  {
    UnowedRoomIsFresh(s, steps);
    EntriesCarryRanks(rows, order);
    ClientSortChangesNothing(rows, order);
  }

  // A sole consumer that reads owes nothing itself, and there is nobody else.
  lemma SoleReaderSeesRanks(s: Hub, steps: seq<Step>, rows: Rows, order: seq<PlayerId>)
    requires Started(s) && IsRun(s, steps)
    requires var end := Exec(s, steps); |end.pcs| == 1 && end.pcs[0].Reading? && !end.missed && rows == Members(end)
    requires EntryOrder(rows, order)
    ensures EntryPlaces(rows, order) == ScanRanks(rows, order)
  {
    EntriesReadAreRanks(s, steps, rows, order);
  }
}
