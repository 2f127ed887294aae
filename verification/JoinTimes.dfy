/**
What the handlers' statements write into the rows of a room, column by column, and what becomes of a row's join time
over a run: it is the time of its insertion, and it decides between equal scores.
*/
module JoinTimes {
  import opened Options
  import opened Ranking
  import opened RoomHub

  // ---------------------------------------------------------------- what each statement writes

  // A player is added with score 0, the current time, no place, and a row of its own; nobody else's row changes.
  lemma InsertWrites(s: Hub, st: Step)
    requires Sound(s) && RowsKnown(s.book, Members(s)) && Enabled(s, st) && st.Insert? && st.ok
    ensures
      var p, rows, rows' := s.pcs[st.c].player, Members(s), Members(Apply(s, st));
      && p !in rows && rows'.Keys == rows.Keys + {p}
      && (forall q :: q in rows ==> rows'[q] == rows[q] && rows[q].rowId != rows'[p].rowId)
      && rows'[p].score == 0 && rows'[p].joinedAt == st.now && rows'[p].place == None
  {
    assert PcOk(s.room, s.pcs[st.c]);
  }

  // It may fail, and it may succeed for every player without a row, at any time.
  lemma InsertPossible(s: Hub, c: nat, now: int, ok: bool)
    requires Sound(s) && c < |s.pcs| && s.pcs[c].JoinInsert?
    ensures Enabled(s, Insert(c, now, ok)) <==> !ok || s.pcs[c].player !in Members(s)
  {
    assert PcOk(s.room, s.pcs[c]);
  }

  lemma DeleteWrites(s: Hub, st: Step)
    requires Sound(s) && Enabled(s, st) && st.Delete? && st.ok
    ensures
      var p, rows, rows' := s.pcs[st.c].player, Members(s), Members(Apply(s, st));
      rows'.Keys == rows.Keys - {p} && forall q :: q in rows' ==> rows'[q] == rows[q]
  {
    assert PcOk(s.room, s.pcs[st.c]);
  }

  // Storing places writes nothing but places: the snapshot's, for the rows it was taken of.
  lemma StoreWrites(s: Hub, st: Step)
    requires Sound(s) && Enabled(s, st) && st.StorePlaces?
    ensures
      var snap, rows, rows' := s.pcs[st.c].snap, Members(s), Members(Apply(s, st));
      && rows'.Keys == rows.Keys
      && (forall q :: q in rows ==>
        rows'[q].rowId == rows[q].rowId && rows'[q].score == rows[q].score && rows'[q].joinedAt == rows[q].joinedAt)
      && (forall q :: q in rows ==>
        rows'[q].place == if q in snap && snap[q].rowId == rows[q].rowId then Some(snap[q].place) else rows[q].place)
  {
  }

  // A successful credit adds fifty points to the player's row, if there is one, and writes nothing else.
  lemma CreditWrites(s: Hub, st: Step)
    requires Sound(s) && Enabled(s, st) && st.AddScore? && st.ok
    ensures
      var p, rows, rows' := s.pcs[st.c].res.sub.player, Members(s), Members(Apply(s, st));
      && rows'.Keys == rows.Keys
      && (forall q :: q in rows && q != p ==> rows'[q] == rows[q])
      && (p in rows ==>
        && rows'[p].score == rows[p].score + 50
        && rows'[p].rowId == rows[p].rowId && rows'[p].joinedAt == rows[p].joinedAt && rows'[p].place == rows[p].place)
  {
    assert PcOk(s.room, s.pcs[st.c]);
  }

  // Every other step leaves the rows alone.
  lemma OthersWriteNoRows(s: Hub, st: Step)
    requires Enabled(s, st) && !st.StorePlaces? && !((st.Insert? || st.Delete? || st.AddScore?) && st.ok)
    ensures Members(Apply(s, st)) == Members(s)
  {
    assert NextBook(s, st) == s.book;
  }

  // ---------------------------------------------------------------- over runs

  // Step `n` inserts the player at time `now`, into row `rowId`.
  ghost predicate JoinsAt(s: Hub, steps: seq<Step>, n: nat, p: PlayerId, now: int, rowId: nat)
    requires IsRun(s, steps) && n < |steps|
  {
    AtEnabled(s, steps, n);
    var before := At(s, steps, n);
    && steps[n].Insert? && steps[n].ok && steps[n].now == now && before.pcs[steps[n].c].player == p
    && before.book.nextRow == rowId
  }

  lemma RowStays(s: Hub, st: Step, p: PlayerId)
    requires Sound(s) && Enabled(s, st) && p in Members(Apply(s, st))
    ensures
      var row := Members(Apply(s, st))[p];
      || (p in Members(s) && Members(s)[p].rowId == row.rowId && Members(s)[p].joinedAt == row.joinedAt)
      || (st.Insert? && st.ok && st.now == row.joinedAt && s.pcs[st.c].player == p && s.book.nextRow == row.rowId)
  {
    if st.StorePlaces? {
      StoreWrites(s, st);
    } else if st.AddScore? && st.ok {
      CreditWrites(s, st);
    } else if st.Delete? && st.ok {
      DeleteWrites(s, st);
    } else if st.Insert? && st.ok {
      assert PcOk(s.room, s.pcs[st.c]);
    } else {
      OthersWriteNoRows(s, st);
    }
  }

  lemma NextRowGrows(s: Hub, st: Step)
    requires Enabled(s, st)
    ensures Apply(s, st).book.nextRow >= s.book.nextRow
  {
  }

  lemma JoinsLater(s: Hub, steps: seq<Step>, n: nat, p: PlayerId, now: int, rowId: nat)
    requires IsRun(s, steps) && steps != [] && n < |steps| - 1
    requires JoinsAt(Apply(s, steps[0]), steps[1..], n, p, now, rowId)
    ensures JoinsAt(s, steps, n + 1, p, now, rowId)
  {
    AtEnabled(Apply(s, steps[0]), steps[1..], n);
  }

  // No step changes the join time of a row: a member's row was there at the start, with the same join time, or
  // some step of the run inserted it at that time. `n` is that step, or the length of the run.
  lemma {:induction false} RowOrigin(s: Hub, steps: seq<Step>, p: PlayerId) returns (n: nat)
    requires Sound(s) && IsRun(s, steps) && p in Members(Exec(s, steps))
    ensures n <= |steps|
    ensures
      var row := Members(Exec(s, steps))[p];
      if n < |steps| then JoinsAt(s, steps, n, p, row.joinedAt, row.rowId) && row.rowId >= s.book.nextRow
      else p in Members(s) && Members(s)[p].rowId == row.rowId && Members(s)[p].joinedAt == row.joinedAt
    decreases |steps|
  {
    if steps == [] {
      n := 0;
    } else {
      var s1, rest := Apply(s, steps[0]), steps[1..];
      SoundStep(s, steps[0]);
      NextRowGrows(s, steps[0]);
      n := RowOrigin(s1, rest, p);
      var end := Members(Exec(s, steps))[p];
      if n < |rest| {
        JoinsLater(s, steps, n, p, end.joinedAt, end.rowId);
        n := n + 1;
      } else {
        RowStays(s, steps[0], p);
        var row := Members(s1)[p];
        if p in Members(s) && Members(s)[p].rowId == row.rowId && Members(s)[p].joinedAt == row.joinedAt {
          n := |steps|;
        } else {
          n := 0;
        }
      }
    }
  }

  // Two members who joined during the run: their rows hold the times of their insertions, and with equal scores the
  // one inserted earlier is ranked better.
  lemma EarlierJoinerAhead(s: Hub, steps: seq<Step>, p: PlayerId, q: PlayerId) returns (m: nat, n: nat)
    requires Started(s) && IsRun(s, steps) && p in Members(Exec(s, steps)) && q in Members(Exec(s, steps))
    requires Members(Exec(s, steps))[p].rowId >= s.book.nextRow && Members(Exec(s, steps))[q].rowId >= s.book.nextRow
    requires Members(Exec(s, steps))[p].score == Members(Exec(s, steps))[q].score
    ensures m < |steps| && steps[m].Insert? && n < |steps| && steps[n].Insert?
    ensures JoinsAt(s, steps, m, p, steps[m].now, Members(Exec(s, steps))[p].rowId)
    ensures JoinsAt(s, steps, n, q, steps[n].now, Members(Exec(s, steps))[q].rowId)
    ensures PlaceOf(Members(Exec(s, steps)), p) < PlaceOf(Members(Exec(s, steps)), q) <==> steps[m].now < steps[n].now
  {
    m := RowOrigin(s, steps, p);
    n := RowOrigin(s, steps, q);
    PlaceOrder(Members(Exec(s, steps)), p, q);
  }
}
