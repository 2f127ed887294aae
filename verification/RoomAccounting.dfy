/**
Conservation in a room: of points, of accepted submissions, and of submission rows, for any number of consumers.
*/
module RoomAccounting {
  import opened Options
  import opened Ranking
  import opened RoomHub

  // ---------------------------------------------------------------- points

  function CreditsTo(log: seq<Credit>, row: nat): nat {
    if log == [] then 0
    else CreditsTo(log[..|log| - 1], row) + (if log[|log| - 1].row == Some(row) then 1 else 0)
  }

  lemma CreditsToAppend(log: seq<Credit>, e: Credit, row: nat)
    ensures CreditsTo(log + [e], row) == CreditsTo(log, row) + (if e.row == Some(row) then 1 else 0)
  {
    assert (log + [e])[..|log|] == log;
  }

  lemma {:induction false} NoCreditsBeyond(log: seq<Credit>, bound: nat, row: nat)
    requires forall i :: 0 <= i < |log| && log[i].row.Some? ==> log[i].row.value < bound
    requires bound <= row
    ensures CreditsTo(log, row) == 0
  {
    if log == [] {
    } else {
      NoCreditsBeyond(log[..|log| - 1], bound, row);
    }
  }

  // A score is the row's first score plus fifty points for each credit logged against that row.
  predicate RowConserved(book: Book, row: Row) {
    row.rowId in book.origin && row.score == book.origin[row.rowId] + AWARD * CreditsTo(book.log, row.rowId)
  }

  ghost predicate Conserved(book: Book, rows: Rows) {
    && RowsKnown(book, rows)
    && (forall i :: 0 <= i < |book.log| && book.log[i].row.Some? ==> book.log[i].row.value < book.nextRow)
    && (forall p :: p in rows ==> RowConserved(book, rows[p]))
  }

  // Rows that keep their identities, and whose scores follow the longer log, still conserve.
  lemma ConservedAfter(book: Book, rows: Rows, book': Book, rows': Rows, e: Credit)
    requires Conserved(book, rows)
    requires book'.origin == book.origin && book'.nextRow == book.nextRow && book'.log == book.log + [e]
    requires e.row.Some? ==> e.row.value < book.nextRow
    requires rows'.Keys == rows.Keys
    requires forall p :: p in rows ==>
      rows'[p].rowId == rows[p].rowId
      && rows'[p].score == rows[p].score + (if e.row == Some(rows[p].rowId) then AWARD else 0)
    ensures Conserved(book', rows')
  {
    forall p | p in rows' ensures RowConserved(book', rows'[p]) {
      assert RowConserved(book, rows[p]);
      CreditsToAppend(book.log, e, rows[p].rowId);
    }
  }

  lemma CreditConserves(book: Book, res: Judged, rows: Rows)
    requires rows == RowsOf(book.db, res.sub.room) && Conserved(book, rows) && res.score == AWARD
    ensures Conserved(Credited(book, res), RowsOf(Credited(book, res).db, res.sub.room))
  {
    var p := res.sub.player;
    if p in rows {
      var rows' := rows[p := rows[p].(score := rows[p].score + res.score)];
      assert RowsOf(Credited(book, res).db, res.sub.room) == rows';
      ConservedAfter(book, rows, Credited(book, res), rows', Credit(res.id, p, Some(rows[p].rowId)));
    } else {
      ConservedAfter(book, rows, Credited(book, res), rows, Credit(res.id, p, None));
    }
  }

  lemma InsertConserves(book: Book, rows: Rows, p: PlayerId, room: RoomId, now: int)
    requires rows == RowsOf(book.db, room) && Conserved(book, rows)
    ensures Conserved(Inserted(book, p, room, now), RowsOf(Inserted(book, p, room, now).db, room))
  {
    var rows' := rows[p := Row(book.nextRow, 0, now, None)];
    assert RowsOf(Inserted(book, p, room, now).db, room) == rows';
    NoCreditsBeyond(book.log, book.nextRow, book.nextRow);
    forall q | q in rows' ensures RowConserved(Inserted(book, p, room, now), rows'[q]) {
      assert q != p ==> RowConserved(book, rows[q]);
    }
  }

  lemma DeleteConserves(book: Book, p: PlayerId, room: RoomId)
    requires Conserved(book, RowsOf(book.db, room))
    ensures Conserved(Deleted(book, p, room), RowsOf(Deleted(book, p, room).db, room))
  {
    var rows' := RowsOf(book.db, room) - {p};
    assert RowsOf(Deleted(book, p, room).db, room) == rows';
    forall q | q in rows' ensures RowConserved(Deleted(book, p, room), rows'[q]) {
      assert RowConserved(book, rows'[q]);
    }
  }

  lemma StoreConserves(book: Book, room: RoomId, snap: map<PlayerId, Ranked>)
    requires Conserved(book, RowsOf(book.db, room))
    ensures Conserved(Stored(book, room, snap), RowsOf(Stored(book, room, snap).db, room))
  {
    var rows := RowsOf(book.db, room);
    var rows' := WritePlaces(rows, snap);
    assert RowsOf(Stored(book, room, snap).db, room) == rows';
    forall q | q in rows' ensures RowConserved(Stored(book, room, snap), rows'[q]) {
      assert RowConserved(book, rows[q]);
    }
  }

  lemma ConservedStep(s: Hub, st: Step)
    requires Sound(s) && Enabled(s, st) && Conserved(s.book, Members(s))
    ensures Conserved(NextBook(s, st), RowsOf(NextBook(s, st).db, s.room))
  {
    match st
    case AddScore(c, ok) => if ok { CreditConserves(s.book, s.pcs[c].res, Members(s)); }
    case Insert(c, now, ok) => if ok { InsertConserves(s.book, Members(s), s.pcs[c].player, s.room, now); }
    case Delete(c, ok) => if ok { DeleteConserves(s.book, s.pcs[c].player, s.room); }
    case StorePlaces(c) => StoreConserves(s.book, s.room, s.pcs[c].snap);
    case _ => assert NextBook(s, st) == s.book;
  }

  // First scores never change, and a row inserted during the run started at zero.
  ghost predicate OriginsSince(start: Book, now: Book) {
    && start.nextRow <= now.nextRow
    && forall r :: r in now.origin ==>
      if r < start.nextRow then r in start.origin && now.origin[r] == start.origin[r] else now.origin[r] == 0
  }

  lemma OriginsStep(start: Book, s: Hub, st: Step)
    requires OriginsSince(start, s.book) && Enabled(s, st)
    ensures OriginsSince(start, NextBook(s, st))
  {
  }

  // A credit that hit a row still there was earned by that row's player.
  ghost predicate CreditsMatch(book: Book, rows: Rows) {
    && (forall i :: 0 <= i < |book.log| && book.log[i].row.Some? ==> book.log[i].row.value < book.nextRow)
    && (forall i, p :: 0 <= i < |book.log| && p in rows && book.log[i].row == Some(rows[p].rowId) ==>
      book.log[i].player == p)
  }

  lemma MatchAfterCredit(book: Book, res: Judged, rows: Rows)
    requires rows == RowsOf(book.db, res.sub.room) && RowsKnown(book, rows) && CreditsMatch(book, rows)
    ensures CreditsMatch(Credited(book, res), RowsOf(Credited(book, res).db, res.sub.room))
  {
    var book' := Credited(book, res);
    var rows' := RowsOf(book'.db, res.sub.room);
    assert rows'.Keys == rows.Keys;
    forall i, p | 0 <= i < |book'.log| && p in rows' && book'.log[i].row == Some(rows'[p].rowId)
      ensures book'.log[i].player == p
    {
      assert rows'[p].rowId == rows[p].rowId;
      if i < |book.log| {
        assert book'.log[i] == book.log[i];
      }
    }
  }

  lemma MatchStep(s: Hub, st: Step)
    requires Sound(s) && Enabled(s, st) && RowsKnown(s.book, Members(s)) && CreditsMatch(s.book, Members(s))
    ensures CreditsMatch(NextBook(s, st), RowsOf(NextBook(s, st).db, s.room))
  {
    match st
    case AddScore(c, ok) => if ok { MatchAfterCredit(s.book, s.pcs[c].res, Members(s)); }
    case Insert(c, now, ok) =>
    case Delete(c, ok) =>
    case StorePlaces(c) =>
    case _ => assert NextBook(s, st) == s.book;
  }

  lemma {:induction false} ConservedRun(start: Book, s: Hub, steps: seq<Step>)
    requires Sound(s) && Conserved(s.book, Members(s)) && OriginsSince(start, s.book) && IsRun(s, steps)
    requires CreditsMatch(s.book, Members(s))
    ensures Conserved(Exec(s, steps).book, Members(Exec(s, steps))) && OriginsSince(start, Exec(s, steps).book)
    ensures CreditsMatch(Exec(s, steps).book, Members(Exec(s, steps)))
    decreases |steps|
  {
    if steps == [] {
    } else {
      SoundStep(s, steps[0]);
      ConservedStep(s, steps[0]);
      OriginsStep(start, s, steps[0]);
      MatchStep(s, steps[0]);
      ConservedRun(start, Apply(s, steps[0]), steps[1..]);
    }
  }

  lemma StartedConserves(s: Hub)
    requires Started(s)
    ensures Sound(s) && Conserved(s.book, Members(s)) && CreditsMatch(s.book, Members(s))
    ensures OriginsSince(s.book, s.book)
  {
    forall p | p in Members(s) ensures RowConserved(s.book, Members(s)[p]) {
    }
  }

  lemma RowScore(start: Book, now: Book, rows: Rows, p: PlayerId)
    requires Conserved(now, rows) && OriginsSince(start, now) && p in rows
    ensures
      var row := rows[p];
      if row.rowId < start.nextRow
      then row.rowId in start.origin && row.score == start.origin[row.rowId] + AWARD * CreditsTo(now.log, row.rowId)
      else row.score == AWARD * CreditsTo(now.log, row.rowId)
  {
    assert RowConserved(now, rows[p]);
  }

  // Whatever the interleaving and whichever writes fail, a member whose row was inserted during the run has
  // exactly fifty points for each credit to that row; an older row has those on top of its first score.
  lemma ScoresAreCredits(s: Hub, steps: seq<Step>, p: PlayerId)
    requires Started(s) && IsRun(s, steps) && p in Members(Exec(s, steps))
    ensures
      var end := Exec(s, steps);
      var row := Members(end)[p];
      if row.rowId < s.book.nextRow
      then row.rowId in s.book.origin
        && row.score == s.book.origin[row.rowId] + 50 * CreditsTo(end.book.log, row.rowId)
      else row.score == 50 * CreditsTo(end.book.log, row.rowId)
  {
    StartedConserves(s);
    ConservedRun(s.book, s, steps);
    RowScore(s.book, Exec(s, steps).book, Members(Exec(s, steps)), p);
  }

  // The credits on a member's row were all earned by that member's own submissions.
  lemma CreditsAreEarned(s: Hub, steps: seq<Step>, p: PlayerId, i: nat)
    requires Started(s) && IsRun(s, steps) && p in Members(Exec(s, steps))
    requires i < |Exec(s, steps).book.log|
    requires Exec(s, steps).book.log[i].row == Some(Members(Exec(s, steps))[p].rowId)
    ensures Exec(s, steps).book.log[i].player == p
  {
    StartedConserves(s);
    ConservedRun(s.book, s, steps);
  }
}
