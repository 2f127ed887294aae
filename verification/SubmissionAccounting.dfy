/**
What happens to submissions in a room, for any number of consumers: none is duplicated, none disappears,
and a submission row is answered, credited and settled at most once.
*/
module SubmissionAccounting {
  import opened Options
  import opened Ranking
  import opened RoomHub
  import opened Bags
  import Progress

  // The submission a message or a consumer carries, if any.

  function Carried(m: Msg): Option<Submission> {
    match m
    case SolutionSubmitted(sub) => Some(sub)
    case SolutionResult(res) => Some(res.sub)
    case _ => None
  }

  // The result a consumer has already credited but not yet marked.
  function PaidBy(pc: Pc): Option<Judged> {
    match pc
    case WantLock(ByCredit(res)) => Some(res)
    case Locked(ByCredit(res)) => Some(res)
    case Snapped(ByCredit(res), _) => Some(res)
    case Reading(ByCredit(res)) => Some(res)
    case Marking(res) => Some(res)
    case _ => None
  }

  function InHand(pc: Pc): Option<Submission> {
    match pc
    case Submitting(sub) => Some(sub)
    case Judging(sub, _) => Some(sub)
    case Sending(res) => Some(res.sub)
    case Settling(res) => Some(res.sub)
    case _ => if PaidBy(pc).Some? then Some(PaidBy(pc).value.sub) else None
  }

  function TicketOf(sub: Option<Submission>): multiset<nat> {
    if sub.Some? then multiset{sub.value.ticket} else multiset{}
  }

  function MsgTicket(m: Msg): multiset<nat> {
    TicketOf(Carried(m))
  }

  function PcTicket(pc: Pc): multiset<nat> {
    TicketOf(InHand(pc))
  }

  // In how many places a ticket is: queued (as submission or result), in hand, settled, failed.
  function PlacesOfTicket(s: Hub, t: nat): nat {
    Count(s.mailbox, MsgTicket, t) + Count(s.pcs, PcTicket, t)
    + Flag(t in s.ledger.settled) + Flag(t in s.ledger.failed)
  }

  predicate TicketOk(s: Hub, t: nat) {
    PlacesOfTicket(s, t) == Flag(t < s.ledger.issued)
  }

  // Consumer `c` takes a submission from the mailbox, puts it back as a result, keeps it, or finishes it.
  ghost predicate HandsOn(s: Hub, s': Hub, c: nat)
    requires c < |s.pcs| == |s'.pcs|
  {
    var h, h' := InHand(s.pcs[c]), InHand(s'.pcs[c]);
    var l, l' := s.ledger, s'.ledger;
    || (s.mailbox != [] && s'.mailbox == s.mailbox[1..] && h == None && h' == Carried(s.mailbox[0]) && l' == l)
    || (exists m :: s'.mailbox == s.mailbox + [m] && Carried(m) == h && h' == None && l'.(answers := l.answers) == l)
    || (s'.mailbox == s.mailbox && h' == h && l' == l)
    || (s'.mailbox == s.mailbox && h.Some? && h' == None && l' == Lost(l, h.value))
    || (s'.mailbox == s.mailbox && h.Some? && h' == None && l'.(settled := l.settled) == l
        && l'.settled.Keys == l.settled.Keys + {h.value.ticket})
  }

  lemma StepKeepsOrEnds(s: Hub, st: Step)
    requires Enabled(s, st) && !FromOutside(st) && !st.Take? && !st.SendResult?
    ensures NextMailbox(s, st) == s.mailbox
    ensures
      var h, h' := InHand(s.pcs[st.c]), InHand(NextPc(s, st));
      var l, l' := s.ledger, NextLedger(s, st);
      || (h' == h && l' == l)
      || (h.Some? && h' == None && l' == Lost(l, h.value))
      || (h.Some? && h' == None && l'.(settled := l.settled) == l
          && l'.settled.Keys == l.settled.Keys + {h.value.ticket})
  {
  }

  lemma StepHandsOn(s: Hub, st: Step)
    requires Enabled(s, st) && !FromOutside(st)
    ensures HandsOn(s, Apply(s, st), st.c)
  {
    if st.SendResult? {
      var m := SolutionResult(s.pcs[st.c].res);
      assert Apply(s, st).mailbox == s.mailbox + [m] && Carried(m) == InHand(s.pcs[st.c]);
    } else if !st.Take? {
      StepKeepsOrEnds(s, st);
      assert Apply(s, st).pcs[st.c] == NextPc(s, st);
    }
  }

  lemma TicketHandedOn(s: Hub, s': Hub, c: nat, t: nat)
    requires c < |s.pcs| == |s'.pcs| && s'.pcs == s.pcs[c := s'.pcs[c]] && HandsOn(s, s', c)
    requires TicketOk(s, t)
    ensures TicketOk(s', t)
  {
    CountUpdate(s.pcs, c, s'.pcs[c], PcTicket, t);
    if s.mailbox != [] {
      CountTail(s.mailbox, MsgTicket, t);
    }
    if m :| s'.mailbox == s.mailbox + [m] && Carried(m) == InHand(s.pcs[c]) {
      CountAppend(s.mailbox, m, MsgTicket, t);
    }
  }

  lemma TicketStep(s: Hub, st: Step, t: nat)
    requires Enabled(s, st) && TicketOk(s, t)
    ensures TicketOk(Apply(s, st), t)
  {
    if FromOutside(st) {
      if NextMailbox(s, st) != s.mailbox {
        CountAppend(s.mailbox, NextMailbox(s, st)[|s.mailbox|], MsgTicket, t);
      }
    } else {
      StepHandsOn(s, st);
      TicketHandedOn(s, Apply(s, st), st.c, t);
    }
  }

  lemma {:induction false} TicketRun(s: Hub, steps: seq<Step>, t: nat)
    requires IsRun(s, steps) && TicketOk(s, t)
    ensures TicketOk(Exec(s, steps), t)
    decreases |steps|
  {
    if steps == [] {
    } else {
      TicketStep(s, steps[0], t);
      TicketRun(Apply(s, steps[0]), steps[1..], t);
    }
  }

  // Every submission accepted into the mailbox is at all times in exactly one place.
  lemma EachSubmissionInOnePlace(s: Hub, steps: seq<Step>, t: nat)
    requires Started(s) && IsRun(s, steps)
    ensures
      var end := Exec(s, steps);
      Count(end.mailbox, MsgTicket, t) + Count(end.pcs, PcTicket, t)
        + Flag(t in end.ledger.settled) + Flag(t in end.ledger.failed)
      == Flag(t < end.ledger.issued)
  {
    BagEmpty(s.mailbox, MsgTicket);
    BagEmpty(s.pcs, PcTicket);
    TicketRun(s, steps, t);
  }

  // ---------------------------------------------------------------- submission rows

  // The row a consumer is handling, and how far it has come.
  datatype Stage =
    | NoRow
    | Unanswered(id: SubmissionId)    // no result put into the mailbox yet
    | Answered(id: SubmissionId)      // result taken, nothing credited
    | Paid(id: SubmissionId)          // credited, not yet marked

  function StageOf(pc: Pc): Stage {
    match pc
    case Judging(_, id) => Unanswered(id)
    case Sending(res) => Unanswered(res.id)
    case Settling(res) => Answered(res.id)
    case _ => if PaidBy(pc).Some? then Paid(PaidBy(pc).value.id) else NoRow
  }

  function UnansweredId(pc: Pc): multiset<nat> {
    if StageOf(pc).Unanswered? then multiset{StageOf(pc).id} else multiset{}
  }

  function AnsweredId(pc: Pc): multiset<nat> {
    if StageOf(pc).Answered? then multiset{StageOf(pc).id} else multiset{}
  }

  function PaidId(pc: Pc): multiset<nat> {
    if StageOf(pc).Paid? then multiset{StageOf(pc).id} else multiset{}
  }

  function ResultId(m: Msg): multiset<nat> {
    if m.SolutionResult? then multiset{m.res.id} else multiset{}
  }

  function CreditsFor(log: seq<Credit>, id: SubmissionId): nat {
    if log == [] then 0
    else CreditsFor(log[..|log| - 1], id) + Flag(log[|log| - 1].id == id)
  }

  lemma CreditsForAppend(log: seq<Credit>, e: Credit, id: SubmissionId)
    ensures CreditsFor(log + [e], id) == CreditsFor(log, id) + Flag(e.id == id)
  {
    assert (log + [e])[..|log|] == log;
  }

  // The traces one row leaves: where it is being handled, and how often it was answered and credited.
  datatype Trace = Trace(unanswered: nat, queued: nat, answered: nat, paid: nat, answers: nat, credits: nat)

  function TraceOf(s: Hub, id: SubmissionId): Trace {
    Trace(
      Count(s.pcs, UnansweredId, id),
      Count(s.mailbox, ResultId, id),
      Count(s.pcs, AnsweredId, id),
      Count(s.pcs, PaidId, id),
      s.ledger.answers[id],
      CreditsFor(s.book.log, id))
  }

  lemma UnansweredStep(pcs: seq<Pc>, c: nat, pc': Pc, id: SubmissionId)
    requires c < |pcs|
    ensures Count(pcs[c := pc'], UnansweredId, id)
      == Count(pcs, UnansweredId, id) - Flag(StageOf(pcs[c]) == Unanswered(id)) + Flag(StageOf(pc') == Unanswered(id))
    ensures Flag(StageOf(pcs[c]) == Unanswered(id)) <= Count(pcs, UnansweredId, id)
  {
    CountUpdate(pcs, c, pc', UnansweredId, id);
  }

  lemma AnsweredStep(pcs: seq<Pc>, c: nat, pc': Pc, id: SubmissionId)
    requires c < |pcs|
    ensures Count(pcs[c := pc'], AnsweredId, id)
      == Count(pcs, AnsweredId, id) - Flag(StageOf(pcs[c]) == Answered(id)) + Flag(StageOf(pc') == Answered(id))
    ensures Flag(StageOf(pcs[c]) == Answered(id)) <= Count(pcs, AnsweredId, id)
  {
    CountUpdate(pcs, c, pc', AnsweredId, id);
  }

  lemma PaidStep(pcs: seq<Pc>, c: nat, pc': Pc, id: SubmissionId)
    requires c < |pcs|
    ensures Count(pcs[c := pc'], PaidId, id)
      == Count(pcs, PaidId, id) - Flag(StageOf(pcs[c]) == Paid(id)) + Flag(StageOf(pc') == Paid(id))
    ensures Flag(StageOf(pcs[c]) == Paid(id)) <= Count(pcs, PaidId, id)
  {
    CountUpdate(pcs, c, pc', PaidId, id);
  }

  lemma QueueStep(s: Hub, st: Step, id: SubmissionId)
    requires Enabled(s, st)
    ensures
      var t, t' := TraceOf(s, id), TraceOf(Apply(s, st), id);
      match st
      case Take(_) => t.queued == t'.queued + ResultId(s.mailbox[0])[id]
      case SendResult(c) => t'.queued == t.queued + Flag(s.pcs[c].res.id == id)
      case _ => t'.queued == t.queued
  {
    match st
    case Take(_) => CountTail(s.mailbox, ResultId, id);
    case SendResult(c) => CountAppend(s.mailbox, SolutionResult(s.pcs[c].res), ResultId, id);
    case Submit(_) =>
      if HasRoom(s) { CountAppend(s.mailbox, NextMailbox(s, st)[|s.mailbox|], ResultId, id); }
    case Arrive(m) => CountAppend(s.mailbox, m, ResultId, id);
    case _ =>
  }

  lemma WritesStep(s: Hub, st: Step, id: SubmissionId)
    requires Enabled(s, st)
    ensures NextLedger(s, st).answers[id] == s.ledger.answers[id] + Flag(st.SendResult? && s.pcs[st.c].res.id == id)
    ensures CreditsFor(NextBook(s, st).log, id)
      == CreditsFor(s.book.log, id) + Flag(st.AddScore? && st.ok && s.pcs[st.c].res.id == id)
  {
    if st.AddScore? && st.ok {
      var res := s.pcs[st.c].res;
      CreditsForAppend(s.book.log, NextBook(s, st).log[|s.book.log|], id);
    } else {
      assert NextBook(s, st).log == s.book.log;
    }
  }

  // How a step moves the row in the consumer's hands, and what it does to its status.
  lemma StageStep(s: Hub, st: Step)
    requires Enabled(s, st) && !FromOutside(st)
    ensures
      var g, g' := StageOf(s.pcs[st.c]), StageOf(NextPc(s, st));
      match st
      case Take(_) => g == NoRow && NextSubs(s, st) == s.subs
        && g' == (if s.mailbox[0].SolutionResult? then Answered(s.mailbox[0].res.id) else NoRow)
      case CreateRow(_, id) => g == NoRow && g' == Unanswered(id) && id !in s.subs
        && NextSubs(s, st) == s.subs[id := Pending]
      case SendResult(_) => g == Unanswered(s.pcs[st.c].res.id) && g' == NoRow && NextSubs(s, st) == s.subs
      case MarkWrong(_, ok) => g.Answered? && g' == NoRow
        && NextSubs(s, st) == if ok then s.subs[g.id := WrongAnswer] else s.subs
      case AddScore(_, ok) => g == Answered(s.pcs[st.c].res.id) && g' == (if ok then Paid(g.id) else NoRow)
        && NextSubs(s, st) == s.subs
      case MarkAccepted(_, ok) => g.Paid? && g' == NoRow
        && NextSubs(s, st) == if ok then s.subs[g.id := Accepted] else s.subs
      case _ => (g' == g || g' == NoRow) && NextSubs(s, st) == s.subs
  {
  }

  // A row made during the run is handled once, by one handler at a time; an older row is left alone.
  predicate RowOk(before: map<SubmissionId, Status>, subs: map<SubmissionId, Status>, id: SubmissionId, t: Trace) {
    var busy := t.unanswered + t.queued + t.answered + t.paid;
    if id in before then
      id in subs && subs[id] == before[id] && t == Trace(0, 0, 0, 0, 0, 0)
    else if id !in subs then
      t == Trace(0, 0, 0, 0, 0, 0)
    else
      && busy <= 1 && (busy == 1 ==> subs[id] == Pending)
      && t.answers <= 1 && (t.unanswered == 1 ==> t.answers == 0)
      && t.credits <= 1 && (t.unanswered + t.queued + t.answered == 1 ==> t.credits == 0)
      && (t.paid == 1 ==> t.credits == 1)
      && (subs[id] == Accepted ==> t.credits == 1)
      && (subs[id] == WrongAnswer ==> t.credits == 0)
  }

  // What a consumer step may do to row `id`, in terms of the consumer's stage before and after.
  ghost predicate RowMoves(s: Hub, s': Hub, g: Stage, g': Stage, id: SubmissionId) {
    var q, q' := Count(s.mailbox, ResultId, id), Count(s'.mailbox, ResultId, id);
    var a, a' := s.ledger.answers[id], s'.ledger.answers[id];
    var k, k' := CreditsFor(s.book.log, id), CreditsFor(s'.book.log, id);
    var same := q' == q && a' == a && k' == k;
    // take
    || (g == NoRow && (g' == NoRow || g'.Answered?) && q == q' + Flag(g' == Answered(id))
        && a' == a && k' == k && s'.subs == s.subs)
    // create the row
    || (g == NoRow && g'.Unanswered? && g'.id !in s.subs && s'.subs == s.subs[g'.id := Pending] && same)
    // answer
    || (g.Unanswered? && g' == NoRow && q' == q + Flag(g.id == id) && a' == a + Flag(g.id == id)
        && k' == k && s'.subs == s.subs)
    // credit
    || (g.Answered? && g' == Paid(g.id) && k' == k + Flag(g.id == id) && q' == q && a' == a && s'.subs == s.subs)
    // mark
    || (g.Answered? && g' == NoRow && s'.subs == s.subs[g.id := WrongAnswer] && same)
    || (g.Paid? && g' == NoRow && s'.subs == s.subs[g.id := Accepted] && same)
    // go on, or give up
    || ((g' == g || g' == NoRow) && s'.subs == s.subs && same)
  }

  lemma StepMovesRow(s: Hub, st: Step, id: SubmissionId)
    requires Enabled(s, st) && !FromOutside(st)
    ensures RowMoves(s, Apply(s, st), StageOf(s.pcs[st.c]), StageOf(NextPc(s, st)), id)
  {
    QueueStep(s, st, id);
    WritesStep(s, st, id);
    StageStep(s, st);
  }

  lemma RowMoved(before: map<SubmissionId, Status>, s: Hub, s': Hub, c: nat, id: SubmissionId)
    requires c < |s.pcs| == |s'.pcs| && s'.pcs == s.pcs[c := s'.pcs[c]]
    requires RowMoves(s, s', StageOf(s.pcs[c]), StageOf(s'.pcs[c]), id)
    requires RowOk(before, s.subs, id, TraceOf(s, id))
    ensures RowOk(before, s'.subs, id, TraceOf(s', id))
    ensures id in s.subs ==> id in s'.subs && (s.subs[id] != Pending ==> s'.subs[id] == s.subs[id])
  {
    UnansweredStep(s.pcs, c, s'.pcs[c], id);
    AnsweredStep(s.pcs, c, s'.pcs[c], id);
    PaidStep(s.pcs, c, s'.pcs[c], id);
  }

  lemma RowStep(before: map<SubmissionId, Status>, s: Hub, st: Step, id: SubmissionId)
    requires Enabled(s, st) && RowOk(before, s.subs, id, TraceOf(s, id))
    ensures RowOk(before, Apply(s, st).subs, id, TraceOf(Apply(s, st), id))
    ensures id in s.subs ==>
      id in Apply(s, st).subs && (s.subs[id] != Pending ==> Apply(s, st).subs[id] == s.subs[id])
  {
    if FromOutside(st) {
      QueueStep(s, st, id);
      WritesStep(s, st, id);
    } else {
      StepMovesRow(s, st, id);
      RowMoved(before, s, Apply(s, st), st.c, id);
    }
  }

  lemma {:induction false} RowRun(before: map<SubmissionId, Status>, s: Hub, steps: seq<Step>, id: SubmissionId)
    requires IsRun(s, steps) && RowOk(before, s.subs, id, TraceOf(s, id))
    ensures RowOk(before, Exec(s, steps).subs, id, TraceOf(Exec(s, steps), id))
    ensures id in s.subs ==>
      id in Exec(s, steps).subs && (s.subs[id] != Pending ==> Exec(s, steps).subs[id] == s.subs[id])
    decreases |steps|
  {
    if steps == [] {
    } else {
      RowStep(before, s, steps[0], id);
      RowRun(before, Apply(s, steps[0]), steps[1..], id);
    }
  }

  lemma StartedRowOk(s: Hub, id: SubmissionId)
    requires Started(s)
    ensures RowOk(s.subs, s.subs, id, TraceOf(s, id))
  {
    BagEmpty(s.mailbox, ResultId);
    BagEmpty(s.pcs, UnansweredId);
    BagEmpty(s.pcs, AnsweredId);
    BagEmpty(s.pcs, PaidId);
  }

  // A row gets at most one result and at most one credit over a whole run; it ends accepted only if
  // credited, wrong only if not, and rows from before the run keep their status and earn nothing.
  lemma RowsHandledOnce(s: Hub, steps: seq<Step>, id: SubmissionId)
    requires Started(s) && IsRun(s, steps)
    ensures
      var end := Exec(s, steps);
      && end.ledger.answers[id] <= 1
      && CreditsFor(end.book.log, id) <= 1
      && (id in s.subs ==> id in end.subs && end.subs[id] == s.subs[id] && CreditsFor(end.book.log, id) == 0)
      && (id in end.subs && id !in s.subs && end.subs[id] == Accepted ==> CreditsFor(end.book.log, id) == 1)
      && (id in end.subs && id !in s.subs && end.subs[id] == WrongAnswer ==> CreditsFor(end.book.log, id) == 0)
  {
    StartedRowOk(s, id);
    RowRun(s.subs, s, steps, id);
  }

  // A row leaves pending at most once and never returns to it.
  lemma SettledForGood(s: Hub, first: seq<Step>, more: seq<Step>, id: SubmissionId)
    requires Started(s) && IsRun(s, first) && IsRun(Exec(s, first), more)
    requires id in Exec(s, first).subs && Exec(s, first).subs[id] != Pending
    ensures IsRun(s, first + more)
    ensures id in Exec(s, first + more).subs && Exec(s, first + more).subs[id] == Exec(s, first).subs[id]
  {
    StartedRowOk(s, id);
    RowRun(s.subs, s, first, id);
    RowRun(s.subs, Exec(s, first), more, id);
    RunThenRun(s, first, more);
  }

  // ---------------------------------------------------------------- what a credit does

  // The step writes a score update for row `id`.
  predicate CreditsRow(s: Hub, st: Step, id: SubmissionId)
    requires Enabled(s, st)
  {
    st.AddScore? && st.ok && s.pcs[st.c].res.id == id
  }

  ghost predicate CreditsRowAt(s: Hub, steps: seq<Step>, n: nat, id: SubmissionId)
    requires IsRun(s, steps) && n < |steps|
  {
    AtEnabled(s, steps, n);
    CreditsRow(At(s, steps, n), steps[n], id)
  }

  lemma {:induction false} CreditsOnlyGrow(s: Hub, steps: seq<Step>, id: SubmissionId)
    requires IsRun(s, steps)
    ensures CreditsFor(Exec(s, steps).book.log, id) >= CreditsFor(s.book.log, id)
    ensures CreditsFor(Exec(s, steps).book.log, id) == CreditsFor(s.book.log, id) ==>
      forall n :: 0 <= n < |steps| ==> !CreditsRowAt(s, steps, n, id)
    decreases |steps|
  {
    if steps == [] {
    } else {
      var s1, rest := Apply(s, steps[0]), steps[1..];
      WritesStep(s, steps[0], id);
      CreditsOnlyGrow(s1, rest, id);
      if CreditsFor(Exec(s, steps).book.log, id) == CreditsFor(s.book.log, id) {
        forall n | 0 <= n < |steps| ensures !CreditsRowAt(s, steps, n, id) {
          assert n > 0 ==> !CreditsRowAt(s1, rest, n - 1, id);
        }
      }
    }
  }

  // One more credit in the log means exactly one crediting step.
  lemma {:induction false} TheCreditStep(s: Hub, steps: seq<Step>, id: SubmissionId) returns (n: nat)
    requires IsRun(s, steps) && CreditsFor(Exec(s, steps).book.log, id) == CreditsFor(s.book.log, id) + 1
    ensures n < |steps| && CreditsRowAt(s, steps, n, id)
    ensures forall m :: 0 <= m < |steps| && CreditsRowAt(s, steps, m, id) ==> m == n
    decreases |steps|
  {
    var s1, rest := Apply(s, steps[0]), steps[1..];
    WritesStep(s, steps[0], id);
    if CreditsRow(s, steps[0], id) {
      n := 0;
      CreditsOnlyGrow(s1, rest, id);
      forall m | 0 <= m < |steps| && CreditsRowAt(s, steps, m, id) ensures m == n {
        assert m > 0 ==> !CreditsRowAt(s1, rest, m - 1, id);
      }
    } else {
      n := TheCreditStep(s1, rest, id);
      n := n + 1;
      forall m | 0 <= m < |steps| && CreditsRowAt(s, steps, m, id) ensures m == n {
        assert m > 0 ==> CreditsRowAt(s1, rest, m - 1, id);
      }
    }
  }

  // Points are added to the player's row, and to no other, exactly when there is one.
  ghost predicate Rewards(rows: Rows, rows': Rows, p: PlayerId) {
    && rows'.Keys == rows.Keys
    && (forall q :: q in rows && q != p ==> rows'[q] == rows[q])
    && (p in rows ==> rows'[p] == rows[p].(score := rows[p].score + AWARD))
  }

  lemma CreditRewards(s: Hub, st: Step, id: SubmissionId)
    requires Sound(s) && Enabled(s, st) && CreditsRow(s, st, id)
    ensures Rewards(Members(s), Members(Apply(s, st)), s.pcs[st.c].res.sub.player)
  {
    assert PcOk(s.room, s.pcs[st.c]);
  }

  ghost predicate RewardsAt(s: Hub, steps: seq<Step>, n: nat)
    requires IsRun(s, steps) && n < |steps| && steps[n].AddScore?
  {
    AtEnabled(s, steps, n);
    var now := At(s, steps, n);
    Rewards(Members(now), Members(Apply(now, steps[n])), now.pcs[steps[n].c].res.sub.player)
  }

  // A row that ends accepted was credited by exactly one step of the run; that step gave its player fifty points if
  // the player had a row then, and otherwise gave points to nobody.
  lemma AcceptedIsRewardedOnce(s: Hub, steps: seq<Step>, id: SubmissionId) returns (n: nat)
    requires Started(s) && IsRun(s, steps)
    requires id !in s.subs && id in Exec(s, steps).subs && Exec(s, steps).subs[id] == Accepted
    ensures n < |steps| && CreditsRowAt(s, steps, n, id) && RewardsAt(s, steps, n)
    ensures forall m :: 0 <= m < |steps| && CreditsRowAt(s, steps, m, id) ==> m == n
  {
    RowsHandledOnce(s, steps, id);
    n := TheCreditStep(s, steps, id);
    AtEnabled(s, steps, n);
    SoundAt(s, steps, n);
    CreditRewards(At(s, steps, n), steps[n], id);
  }

  // ---------------------------------------------------------------- points without a verdict

  // Credited, pending, and in nobody's hands.
  predicate Abandoned(s: Hub, id: SubmissionId) {
    && id in s.subs && s.subs[id] == Pending
    && TraceOf(s, id).(answers := 0) == Trace(0, 0, 0, 0, 0, 1)
  }

  lemma AbandonedMoved(s: Hub, s': Hub, c: nat, id: SubmissionId)
    requires c < |s.pcs| == |s'.pcs| && s'.pcs == s.pcs[c := s'.pcs[c]]
    requires RowMoves(s, s', StageOf(s.pcs[c]), StageOf(s'.pcs[c]), id) && Abandoned(s, id)
    ensures Abandoned(s', id)
  {
    UnansweredStep(s.pcs, c, s'.pcs[c], id);
    AnsweredStep(s.pcs, c, s'.pcs[c], id);
    PaidStep(s.pcs, c, s'.pcs[c], id);
  }

  lemma AbandonedStep(s: Hub, st: Step, id: SubmissionId)
    requires Enabled(s, st) && Abandoned(s, id)
    ensures Abandoned(Apply(s, st), id)
  {
    if FromOutside(st) {
      QueueStep(s, st, id);
      WritesStep(s, st, id);
    } else {
      StepMovesRow(s, st, id);
      AbandonedMoved(s, Apply(s, st), st.c, id);
    }
  }

  lemma {:induction false} AbandonedRun(s: Hub, steps: seq<Step>, id: SubmissionId)
    requires Abandoned(s, id) && IsRun(s, steps)
    ensures Abandoned(Exec(s, steps), id)
    decreases |steps|
  {
    if steps == [] {
    } else {
      AbandonedStep(s, steps[0], id);
      AbandonedRun(Apply(s, steps[0]), steps[1..], id);
    }
  }

  // The row is in one consumer's hands, who has credited it.
  predicate OnlyPaid(s: Hub, id: SubmissionId) {
    && id in s.subs && s.subs[id] == Pending
    && TraceOf(s, id).(answers := 0) == Trace(0, 0, 0, 1, 0, 1)
  }

  lemma PaidIsAlone(before: map<SubmissionId, Status>, s: Hub, c: nat, id: SubmissionId)
    requires c < |s.pcs| && StageOf(s.pcs[c]) == Paid(id) && RowOk(before, s.subs, id, TraceOf(s, id))
    ensures OnlyPaid(s, id)
  {
    PaidStep(s.pcs, c, Idle, id);
  }

  lemma GivingUpAbandons(s: Hub, st: Step, id: SubmissionId)
    requires Enabled(s, st) && (st.ReadEntries? || st.MarkAccepted?) && !st.ok
    requires StageOf(s.pcs[st.c]) == Paid(id) && OnlyPaid(s, id)
    ensures Abandoned(Apply(s, st), id)
  {
    StageStep(s, st);
    assert StageOf(NextPc(s, st)) == NoRow && NextSubs(s, st) == s.subs;
    QueueStep(s, st, id);
    WritesStep(s, st, id);
    LeavesHands(s, Apply(s, st), st.c, id);
  }

  lemma LeavesHands(s: Hub, s': Hub, c: nat, id: SubmissionId)
    requires c < |s.pcs| == |s'.pcs| && s'.pcs == s.pcs[c := s'.pcs[c]]
    requires StageOf(s.pcs[c]) == Paid(id) && StageOf(s'.pcs[c]) == NoRow && OnlyPaid(s, id)
    requires s'.subs == s.subs && Count(s'.mailbox, ResultId, id) == Count(s.mailbox, ResultId, id)
    requires CreditsFor(s'.book.log, id) == CreditsFor(s.book.log, id)
    ensures Abandoned(s', id)
  {
    PaidStep(s.pcs, c, s'.pcs[c], id);
    UnansweredStep(s.pcs, c, s'.pcs[c], id);
    AnsweredStep(s.pcs, c, s'.pcs[c], id);
  }

  // After crediting row `id` a consumer cannot read the entries or mark the row, and gives up.
  predicate DropsVerdict(s: Hub, st: Step, id: SubmissionId)
    requires Enabled(s, st)
  {
    (st.ReadEntries? || st.MarkAccepted?) && !st.ok && StageOf(s.pcs[st.c]) == Paid(id)
  }

  predicate NeverDrops(s: Hub, steps: seq<Step>, id: SubmissionId)
    requires IsRun(s, steps)
    decreases |steps|
  {
    steps == [] || (!DropsVerdict(s, steps[0], id) && NeverDrops(Apply(s, steps[0]), steps[1..], id))
  }

  // A credited row that no consumer is still handling is marked accepted.
  predicate PaidOff(s: Hub, id: SubmissionId) {
    CreditsFor(s.book.log, id) == 1 && Count(s.pcs, PaidId, id) == 0 ==> id in s.subs && s.subs[id] == Accepted
  }

  lemma PaidGoesOn(s: Hub, st: Step, id: SubmissionId)
    requires Enabled(s, st) && !FromOutside(st) && !DropsVerdict(s, st, id) && StageOf(s.pcs[st.c]) == Paid(id)
    ensures StageOf(NextPc(s, st)) == Paid(id) || (id in NextSubs(s, st) && NextSubs(s, st)[id] == Accepted)
  {
  }

  lemma CreditingPays(s: Hub, st: Step, id: SubmissionId)
    requires Enabled(s, st) && CreditsRow(s, st, id)
    ensures StageOf(NextPc(s, st)) == Paid(id)
  {
  }

  lemma PaidOffStep(before: map<SubmissionId, Status>, s: Hub, st: Step, id: SubmissionId)
    requires Enabled(s, st) && RowOk(before, s.subs, id, TraceOf(s, id)) && PaidOff(s, id)
    requires !DropsVerdict(s, st, id)
    ensures PaidOff(Apply(s, st), id)
  {
    var s' := Apply(s, st);
    WritesStep(s, st, id);
    RowStep(before, s, st, id);
    if !FromOutside(st) {
      PaidStep(s.pcs, st.c, NextPc(s, st), id);
      if StageOf(s.pcs[st.c]) == Paid(id) {
        PaidGoesOn(s, st, id);
      } else if CreditsRow(s, st, id) {
        CreditingPays(s, st, id);
      }
    }
  }

  lemma {:induction false} PaidOffRun(before: map<SubmissionId, Status>, s: Hub, steps: seq<Step>, id: SubmissionId)
    requires IsRun(s, steps) && RowOk(before, s.subs, id, TraceOf(s, id)) && PaidOff(s, id)
    ensures if NeverDrops(s, steps, id) then PaidOff(Exec(s, steps), id) else Abandoned(Exec(s, steps), id)
    decreases |steps|
  {
    if steps == [] {
    } else {
      var s1 := Apply(s, steps[0]);
      if DropsVerdict(s, steps[0], id) {
        PaidIsAlone(before, s, steps[0].c, id);
        GivingUpAbandons(s, steps[0], id);
        AbandonedRun(s1, steps[1..], id);
      } else {
        PaidOffStep(before, s, steps[0], id);
        RowStep(before, s, steps[0], id);
        PaidOffRun(before, s1, steps[1..], id);
      }
    }
  }

  // Once a credited submission is in nobody's hands it is marked accepted if and only if its consumer did not fail
  // to read the entries or to mark the row after crediting it; otherwise it stays pending, for good.
  lemma CreditedGetsVerdictIff(s: Hub, steps: seq<Step>, id: SubmissionId)
    requires Started(s) && IsRun(s, steps) && id !in s.subs
    requires CreditsFor(Exec(s, steps).book.log, id) == 1 && Count(Exec(s, steps).pcs, PaidId, id) == 0
    ensures
      var end := Exec(s, steps);
      && id in end.subs
      && end.subs[id] == (if NeverDrops(s, steps, id) then Accepted else Pending)
  {
    StartedRowOk(s, id);
    PaidOffRun(s.subs, s, steps, id);
  }

  // A step that drops the verdict decides it for every continuation.
  lemma CreditWithoutVerdict(s: Hub, first: seq<Step>, st: Step, id: SubmissionId, more: seq<Step>)
    requires Started(s) && IsRun(s, first) && Enabled(Exec(s, first), st) && DropsVerdict(Exec(s, first), st, id)
    requires IsRun(Apply(Exec(s, first), st), more)
    ensures
      var end := Exec(Apply(Exec(s, first), st), more);
      id in end.subs && end.subs[id] == Pending && CreditsFor(end.book.log, id) == 1
  {
    StartedRowOk(s, id);
    RowRun(s.subs, s, first, id);
    PaidIsAlone(s.subs, Exec(s, first), st.c, id);
    GivingUpAbandons(Exec(s, first), st, id);
    AbandonedRun(Apply(Exec(s, first), st), more, id);
  }

  // ---------------------------------------------------------------- nothing is left undecided

  lemma DrainedRoomDecidesAll(s: Hub, steps: seq<Step>, t: nat)
    requires Started(s) && IsRun(s, steps) && Progress.Drained(Exec(s, steps))
    ensures
      var end := Exec(s, steps);
      Flag(t in end.ledger.settled) + Flag(t in end.ledger.failed) == Flag(t < end.ledger.issued)
  {
    EachSubmissionInOnePlace(s, steps, t);
    BagEmpty(Exec(s, steps).mailbox, MsgTicket);
    BagEmpty(Exec(s, steps).pcs, PcTicket);
  }

  // In a room that cannot wedge, once the consumers stop every accepted submission is settled or has failed, and
  // not both.
  lemma StoppedRoomDecidesAll(s: Hub, first: seq<Step>, more: seq<Step>, t: nat)
    requires Started(s) && s.pcs != [] && IsRun(s, first) && !Progress.MayWedge(Exec(s, first))
    requires IsRun(Exec(s, first), more) && Progress.OnlyConsumers(more)
    requires Progress.Stopped(Exec(Exec(s, first), more))
    ensures
      var end := Exec(Exec(s, first), more);
      Flag(t in end.ledger.settled) + Flag(t in end.ledger.failed) == Flag(t < end.ledger.issued)
  {
    SoundRun(s, first);
    Progress.StopsOnlyWhenDrained(Exec(s, first), more);
    RunThenRun(s, first, more);
    DrainedRoomDecidesAll(s, first + more, t);
  }

  // The step stores the verdict on the submission with ticket `t`.
  predicate StoresVerdict(s: Hub, st: Step, t: nat)
    requires Enabled(s, st)
  {
    (st.MarkWrong? || st.MarkAccepted?) && st.ok && s.pcs[st.c].res.sub.ticket == t
  }

  ghost predicate StoresVerdictAt(s: Hub, steps: seq<Step>, n: nat, t: nat)
    requires IsRun(s, steps) && n < |steps|
  {
    AtEnabled(s, steps, n);
    StoresVerdict(At(s, steps, n), steps[n], t)
  }

  // A submission counts as settled exactly when some step of the run stored its verdict; so it counts as failed
  // exactly when it has been dealt with otherwise.
  lemma {:induction false} SettledIff(s: Hub, steps: seq<Step>, t: nat)
    requires IsRun(s, steps)
    ensures t in Exec(s, steps).ledger.settled <==>
      t in s.ledger.settled || exists n :: 0 <= n < |steps| && StoresVerdictAt(s, steps, n, t)
    decreases |steps|
  {
    if steps == [] {
    } else {
      var s1, rest := Apply(s, steps[0]), steps[1..];
      SettledIff(s1, rest, t);
      assert t in s1.ledger.settled <==> t in s.ledger.settled || StoresVerdict(s, steps[0], t);
      if n :| 0 <= n < |rest| && StoresVerdictAt(s1, rest, n, t) {
        assert StoresVerdictAt(s, steps, n + 1, t);
      }
      if StoresVerdict(s, steps[0], t) {
        assert StoresVerdictAt(s, steps, 0, t);
      }
      if n :| 0 <= n < |steps| && StoresVerdictAt(s, steps, n, t) {
        assert n > 0 ==> StoresVerdictAt(s1, rest, n - 1, t);
      }
    }
  }

  // The submissions a run accepts into the mailbox: those that find a free slot.
  function AcceptedIn(s: Hub, steps: seq<Step>): nat
    requires IsRun(s, steps)
    decreases |steps|
  {
    if steps == [] then 0
    else Flag(steps[0].Submit? && |s.mailbox| < 10) + AcceptedIn(Apply(s, steps[0]), steps[1..])
  }

  lemma {:induction false} IssuedIsAccepted(s: Hub, steps: seq<Step>)
    requires IsRun(s, steps)
    ensures Exec(s, steps).ledger.issued == s.ledger.issued + AcceptedIn(s, steps)
    decreases |steps|
  {
    if steps == [] {
    } else {
      IssuedIsAccepted(Apply(s, steps[0]), steps[1..]);
    }
  }

  // ---------------------------------------------------------------- verdicts stored

  // A ticket counted as settled has a row that has left pending.
  predicate VerdictStored(s: Hub, t: nat) {
    t in s.ledger.settled ==> s.ledger.settled[t] in s.subs && s.subs[s.ledger.settled[t]] != Pending
  }

  lemma VerdictWritten(s: Hub, st: Step, t: nat)
    requires Enabled(s, st) && t in NextLedger(s, st).settled
    ensures
      var id := NextLedger(s, st).settled[t];
      || (t in s.ledger.settled && id == s.ledger.settled[t])
      || (id in NextSubs(s, st) && NextSubs(s, st)[id] != Pending)
  {
  }

  lemma VerdictStep(before: map<SubmissionId, Status>, s: Hub, st: Step, t: nat)
    requires Enabled(s, st) && VerdictStored(s, t)
    requires forall id :: RowOk(before, s.subs, id, TraceOf(s, id))
    ensures VerdictStored(Apply(s, st), t)
  {
    if t in Apply(s, st).ledger.settled {
      VerdictWritten(s, st, t);
    }
    if t in s.ledger.settled {
      RowStep(before, s, st, s.ledger.settled[t]);
    }
  }

  lemma {:induction false} VerdictRun(before: map<SubmissionId, Status>, s: Hub, steps: seq<Step>, t: nat)
    requires IsRun(s, steps) && VerdictStored(s, t)
    requires forall id :: RowOk(before, s.subs, id, TraceOf(s, id))
    ensures VerdictStored(Exec(s, steps), t)
    decreases |steps|
  {
    if steps == [] {
    } else {
      VerdictStep(before, s, steps[0], t);
      forall id ensures RowOk(before, Apply(s, steps[0]).subs, id, TraceOf(Apply(s, steps[0]), id)) {
        RowStep(before, s, steps[0], id);
      }
      VerdictRun(before, Apply(s, steps[0]), steps[1..], t);
    }
  }

  // A submission counted as settled has its verdict in the database.
  lemma SettledHaveVerdicts(s: Hub, steps: seq<Step>, t: nat)
    requires Started(s) && IsRun(s, steps) && t in Exec(s, steps).ledger.settled
    ensures
      var end := Exec(s, steps);
      end.ledger.settled[t] in end.subs && end.subs[end.ledger.settled[t]] != Pending
  {
    forall id ensures RowOk(s.subs, s.subs, id, TraceOf(s, id)) {
      StartedRowOk(s, id);
    }
    VerdictRun(s.subs, s, steps, t);
  }
}
