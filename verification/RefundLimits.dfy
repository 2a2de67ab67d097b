/**
 Where fail-closed handling gives way: what may happen between the two transactions of a refund,
 exactly when the second one commits, and concrete runs in which an expected property fails.
 */
module RefundLimits {
  import opened Common
  import opened CaseMachine
  import opened Projection
  import opened ProjectionRuns
  import opened ProjectionSafety
  import opened RefundSafety

  // ------------------------------------------------------------------ between the two transactions

  /**
   In every reachable state the second transaction of an executed refund commits if and only if
   the event's id is free, its command's cursor still stands before it, and its case is in
   EXECUTING; otherwise it changes nothing.
   */
  lemma {:induction false} CommitsExactly(steps: seq<Step>, e: Event)
    requires e in Run(Empty, steps).executed
    ensures var s := Run(Empty, steps);
      && e.payload.Resolution? && e.payload.handoff.handoffId in s.ledger && e.caseRef in s.db.cases
      && var tx := CompleteTx(s.db, e, s.ledger[e.payload.handoff.handoffId]);
      && (tx.answer == Completed <==>
            && e.eventId !in s.db.processed
            && ExpectedIndex(s.db, e.commandId) == e.index
            && s.db.cases[e.caseRef].status == Executing)
      && (tx.answer != Completed ==> tx.db == s.db)
  {
    RunKeepsSys(steps);
    var s := Run(Empty, steps);
    assert PendingOk(s.db, e) && CaseOk(s.db, e.caseRef);
    RefundKeepsRow(s.db.cases[e.caseRef], s.ledger[e.payload.handoff.handoffId]);
  }

  /** The refund has passed its first transaction, and its second one could commit. */
  predicate Underway(s: Sys, e: Event) {
    && e in s.pending && e.eventId !in s.db.processed && ExpectedIndex(s.db, e.commandId) == e.index
    && e.caseRef in s.db.cases && s.db.cases[e.caseRef].status == Executing
  }

  /**
   While a refund is underway its cursor has not moved, so another event of the same command and
   index is applied too, if and only if its id is free, its thread is the case's, the cursor is
   the case's, and it is neither an interrupt nor a resolution without a refund.
   */
  lemma {:induction false} SecondContentIsApplied(steps: seq<Step>, e: Event, other: Event, authorization: Authorization)
    requires Underway(Run(Empty, steps), e)
    requires other.caseRef == e.caseRef && other.commandId == e.commandId && other.index == e.index
    ensures var db := Run(Empty, steps).db;
      var answer := ProjectTx(db, other, authorization).answer;
      answer == Projected || answer == AwaitsRefund <==>
        && other.eventId !in db.processed
        && other.threadId == db.cases[e.caseRef].threadId
        && (e.commandId in db.cursors ==> db.cursors[e.commandId].caseRef == e.caseRef)
        && !other.payload.Interrupted?
        && (other.payload.Resolution? ==> other.payload.handoff.fullRefund && !other.payload.handoff.executionBlocked)
  {
    RunKeepsSys(steps);
    var s := Run(Empty, steps);
    assert PendingOk(s.db, e) && CaseOk(s.db, e.caseRef);
    AppliedWhileExecuting(s.db.cases[e.caseRef], Known(s.db.confirmations, other), other, authorization);
  }

  lemma AppliedWhileExecuting(row: CaseRow, known: Option<ConfirmationRow>, e: Event, authorization: Authorization)
    requires row.status == Executing && !row.v2
    ensures ApplyEvent(row, known, e, authorization).Refused? <==>
      e.payload.Interrupted? || (e.payload.Resolution? && !(e.payload.handoff.fullRefund && !e.payload.handoff.executionBlocked))
  {
  }

  /** Once another event took the index, the refund never commits, although its executor record stays. */
  lemma {:induction false} OvertakenNeverCommits(steps: seq<Step>, e: Event, id: string, more: seq<Step>)
    requires e in Run(Empty, steps).executed && !Recorded(Run(Empty, steps).db, e)
    requires var db := Run(Empty, steps).db;
      id in db.processed && db.processed[id].commandId == e.commandId && db.processed[id].index == e.index
    ensures e.payload.Resolution?
    ensures var h, before, s := e.payload.handoff.handoffId, Run(Empty, steps), Run(Empty, steps + more);
      && e in s.executed && h in before.ledger && h in s.ledger && s.ledger[h] == before.ledger[h]
      && CompleteTx(s.db, e, s.ledger[h]).answer != Completed
  {
    RunKeepsSys(steps);
    assert RowRecorded(Run(Empty, steps).db, id);
    LaterRunsGrow(steps, more);
    RecordsStay(steps, more, e);
    CommitsExactly(steps + more, e);
  }

  lemma {:induction false} RecordsStay(steps: seq<Step>, more: seq<Step>, e: Event)
    requires e in Run(Empty, steps).executed && e.payload.Resolution? && e.payload.handoff.handoffId in Run(Empty, steps).ledger
    ensures var s := Run(Empty, steps + more);
      && e in s.executed && e.payload.handoff.handoffId in s.ledger
      && s.ledger[e.payload.handoff.handoffId] == Run(Empty, steps).ledger[e.payload.handoff.handoffId]
  {
    if more == [] {
      assert steps + more == steps;
    } else {
      RecordsStay(steps, more[..|more| - 1], e);
      assert steps + more == (steps + more[..|more| - 1]) + [more[|more| - 1]];
      RunSnoc(Empty, steps + more[..|more| - 1], more[|more| - 1]);
      RecordStays(Run(Empty, steps + more[..|more| - 1]), more[|more| - 1], e);
    }
  }

  lemma RecordStays(s: Sys, step: Step, e: Event)
    requires e in s.executed && e.payload.Resolution? && e.payload.handoff.handoffId in s.ledger
    ensures var h, later := e.payload.handoff.handoffId, Next(s, step);
      e in later.executed && h in later.ledger && later.ledger[h] == s.ledger[h]
  {
  }

  // ------------------------------------------------------------------ concrete runs

  /** A message rejected before its case existed is not rejected again once it exists. */
  lemma {:induction false} EarlyRejectionIsForgotten()
    ensures var refs := References(None, None, Some("A"));
      var early := Next(Empty, RejectMessage("m", refs));
      var openCases := Next(early, CreateCase("A", "t", false, "", "c", true));
      var s := Next(openCases, RejectMessage("m", refs));
      "A" in s.db.cases && s.db.cases["A"].status == Observing
  {
    var refs := References(None, None, Some("A"));
    assert Next(Empty, RejectMessage("m", refs)).db.rejected == map["m" := RejectedRow(Some("A"), false)];
  }

  function NewCase(): CaseRow { CaseRow("t", false, Observing, [UserTurn("")], false) }

  function RefundOf(id: string, command: string, c: string, handoff: string): Event {
    Event(id, command, c, "t", 1, 0, Resolution(Handoff(handoff, true, false)))
  }

  function NodeOf(id: string, command: string, c: string): Event {
    Event(id, command, c, "t", 1, 0, NodeObserved(Enter, "n", false))
  }

  lemma TwoCasesOpen(a: string, b: string, x: string, y: string)
    requires a != b && x != y
    ensures var s := Next(Next(Empty, CreateCase(a, "t", false, "", x, true)), CreateCase(b, "t", false, "", y, true));
      s == Empty.(db := Empty.db.(cases := map[a := NewCase(), b := NewCase()], outbox := [OutboxEntry(x, a), OutboxEntry(y, b)]))
  {
    var one := Next(Empty, CreateCase(a, "t", false, "", x, true));
    assert one == Empty.(db := Empty.db.(cases := map[a := NewCase()], outbox := [OutboxEntry(x, a)]));
  }

  lemma RefundTakesOff(s: Sys, a: string, x: string, id: string)
    requires s.pending == {} == s.executed && s.ledger == map[] && s.db.processed == map[] && s.db.cursors == map[]
    requires a in s.db.cases && s.db.cases[a] == NewCase()
    ensures var e := RefundOf(id, x, a, "h");
      var later := Next(Next(s, Project(e, NotAuthorized)), Execute(e, RefundRecord("r", true)));
      && later.executed == {e} && later.ledger == map["h" := RefundRecord("r", true)]
      && later.db == s.db.(cases := s.db.cases[a := MoveTo(NewCase(), Executing).value])
  {
    var e := RefundOf(id, x, a, "h");
    assert Next(s, Project(e, NotAuthorized)).pending == {e};
  }

  /**
   An event id reused while a refund is in flight: the refund is acknowledged although another
   event was recorded under its id, and its case is left in Executing without a rejection.
   */
  lemma {:induction false} IdReuseDuringRefund(a: string, b: string, x: string, y: string, id: string)
    requires a != b && x != y
    ensures var refund := RefundOf(id, x, a, "h");
      var openCases := Next(Next(Empty, CreateCase(a, "t", false, "", x, true)), CreateCase(b, "t", false, "", y, true));
      var executed := Next(Next(openCases, Project(refund, NotAuthorized)), Execute(refund, RefundRecord("r", true)));
      var s := Next(Next(executed, Project(NodeOf(id, y, b), NotAuthorized)), CompleteRefund(refund));
      refund in s.acked && !Recorded(s.db, refund) && a in s.db.cases && s.db.cases[a].status == Executing
  {
    TwoCasesOpen(a, b, x, y);
    var openCases := Next(Next(Empty, CreateCase(a, "t", false, "", x, true)), CreateCase(b, "t", false, "", y, true));
    RefundTakesOff(openCases, a, x, id);
  }

  /** The first transaction and the executor call of a refund, from a case that awaits one or executes one. */
  lemma RefundAirborne(s: Sys, e: Event, refund: RefundRecord)
    requires e.caseRef in s.db.cases && s.db.cases[e.caseRef].threadId == e.threadId
    requires IsV1Refund(s.db.cases[e.caseRef], e) && s.db.cases[e.caseRef].status == Executing
    requires e.eventId !in s.db.processed && e.commandId !in s.db.cursors && e.index == 1 && e.payload.handoff.handoffId !in s.ledger
    ensures Next(Next(s, Project(e, NotAuthorized)), Execute(e, refund)) ==
      s.(pending := s.pending + {e}, executed := s.executed + {e}, ledger := s.ledger[e.payload.handoff.handoffId := refund])
  {
    var waiting := Next(s, Project(e, NotAuthorized));
    assert ProjectTx(s.db, e, NotAuthorized) == Tx(AwaitsRefund, s.db.(cases := s.db.cases[e.caseRef := s.db.cases[e.caseRef]]));
    assert waiting == s.(pending := s.pending + {e});
  }

  function OneCase(a: string, x: string): Sys { Next(Empty, CreateCase(a, "t", false, "", x, true)) }

  lemma OneCaseOpen(a: string, x: string)
    ensures OneCase(a, x) == Empty.(db := Empty.db.(cases := map[a := NewCase()], outbox := [OutboxEntry(x, a)]))
  {
  }

  /** The state after the case's first refund was executed. */
  function FirstRefund(a: string, x: string, id: string): Sys {
    Next(Next(OneCase(a, x), Project(RefundOf(id, x, a, "h"), NotAuthorized)), Execute(RefundOf(id, x, a, "h"), RefundRecord("r", true)))
  }

  lemma FirstRefundExecuted(a: string, x: string, id: string)
    ensures var s, e := FirstRefund(a, x, id), RefundOf(id, x, a, "h");
      && s.pending == {e} && s.executed == {e} && s.ledger == map["h" := RefundRecord("r", true)]
      && s.acked == {} && s.completions == []
      && s.db == OneCase(a, x).db.(cases := map[a := MoveTo(NewCase(), Executing).value])
      && s.db.processed == map[] && s.db.cursors == map[] && s.db.rejected == map[]
  {
    OneCaseOpen(a, x);
    RefundTakesOff(OneCase(a, x), a, x, id);
    var e := RefundOf(id, x, a, "h");
    assert Next(OneCase(a, x), Project(e, NotAuthorized)).pending == {e};
  }

  /**
   Two refunds with the same command and index: both pass the first transaction and both are
   executed, because the cursor moves only with the second one; only one of them completes.
   */
  lemma {:induction false} TwoRefundsAtOneIndex(a: string, x: string, i1: string, i2: string, h: string)
    requires i1 != i2 && h != "h"
    ensures var first, second := RefundOf(i1, x, a, "h"), RefundOf(i2, x, a, h);
      var both := Next(Next(FirstRefund(a, x, i1), Project(second, NotAuthorized)), Execute(second, RefundRecord("s", true)));
      var s := Next(Next(both, CompleteRefund(first)), CompleteRefund(second));
      && s.executed == {first, second}
      && "h" in s.ledger && s.ledger["h"].succeeded && h in s.ledger && s.ledger[h].succeeded
      && s.completions == [first] && second !in s.acked
  {
    FirstRefundExecuted(a, x, i1);
    var first, second := RefundOf(i1, x, a, "h"), RefundOf(i2, x, a, h);
    var one := FirstRefund(a, x, i1);
    RefundAirborne(one, second, RefundRecord("s", true));
    FirstWins(one.(pending := one.pending + {second}, executed := one.executed + {second}, ledger := one.ledger[h := RefundRecord("s", true)]),
              first, second);
  }

  /** Of two executed refunds at one index the second one to come finds the cursor moved. */
  lemma FirstWins(s: Sys, first: Event, second: Event)
    requires first in s.executed && first.payload.Resolution? && first.payload.handoff.handoffId in s.ledger
    requires second in s.executed && second.payload.Resolution? && second.payload.handoff.handoffId in s.ledger
    requires first.commandId == second.commandId && first.index == second.index == 1 && first.eventId != second.eventId
    requires first.caseRef == second.caseRef && first.caseRef in s.db.cases && s.db.cases[first.caseRef].status == Executing
    requires s.ledger[first.payload.handoff.handoffId].succeeded && s.db.processed == map[] && first.commandId !in s.db.cursors
    ensures var done := Next(s, CompleteRefund(first));
      && done == s.(db := done.db, acked := s.acked + {first}, completions := s.completions + [first])
      && Next(done, CompleteRefund(second)) == done
  {
    var done := Next(s, CompleteRefund(first));
    assert CompleteTx(s.db, first, s.ledger[first.payload.handoff.handoffId]).answer == Completed;
    assert CompleteTx(done.db, second, done.ledger[second.payload.handoff.handoffId]) == Tx(OutOfOrder, done.db);
  }

  /**
   A node event that takes a refund's index while the executor runs: the refund's second
   transaction is out of order, its redelivery is inapplicable, and the rejection leaves the case
   Escalated although the executor's record says the refund was paid.
   */
  lemma {:induction false} PaidRefundIsOvertaken(a: string, x: string, i1: string, i2: string, messageId: string)
    requires i1 != i2
    ensures var refund := RefundOf(i1, x, a, "h");
      var overtaken := Next(FirstRefund(a, x, i1), Project(NodeOf(i2, x, a), NotAuthorized));
      var s := Next(overtaken, RejectMessage(messageId, ReferencesOf(refund)));
      && Next(overtaken, CompleteRefund(refund)) == overtaken
      && ProjectTx(overtaken.db, refund, NotAuthorized) == Tx(Inapplicable, overtaken.db)
      && a in s.db.cases && s.db.cases[a].status == Escalated
      && "h" in s.ledger && s.ledger["h"].succeeded
  {
    FirstRefundExecuted(a, x, i1);
    var refund, one := RefundOf(i1, x, a, "h"), FirstRefund(a, x, i1);
    var overtaken := Next(one, Project(NodeOf(i2, x, a), NotAuthorized));
    var row := Append(one.db.cases[a], NodeEnter("n"));
    assert overtaken.db == Record(one.db.(cases := one.db.cases[a := row], confirmations := one.db.confirmations), NodeOf(i2, x, a));
    assert CompleteTx(overtaken.db, refund, overtaken.ledger["h"]).answer == OutOfOrder;
  }
}
