/**
 Runs of the case database: any number of API processes interleave their transactions, crash
 between them, deliver messages again and in any order, and call the refund executor between
 the two transactions of a refund.  A process that crashes is one whose next step never comes.
 */
module ProjectionRuns {
  import opened Common
  import opened CaseMachine
  import opened Projection

  /**
   `pending` holds the refund events some process carries past its first transaction, `executed`
   those whose executor call returned, `ledger` the idempotent executor's records by handoff,
   `acked` the events whose delivery was settled and acknowledged, and `completions` the refund
   events in the order their second transaction committed.
   */
  datatype Sys = Sys(db: Db, pending: set<Event>, executed: set<Event>, ledger: map<string, RefundRecord>,
                     acked: set<Event>, completions: seq<Event>)

  datatype Step =
    | Project(e: Event, authorization: Authorization)
    | Execute(e: Event, refund: RefundRecord)
    | CompleteRefund(e: Event)
    | RejectMessage(messageId: string, refs: References)
    | CreateCase(caseRef: string, threadId: string, v2: bool, message: string, commandId: string, accepted: bool)
    | SendMessage(caseRef: string, message: string, attachments: nat, bound: bool, commandId: string)
    | CompleteReview(caseRef: string, stored: bool, commandId: string)
    | ConfirmPolicy(caseRef: string, requestRef: string, version: nat, accept: bool, key: string, commandId: string)
    | Fulfil(caseRef: string, status: CaseStatus, entries: seq<LogEntry>)

  const Empty: Sys := Sys(Db(map[], map[], map[], map[], map[], []), {}, {}, map[], {}, [])

  function FulfilDb(db: Db, caseRef: string, status: CaseStatus, entries: seq<LogEntry>): Db {
    if caseRef in db.cases && db.cases[caseRef].fulfilment &&
       (status == db.cases[caseRef].status || Allowed(db.cases[caseRef].status, status))
    then db.(cases := db.cases[caseRef := db.cases[caseRef].(status := status, log := db.cases[caseRef].log + entries)])
    else db
  }

  function Next(s: Sys, step: Step): Sys {
    match step
    case Project(e, authorization) =>
      var tx := ProjectTx(s.db, e, authorization);
      s.(db := tx.db,
         pending := if tx.answer == AwaitsRefund then s.pending + {e} else s.pending,
         acked := if tx.answer == Duplicate || tx.answer == Projected then s.acked + {e} else s.acked)
    case Execute(e, refund) =>
      if e in s.pending && e.payload.Resolution?
      then s.(executed := s.executed + {e},
              ledger := if e.payload.handoff.handoffId in s.ledger then s.ledger
                        else s.ledger[e.payload.handoff.handoffId := refund])
      else s
    case CompleteRefund(e) =>
      if e in s.executed && e.payload.Resolution? && e.payload.handoff.handoffId in s.ledger then
        var tx := CompleteTx(s.db, e, s.ledger[e.payload.handoff.handoffId]);
        s.(db := tx.db,
           acked := if tx.answer == Completed || tx.answer == AlreadyProcessed then s.acked + {e} else s.acked,
           completions := if tx.answer == Completed then s.completions + [e] else s.completions)
      else s
    case RejectMessage(messageId, refs) => s.(db := RejectTx(s.db, messageId, refs).db)
    case CreateCase(caseRef, threadId, v2, message, commandId, accepted) =>
      s.(db := CreateTx(s.db, caseRef, threadId, v2, message, commandId, accepted).db)
    case SendMessage(caseRef, message, attachments, bound, commandId) =>
      s.(db := MessageTx(s.db, caseRef, message, attachments, bound, commandId).db)
    case CompleteReview(caseRef, stored, commandId) => s.(db := ReviewTx(s.db, caseRef, stored, commandId).db)
    case ConfirmPolicy(caseRef, requestRef, version, accept, key, commandId) =>
      s.(db := ConfirmTx(s.db, caseRef, requestRef, version, accept, key, commandId).db)
    case Fulfil(caseRef, status, entries) => s.(db := FulfilDb(s.db, caseRef, status, entries))
  }

  function Run(s: Sys, steps: seq<Step>): Sys {
    if steps == [] then s else Next(Run(s, steps[..|steps| - 1]), steps[|steps| - 1])
  }

  // ------------------------------------------------------------------ what one row keeps

  predicate AwaitsAgentInput(status: CaseStatus) {
    || status == AwaitingClarification
    || status == AwaitingEvidence
    || status == AwaitingHumanReview
    || status == AwaitingPolicyConfirmation
  }

  /** A case that fulfilment has not taken over: its log and its status tell the same story. */
  predicate RowOk(row: CaseRow) {
    && (row.fulfilment ==> row.v2)
    && (!row.fulfilment ==>
          var r := Read(row.log);
          && r.status == Some(row.status)
          && r.dones == (if Terminal(row.status) then 1 else 0)
          && (AwaitsAgentInput(row.status) ==> r.interrupt.Some? && AwaitingFor(r.interrupt.value) == row.status))
  }

  /** What every later version of a row keeps of an earlier one. */
  predicate Follows(row: CaseRow, later: CaseRow) {
    && later.v2 == row.v2
    && later.threadId == row.threadId
    && (row.fulfilment ==> later.fulfilment)
    && (Terminal(row.status) ==> later.status == row.status)
    && (row.status == Executing ==> later.status == Executing || Terminal(later.status))
  }

  /** One entry that changes neither the status nor its meaning. */
  lemma AppendKeepsRow(row: CaseRow, e: LogEntry)
    requires RowOk(row)
    requires !e.StateChange? && !e.Done? && !e.Interrupt?
    ensures RowOk(Append(row, e)) && Follows(row, Append(row, e))
    ensures Read(Append(row, e).log).resumptions == Read(row.log).resumptions
  {
    ReadAppend(row.log, e);
  }

  /** A transition into a terminal status together with its done entry. */
  lemma FinishKeepsRow(row: CaseRow, target: CaseStatus, ref: string)
    requires RowOk(row) && Terminal(target) && Allowed(row.status, target)
    ensures var r := MoveTo(row, target).value;
            var done := Append(r, Done(ref, r.status));
            && RowOk(done) && Follows(row, done) && done.status == target
            && Read(done.log).resumptions == Read(row.log).resumptions
  {
    var move, done := StateChange(row.status, target), Done(ref, target);
    ReadAppend(row.log, move);
    ReadAppend(row.log + [move], done);
    FinishedReading(row, Append(MoveTo(row, target).value, done), Read(row.log), Read(row.log + [move] + [done]), target, ref);
  }

  /** The same, on the readings of the two logs. */
  lemma FinishedReading(row: CaseRow, later: CaseRow, before: Reading, after: Reading, target: CaseStatus, ref: string)
    requires RowOk(row) && Terminal(target) && Allowed(row.status, target)
    requires later == row.(status := target, log := later.log)
    requires before == Read(row.log) && after == Read(later.log)
    requires after == Observe(Observe(before, StateChange(row.status, target)), Done(ref, target))
    ensures RowOk(later) && Follows(row, later) && after.resumptions == before.resumptions
  {
  }

  lemma StartKeepsRow(row: CaseRow)
    requires RowOk(row) && Allowed(row.status, Executing)
    ensures var r := MoveTo(row, Executing).value;
            RowOk(r) && Follows(row, r) && Read(r.log).resumptions == Read(row.log).resumptions
  {
    ReadAppend(row.log, StateChange(row.status, Executing));
  }

  lemma InterruptKeepsRow(row: CaseRow, payload: InterruptPayload)
    requires RowOk(row) && Allowed(row.status, AwaitingFor(payload))
    ensures var r := MoveTo(Append(row, Interrupt(payload)), AwaitingFor(payload)).value;
            RowOk(r) && Follows(row, r) && Read(r.log).resumptions == Read(row.log).resumptions
  {
    var noted := Append(row, Interrupt(payload));
    ReadAppend(row.log, Interrupt(payload));
    ReadAppend(noted.log, StateChange(row.status, AwaitingFor(payload)));
  }

  lemma ResumeKeepsRow(row: CaseRow)
    requires RowOk(row) && Allowed(row.status, Observing)
    ensures var r := MoveTo(row, Observing).value;
            RowOk(r) && Follows(row, r) && Read(r.log).resumptions == Read(row.log).resumptions + 1
  {
    ReadAppend(row.log, StateChange(row.status, Observing));
  }

  /** What applying an event does to a row, whatever the event. */
  predicate AppliedOk(row: CaseRow, e: Event, a: Applied) {
    && (!a.Refused? ==> RowOk(a.row) && Follows(row, a.row))
    && (!a.Refused? && !a.row.fulfilment ==> Read(a.row.log).resumptions == Read(row.log).resumptions)
    && (a.AwaitExecutor? ==> IsV1Refund(row, e) && a.row.status == Executing)
    && (IsV1Refund(row, e) ==> !a.Complete?)
    && (a.Complete? && a.row.status == CaseStatus.Resolved && !a.row.fulfilment ==>
          e.payload.Resolution? || row.status == CaseStatus.Resolved)
    && (a.Complete? && e.payload.Resolution? && !a.row.fulfilment ==>
          a.row.status == CaseStatus.Resolved && !Terminal(row.status))
  }

  lemma NodeKeepsRow(row: CaseRow, known: Option<ConfirmationRow>, e: Event, authorization: Authorization)
    requires RowOk(row) && e.payload.NodeObserved?
    ensures AppliedOk(row, e, ApplyEvent(row, known, e, authorization))
  {
    AppendKeepsRow(row, NodeEntry(e.payload.phase, e.payload.node));
    AppendKeepsRow(Append(row, NodeEntry(e.payload.phase, e.payload.node)), MemoryRetrieval(e.payload.node));
  }

  lemma ResolutionKeepsRow(row: CaseRow, known: Option<ConfirmationRow>, e: Event, authorization: Authorization)
    requires RowOk(row) && e.payload.Resolution?
    ensures AppliedOk(row, e, ApplyResolution(row, known, e, authorization))
  {
    if Allowed(row.status, Executing) {
      StartKeepsRow(row);
      if !(e.payload.handoff.fullRefund && (row.v2 || !e.payload.handoff.executionBlocked)) {
        FinishKeepsRow(MoveTo(row, Executing).value, CaseStatus.Resolved, e.payload.handoff.handoffId);
      }
    }
  }

  lemma EscalationKeepsRow(row: CaseRow, ref: string)
    requires RowOk(row)
    ensures MoveTo(row, Escalated).Some? <==> !Terminal(row.status)
    ensures MoveTo(row, Escalated).Some? ==>
            var done := Append(MoveTo(row, Escalated).value, Done(ref, Escalated));
            && RowOk(done) && Follows(row, done) && done.status == Escalated
            && Read(done.log).resumptions == Read(row.log).resumptions
  {
    TerminalIsStuck(row.status);
    if !Terminal(row.status) { FinishKeepsRow(row, Escalated, ref); }
  }

  lemma FailureKeepsRow(row: CaseRow, known: Option<ConfirmationRow>, e: Event, authorization: Authorization)
    requires RowOk(row) && (e.payload.EscalatedManually? || e.payload.RunFailed?)
    ensures AppliedOk(row, e, ApplyEvent(row, known, e, authorization))
  {
    if e.payload.EscalatedManually? {
      EscalationKeepsRow(row, e.eventId);
    } else {
      var noted := Append(row, ErrorEntry(AgentRunFailed));
      AppendKeepsRow(row, ErrorEntry(AgentRunFailed));
      EscalationKeepsRow(noted, e.eventId);
    }
  }

  /** Every event the projector applies keeps the row invariant and moves the case along the table. */
  lemma {:induction false} ApplyKeepsRow(row: CaseRow, known: Option<ConfirmationRow>, e: Event, authorization: Authorization)
    requires RowOk(row)
    ensures AppliedOk(row, e, ApplyEvent(row, known, e, authorization))
  {
    match e.payload
    case NodeObserved(_, _, _) => NodeKeepsRow(row, known, e, authorization);
    case Interrupted(payload, _) =>
      if Allowed(row.status, AwaitingFor(payload)) { InterruptKeepsRow(row, payload); }
    case Resolution(_) => ResolutionKeepsRow(row, known, e, authorization);
    case _ => FailureKeepsRow(row, known, e, authorization);
  }

  lemma {:induction false} RefundKeepsRow(row: CaseRow, refund: RefundRecord)
    requires RowOk(row)
    ensures RefundOutcome(row, refund).Some? <==>
            if refund.succeeded then row.status == Executing
            else !Terminal(row.status)
    ensures RefundOutcome(row, refund).Some? ==>
            var r := RefundOutcome(row, refund).value;
            && RowOk(r) && Follows(row, r) && Terminal(r.status)
            && (r.status == CaseStatus.Resolved <==> refund.succeeded)
            && Read(r.log).resumptions == Read(row.log).resumptions
  {
    if refund.succeeded {
      if row.status == Executing { FinishKeepsRow(row, CaseStatus.Resolved, refund.executionRef); }
    } else {
      var noted := Append(row, ErrorEntry(RefundExecutionRejected));
      AppendKeepsRow(row, ErrorEntry(RefundExecutionRejected));
      EscalationKeepsRow(noted, refund.executionRef);
    }
  }
}
