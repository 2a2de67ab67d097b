/**
 What each transaction of the case database does, said in terms of the rows a reader of the
 database sees: when it is refused, the status and the log entries it leaves, and that nothing
 else changes; and what a rejection and a consent mean for everything that follows.
 */
module CaseEffects {
  import opened Common
  import opened CaseMachine
  import opened Projection
  import opened ProjectionRuns
  import opened ProjectionSafety
  import opened RefundSafety

  // ------------------------------------------------------------------ the gate of the projector

  /** The event belongs to its case's thread, and its command's projection, if any, is the case's and not terminated. */
  predicate Admissible(db: Db, e: Event) {
    && e.caseRef in db.cases && db.cases[e.caseRef].threadId == e.threadId
    && (e.commandId in db.cursors ==> db.cursors[e.commandId].caseRef == e.caseRef && db.cursors[e.commandId].terminatedBy.None?)
  }

  /** How many events of the command were projected. */
  function Reached(db: Db, commandId: string): nat { if commandId in db.cursors then db.cursors[commandId].last else 0 }

  /** The event is the next one its command's projection waits for. */
  predicate Expected(db: Db, e: Event) {
    Admissible(db, e) && e.eventId !in db.processed && e.index == Reached(db, e.commandId) + 1
  }

  /**
   Which of its answers the projector gives: a duplicate is the recorded event itself, a gap
   defers, only the expected event is applied, and everything else is inapplicable; only an
   applied event changes the database.
   */
  lemma GateExactly(db: Db, e: Event, authorization: Authorization)
    ensures var tx := ProjectTx(db, e, authorization);
      && (tx.answer == Duplicate <==> e.caseRef in db.cases && Recorded(db, e))
      && (tx.answer == Deferred <==> Admissible(db, e) && e.eventId !in db.processed && e.index > Reached(db, e.commandId) + 1)
      && (tx.answer == Projected || tx.answer == AwaitsRefund ==> Expected(db, e))
      && (tx.answer != Projected && tx.answer != AwaitsRefund ==> tx.db == db)
  {
  }

  // ------------------------------------------------------------------ what applying an event does

  /** The case has moved to the status and has these new entries; the event is processed, its command has reached it. */
  predicate AppliedAs(db: Db, e: Event, status: CaseStatus, entries: seq<LogEntry>, tx: Tx<ProjectAnswer>)
    requires e.caseRef in db.cases
  {
    var row := db.cases[e.caseRef];
    && tx.answer == Projected
    && tx.db == db.(cases := db.cases[e.caseRef := row.(status := status, log := row.log + entries)],
                    processed := db.processed[e.eventId := ProcessedRow(e.caseRef, e.commandId, e.index, e)],
                    cursors := db.cursors[e.commandId := CursorRow(e.caseRef, e.index, None)],
                    confirmations := tx.db.confirmations)
  }

  predicate RefusedAs(db: Db, tx: Tx<ProjectAnswer>) { tx == Tx(Inapplicable, db) }

  /** An observation is never refused, whatever the status, and leaves one entry, with a memory retrieval a second one. */
  lemma NodeIsLogged(db: Db, e: Event, authorization: Authorization)
    requires Expected(db, e) && e.payload.NodeObserved?
    ensures var tx, node := ProjectTx(db, e, authorization), e.payload.node;
      var retrieved := if e.payload.memory then [MemoryRetrieval(node)] else [];
      && AppliedAs(db, e, db.cases[e.caseRef].status,
                   match e.payload.phase
                   case Enter => [NodeEnter(node)] + retrieved
                   case Exit => [NodeExit(node)] + retrieved
                   case Failed => [ErrorEntry(AgentNodeError)], tx)
      && tx.db.confirmations == db.confirmations
  {
    var row, node := db.cases[e.caseRef], e.payload.node;
    forall entry: LogEntry ensures row.log + [entry] + [MemoryRetrieval(node)] == row.log + ([entry] + [MemoryRetrieval(node)]) && [entry] + [] == [entry] {
    }
  }

  /** A consent request of the case itself, in a v2 case, that was not asked for with another content. */
  predicate RequestFits(db: Db, e: Event, request: PolicyRequest)
    requires e.caseRef in db.cases
  {
    && request.caseRef == e.caseRef && db.cases[e.caseRef].v2
    && (request.requestRef in db.confirmations ==> db.confirmations[request.requestRef].request == request)
  }

  /** An interrupt is refused unless the case observes, the request renders, and a consent request fits. */
  lemma InterruptRefused(db: Db, e: Event, authorization: Authorization)
    requires Expected(db, e) && e.payload.Interrupted?
    ensures var tx, asked := ProjectTx(db, e, authorization), e.payload.interrupt;
      && (RefusedAs(db, tx) || tx.answer == Projected)
      && (RefusedAs(db, tx) <==> !(&& db.cases[e.caseRef].status == Observing && e.payload.renders
                                   && (asked.PolicyConfirmation? ==> RequestFits(db, e, asked.policyRequest))))
  {
  }

  predicate AwaitsAnswer(asked: InterruptPayload, status: CaseStatus) {
    && (asked.Clarification? <==> status == AwaitingClarification)
    && (asked.EvidenceRequest? <==> status == AwaitingEvidence)
    && (asked.HumanReview? <==> status == AwaitingHumanReview)
    && (asked.PolicyConfirmation? <==> status == AwaitingPolicyConfirmation)
  }

  /** Otherwise the case awaits what the interrupt asks for, and a new consent request is stored, open. */
  lemma InterruptAwaits(db: Db, e: Event, authorization: Authorization)
    requires Expected(db, e) && e.payload.Interrupted? && ProjectTx(db, e, authorization).answer == Projected
    ensures var tx, asked := ProjectTx(db, e, authorization), e.payload.interrupt;
      && e.caseRef in tx.db.cases
      && var status := tx.db.cases[e.caseRef].status;
      && AwaitsAnswer(asked, status)
      && AppliedAs(db, e, status, [Interrupt(asked), StateChange(Observing, status)], tx)
      && tx.db.confirmations ==
           if asked.PolicyConfirmation? && asked.policyRequest.requestRef !in db.confirmations
           then db.confirmations[asked.policyRequest.requestRef := ConfirmationRow(e.caseRef, asked.policyRequest, None)]
           else db.confirmations
  {
    InterruptRefused(db, e, authorization);
    var tx, row, asked := ProjectTx(db, e, authorization), db.cases[e.caseRef], e.payload.interrupt;
    var status := tx.db.cases[e.caseRef].status;
    assert row.log + [Interrupt(asked)] + [StateChange(Observing, status)] == row.log + [Interrupt(asked), StateChange(Observing, status)];
  }

  /** A request for manual handling escalates every case that is not closed yet, and only such a case. */
  lemma EscalationCloses(db: Db, e: Event, authorization: Authorization)
    requires Expected(db, e) && e.payload.EscalatedManually?
    ensures var tx, status := ProjectTx(db, e, authorization), db.cases[e.caseRef].status;
      && (RefusedAs(db, tx) <==> Terminal(status))
      && (!Terminal(status) ==>
            && AppliedAs(db, e, Escalated, [StateChange(status, Escalated), Done(e.eventId, Escalated)], tx)
            && tx.db.confirmations == db.confirmations)
  {
    var row := db.cases[e.caseRef];
    assert row.log + [StateChange(row.status, Escalated)] + [Done(e.eventId, Escalated)]
        == row.log + [StateChange(row.status, Escalated), Done(e.eventId, Escalated)];
  }

  /** So does a failed run, which leaves its error first. */
  lemma FailureCloses(db: Db, e: Event, authorization: Authorization)
    requires Expected(db, e) && e.payload.RunFailed?
    ensures var tx, status := ProjectTx(db, e, authorization), db.cases[e.caseRef].status;
      && (RefusedAs(db, tx) <==> Terminal(status))
      && (!Terminal(status) ==>
            && AppliedAs(db, e, Escalated, [ErrorEntry(AgentRunFailed), StateChange(status, Escalated), Done(e.eventId, Escalated)], tx)
            && tx.db.confirmations == db.confirmations)
  {
    var row := db.cases[e.caseRef];
    assert row.log + [ErrorEntry(AgentRunFailed)] + [StateChange(row.status, Escalated)] + [Done(e.eventId, Escalated)]
        == row.log + [ErrorEntry(AgentRunFailed), StateChange(row.status, Escalated), Done(e.eventId, Escalated)];
  }

  /** A resolution without a refund to execute closes the case at once, from the statuses a decision can come from. */
  lemma DecisionResolves(db: Db, e: Event, authorization: Authorization)
    requires Expected(db, e) && e.payload.Resolution?
    requires var handoff := e.payload.handoff; !handoff.fullRefund || (!db.cases[e.caseRef].v2 && handoff.executionBlocked)
    ensures var tx, status := ProjectTx(db, e, authorization), db.cases[e.caseRef].status;
      && (RefusedAs(db, tx) <==> status !in {Observing, AwaitingHumanReview, AwaitingReturnInspection})
      && (!RefusedAs(db, tx) ==>
            && AppliedAs(db, e, CaseStatus.Resolved,
                         [StateChange(status, Executing), StateChange(Executing, CaseStatus.Resolved),
                          Done(e.payload.handoff.handoffId, CaseStatus.Resolved)], tx)
            && tx.db.confirmations == db.confirmations)
  {
    var row, done := db.cases[e.caseRef], Done(e.payload.handoff.handoffId, CaseStatus.Resolved);
    assert row.log + [StateChange(row.status, Executing)] + [StateChange(Executing, CaseStatus.Resolved)] + [done]
        == row.log + [StateChange(row.status, Executing), StateChange(Executing, CaseStatus.Resolved), done];
  }

  /** The first transaction of a v1 refund: the case goes to EXECUTING once, and nothing is recorded yet. */
  lemma RefundBegins(db: Db, e: Event, authorization: Authorization)
    requires Expected(db, e) && IsV1Refund(db.cases[e.caseRef], e)
    ensures var tx, row := ProjectTx(db, e, authorization), db.cases[e.caseRef];
      && (RefusedAs(db, tx) <==> row.status != Observing && row.status != Executing)
      && (row.status == Executing ==> tx == Tx(AwaitsRefund, db))
      && (row.status == Observing ==>
            tx == Tx(AwaitsRefund, db.(cases := db.cases[e.caseRef :=
              row.(status := Executing, log := row.log + [StateChange(Observing, Executing)])])))
  {
    assert db.cases[e.caseRef := db.cases[e.caseRef]] == db.cases;
  }

  /** A v2 refund is handed to fulfilment exactly when its registration is accepted. */
  lemma AuthorizationHandsOver(db: Db, e: Event, authorization: Authorization)
    requires Expected(db, e) && e.payload.Resolution? && e.payload.handoff.fullRefund && db.cases[e.caseRef].v2
    ensures var tx, row := ProjectTx(db, e, authorization), db.cases[e.caseRef];
      && (RefusedAs(db, tx) <==>
            authorization.NotAuthorized? || (authorization.status != row.status && !Allowed(row.status, authorization.status)))
      && (!RefusedAs(db, tx) ==>
            && tx.answer == Projected && Recorded(tx.db, e)
            && tx.db.cases == db.cases[e.caseRef := row.(status := authorization.status, log := row.log + authorization.entries, fulfilment := true)])
  {
  }

  /** A case in fulfilment may go wherever the transition table allows, with any entries; every other case is left alone. */
  lemma FulfilmentMoves(db: Db, caseRef: string, status: CaseStatus, entries: seq<LogEntry>)
    ensures var later := FulfilDb(db, caseRef, status, entries);
      if caseRef in db.cases && db.cases[caseRef].fulfilment && (status == db.cases[caseRef].status || Allowed(db.cases[caseRef].status, status))
      then later.cases.Keys == db.cases.Keys && later == db.(cases := later.cases)
           && later.cases[caseRef].status == status && later.cases[caseRef].log == db.cases[caseRef].log + entries
           && forall c :: c in db.cases && c != caseRef ==> later.cases[c] == db.cases[c]
      else later == db
  {
  }

  /** The second transaction of a refund: the executor's record decides the status, the error entry and the reference. */
  lemma RefundEnds(db: Db, e: Event, refund: RefundRecord)
    requires e.caseRef in db.cases && e.eventId !in db.processed && e.index == Reached(db, e.commandId) + 1
    ensures var tx, row := CompleteTx(db, e, refund), db.cases[e.caseRef];
      var fits := if refund.succeeded then row.status == Executing else !Terminal(row.status);
      var status := if refund.succeeded then CaseStatus.Resolved else Escalated;
      var rejected := if refund.succeeded then [] else [ErrorEntry(RefundExecutionRejected)];
      && (!fits ==> tx == Tx(Illegal, db))
      && (fits ==>
            && tx.answer == Completed
            && tx.db.cases == db.cases[e.caseRef := row.(status := status,
                                       log := row.log + (rejected + [StateChange(row.status, status), Done(refund.executionRef, status)]))]
            && tx.db.processed == db.processed[e.eventId := ProcessedRow(e.caseRef, e.commandId, e.index, e)]
            && tx.db.cursors.Keys == db.cursors.Keys + {e.commandId} && tx.db.cursors[e.commandId].last == e.index
            && (forall c :: c in db.cursors && c != e.commandId ==> tx.db.cursors[c] == db.cursors[c])
            && (e.commandId in db.cursors ==> tx.db.cursors[e.commandId] == db.cursors[e.commandId].(last := e.index))
            && tx.db == db.(cases := tx.db.cases, processed := tx.db.processed, cursors := tx.db.cursors))
  {
    var row := db.cases[e.caseRef];
    var status := if refund.succeeded then CaseStatus.Resolved else Escalated;
    var done := [StateChange(row.status, status), Done(refund.executionRef, status)];
    assert row.log + [StateChange(row.status, status)] + [Done(refund.executionRef, status)] == row.log + ([] + done);
    assert row.log + [ErrorEntry(RefundExecutionRejected)] + [StateChange(row.status, status)] + [Done(refund.executionRef, status)]
        == row.log + ([ErrorEntry(RefundExecutionRejected)] + done);
  }

  /** An escalation or a failure of a run closes its case as ESCALATED for good. */
  lemma {:induction false} AgentClosesForGood(steps: seq<Step>, e: Event, authorization: Authorization, more: seq<Step>)
    requires Expected(Run(Empty, steps).db, e) && (e.payload.EscalatedManually? || e.payload.RunFailed?)
    requires !Terminal(Run(Empty, steps).db.cases[e.caseRef].status)
    ensures var later := Run(Empty, steps + [Project(e, authorization)] + more).db;
      && Recorded(later, e)
      && e.caseRef in later.cases && later.cases[e.caseRef].status == Escalated
  {
    var db := Run(Empty, steps).db;
    if e.payload.RunFailed? { FailureCloses(db, e, authorization); } else { EscalationCloses(db, e, authorization); }
    RunSnoc(Empty, steps, Project(e, authorization));
    LaterRunsGrow(steps + [Project(e, authorization)], more);
  }

  // ------------------------------------------------------------------ what a rejection does

  /** The reference a rejection leaves: the rejected event's id, or the message's. */
  predicate NamesRejection(ref: string, messageId: string, refs: References) {
    match refs.eventId case Some(id) => ref == id case None => ref == "rejected:" + messageId
  }

  /** A rejection is remembered by its message; it changes more only if the case it names exists. */
  lemma RejectionIsNoted(db: Db, messageId: string, refs: References)
    ensures var tx := RejectTx(db, messageId, refs);
      && (messageId in db.rejected ==> tx == Tx(AlreadyRejected, db))
      && (messageId !in db.rejected && !(refs.caseRef.Some? && refs.caseRef.value in db.cases) ==>
            tx == Tx(RejectedOnly, db.(rejected := db.rejected[messageId := RejectedRow(refs.caseRef, false)])))
  {
  }

  /** The command's projection after a rejection naming the case: ended, unless it belongs to another case or was ended before. */
  predicate CommandEnded(db: Db, later: Db, commandId: string, caseRef: string, ref: string) {
    && commandId in later.cursors
    && (commandId !in db.cursors ==> later.cursors[commandId] == CursorRow(caseRef, 0, Some(ref)))
    && (commandId in db.cursors ==>
          var before := db.cursors[commandId];
          later.cursors[commandId] == if before.caseRef == caseRef && before.terminatedBy.None? then before.(terminatedBy := Some(ref)) else before)
    && later.cursors == db.cursors[commandId := later.cursors[commandId]]
  }

  /** The first rejection of a message that names a known case escalates an open case, with its error, and ends the command. */
  lemma RejectionCloses(db: Db, messageId: string, refs: References)
    requires messageId !in db.rejected && refs.caseRef.Some? && refs.caseRef.value in db.cases
    ensures var tx, c := RejectTx(db, messageId, refs), refs.caseRef.value;
      var row := db.cases[c];
      exists ref ::
        && NamesRejection(ref, messageId, refs)
        && tx.db == db.(rejected := db.rejected[messageId := RejectedRow(refs.caseRef, true)], cursors := tx.db.cursors, cases := tx.db.cases)
        && tx.db.cases == (if Terminal(row.status) then db.cases
             else db.cases[c := row.(status := Escalated,
                                     log := row.log + [ErrorEntry(AgentEventRejected), StateChange(row.status, Escalated), Done(ref, Escalated)])])
        && (refs.commandId.None? ==> tx.db.cursors == db.cursors)
        && (refs.commandId.Some? ==> CommandEnded(db, tx.db, refs.commandId.value, c, ref))
  {
    var row := db.cases[refs.caseRef.value];
    var ref := if refs.eventId.Some? then refs.eventId.value else "rejected:" + messageId;
    TerminalIsStuck(row.status);
    assert row.log + [ErrorEntry(AgentEventRejected)] + [StateChange(row.status, Escalated)] + [Done(ref, Escalated)]
        == row.log + [ErrorEntry(AgentEventRejected), StateChange(row.status, Escalated), Done(ref, Escalated)];
    assert NamesRejection(ref, messageId, refs);
  }

  /** The command's projection for the case is terminated, and the case is closed. */
  predicate Shut(db: Db, commandId: string, caseRef: string) {
    && commandId in db.cursors && db.cursors[commandId].caseRef == caseRef && db.cursors[commandId].terminatedBy.Some?
    && caseRef in db.cases && Terminal(db.cases[caseRef].status)
  }

  /** No event of the command that is not processed yet is ever applicable. */
  ghost predicate AppliesNoMore(db: Db, commandId: string) {
    forall e: Event, authorization: Authorization | e.commandId == commandId && e.eventId !in db.processed ::
      RefusedAs(db, ProjectTx(db, e, authorization))
  }

  lemma ShutRefuses(db: Db, commandId: string, caseRef: string)
    requires Shut(db, commandId, caseRef)
    ensures AppliesNoMore(db, commandId)
  {
    forall e: Event, authorization: Authorization | e.commandId == commandId && e.eventId !in db.processed
      ensures RefusedAs(db, ProjectTx(db, e, authorization))
    {
      GateExactly(db, e, authorization);
    }
  }

  /** A step that moves the cursor of a command is the second transaction of a refund of another case. */
  predicate MovesOnlyElsewhere(s: Sys, step: Step, commandId: string, caseRef: string) {
    var later := Next(s, step);
    commandId in s.db.cursors && commandId in later.db.cursors && later.db.cursors[commandId] != s.db.cursors[commandId] ==>
      step.CompleteRefund? && step.e in s.executed && step.e.commandId == commandId && step.e.caseRef != caseRef
  }

  /** Only the second transaction of another case's refund, which does not look at terminations, can still move the cursor. */
  lemma ShutCursorMoves(s: Sys, step: Step, commandId: string, caseRef: string)
    requires Shut(s.db, commandId, caseRef)
    ensures commandId in Next(s, step).db.cursors
    ensures Next(s, step).db.cursors[commandId].terminatedBy == s.db.cursors[commandId].terminatedBy
    ensures Next(s, step).db.cursors[commandId].caseRef == caseRef
    ensures MovesOnlyElsewhere(s, step, commandId, caseRef)
  {
  }

  lemma {:induction false} ShutStays(steps: seq<Step>, more: seq<Step>, commandId: string, caseRef: string)
    requires Shut(Run(Empty, steps).db, commandId, caseRef)
    ensures Shut(Run(Empty, steps + more).db, commandId, caseRef)
  {
    if more == [] {
      assert steps + more == steps;
    } else {
      var shorter, last := steps + more[..|more| - 1], more[|more| - 1];
      ShutStays(steps, more[..|more| - 1], commandId, caseRef);
      assert steps + more == shorter + [last];
      RunSnoc(Empty, shorter, last);
      ShutCursorMoves(Run(Empty, shorter), last, commandId, caseRef);
      OneMoreStepGrows(shorter, last);
    }
  }

  /**
   A rejection ends its command for good: once a message that names a known case and one of its
   commands is rejected for the first time, no event of that command is applied any more, in any
   later state, and nothing but another case's refund moves its cursor.
   */
  lemma {:induction false} RejectionEndsCommand(steps: seq<Step>, messageId: string, refs: References, more: seq<Step>)
    requires var db := Run(Empty, steps).db;
      && messageId !in db.rejected && refs.commandId.Some? && refs.caseRef.Some? && refs.caseRef.value in db.cases
      && (refs.commandId.value in db.cursors ==> db.cursors[refs.commandId.value].caseRef == refs.caseRef.value)
    ensures var later := Run(Empty, steps + [RejectMessage(messageId, refs)] + more);
      && Shut(later.db, refs.commandId.value, refs.caseRef.value)
      && AppliesNoMore(later.db, refs.commandId.value)
      && (forall step :: MovesOnlyElsewhere(later, step, refs.commandId.value, refs.caseRef.value))
  {
    var k, c := refs.commandId.value, refs.caseRef.value;
    RejectionShuts(steps, messageId, refs);
    ShutStays(steps + [RejectMessage(messageId, refs)], more, k, c);
    ShutIsFinal(Run(Empty, steps + [RejectMessage(messageId, refs)] + more), k, c);
  }

  lemma {:induction false} RejectionShuts(steps: seq<Step>, messageId: string, refs: References)
    requires var db := Run(Empty, steps).db;
      && messageId !in db.rejected && refs.commandId.Some? && refs.caseRef.Some? && refs.caseRef.value in db.cases
      && (refs.commandId.value in db.cursors ==> db.cursors[refs.commandId.value].caseRef == refs.caseRef.value)
    ensures Shut(Run(Empty, steps + [RejectMessage(messageId, refs)]).db, refs.commandId.value, refs.caseRef.value)
  {
    RejectionCloses(Run(Empty, steps).db, messageId, refs);
    RunSnoc(Empty, steps, RejectMessage(messageId, refs));
  }

  lemma ShutIsFinal(s: Sys, commandId: string, caseRef: string)
    requires Shut(s.db, commandId, caseRef)
    ensures AppliesNoMore(s.db, commandId)
    ensures forall step :: MovesOnlyElsewhere(s, step, commandId, caseRef)
  {
    ShutRefuses(s.db, commandId, caseRef);
    forall step ensures MovesOnlyElsewhere(s, step, commandId, caseRef) { ShutCursorMoves(s, step, commandId, caseRef); }
  }

  // ------------------------------------------------------------------ what the entry points do

  /** The case is back in OBSERVING with these entries, and its next command is enqueued. */
  predicate ReturnedAs(db: Db, caseRef: string, entries: seq<LogEntry>, commandId: string, later: Db)
    requires caseRef in db.cases
  {
    var row := db.cases[caseRef];
    later == db.(cases := db.cases[caseRef := row.(status := Observing, log := row.log + entries)],
                 outbox := db.outbox + [OutboxEntry(commandId, caseRef)], confirmations := later.confirmations)
  }

  predicate FreshCommand(db: Db, commandId: string) { forall i :: 0 <= i < |db.outbox| ==> db.outbox[i].commandId != commandId }

  /** A case is opened with its first turn and its first command, or not at all. */
  lemma CreateOpens(db: Db, caseRef: string, threadId: string, v2: bool, message: string, commandId: string, accepted: bool)
    ensures var tx := CreateTx(db, caseRef, threadId, v2, message, commandId, accepted);
      && (tx.answer <==> accepted && caseRef !in db.cases && FreshCommand(db, commandId))
      && (!tx.answer ==> tx.db == db)
      && (tx.answer ==>
            tx.db == db.(cases := db.cases[caseRef := CaseRow(threadId, v2, Observing, [UserTurn(message)], false)],
                         outbox := db.outbox + [OutboxEntry(commandId, caseRef)]))
  {
    assert CommandExists(db.outbox, commandId) <==> !FreshCommand(db, commandId);
  }

  /** A message resumes a case that awaits clarification, or evidence if something is attached; nothing else stores it. */
  lemma MessageResumes(db: Db, caseRef: string, message: string, attachments: nat, bound: bool, commandId: string)
    ensures var tx := MessageTx(db, caseRef, message, attachments, bound, commandId);
      && (tx.answer <==>
            && caseRef in db.cases && bound && FreshCommand(db, commandId)
            && (db.cases[caseRef].status == AwaitingClarification || (db.cases[caseRef].status == AwaitingEvidence && attachments > 0)))
      && (!tx.answer ==> tx.db == db)
      && (tx.answer ==>
            && ReturnedAs(db, caseRef, [UserTurn(message), StateChange(db.cases[caseRef].status, Observing)], commandId, tx.db)
            && tx.db.confirmations == db.confirmations)
  {
    assert CommandExists(db.outbox, commandId) <==> !FreshCommand(db, commandId);
    if caseRef in db.cases {
      var row := db.cases[caseRef];
      assert row.log + [UserTurn(message)] + [StateChange(row.status, Observing)] == row.log + [UserTurn(message), StateChange(row.status, Observing)];
    }
  }

  /** A stored review resumes the case that awaits it, and no other. */
  lemma ReviewResumes(db: Db, caseRef: string, stored: bool, commandId: string)
    ensures var tx := ReviewTx(db, caseRef, stored, commandId);
      && (tx.answer <==> caseRef in db.cases && stored && FreshCommand(db, commandId) && db.cases[caseRef].status == AwaitingHumanReview)
      && (!tx.answer ==> tx.db == db)
      && (tx.answer ==>
            && ReturnedAs(db, caseRef, [StateChange(AwaitingHumanReview, Observing)], commandId, tx.db)
            && tx.db.confirmations == db.confirmations)
  {
    assert CommandExists(db.outbox, commandId) <==> !FreshCommand(db, commandId);
  }

  /** The request was put to this case in this version. */
  predicate Asked(db: Db, caseRef: string, requestRef: string, version: nat) {
    && caseRef in db.cases && requestRef in db.confirmations
    && db.confirmations[requestRef].caseRef == caseRef && db.confirmations[requestRef].request.selectionVersion == version
  }

  /** The case awaits the answer to exactly this request. */
  predicate Active(db: Db, caseRef: string, requestRef: string)
    requires caseRef in db.cases && requestRef in db.confirmations
  {
    && db.cases[caseRef].status == AwaitingPolicyConfirmation
    && Read(db.cases[caseRef].log).interrupt == Some(PolicyConfirmation(db.confirmations[requestRef].request))
  }

  /** A consent is answered by what is stored, if anything is, and stored only for the request the case awaits. */
  lemma ConsentAnswers(db: Db, caseRef: string, requestRef: string, version: nat, accept: bool, key: string, commandId: string)
    ensures var tx := ConfirmTx(db, caseRef, requestRef, version, accept, key, commandId);
      && (!Asked(db, caseRef, requestRef, version) ==> tx == Tx(false, db))
      && (Asked(db, caseRef, requestRef, version) && db.confirmations[requestRef].response.Some? ==>
            tx == Tx(db.confirmations[requestRef].response.value.0 == accept && db.confirmations[requestRef].response.value.1 == key, db))
      && (Asked(db, caseRef, requestRef, version) && db.confirmations[requestRef].response.None? ==>
            && (tx.answer <==> Active(db, caseRef, requestRef) && FreshCommand(db, commandId))
            && (!tx.answer ==> tx.db == db)
            && (tx.answer ==>
                  && ReturnedAs(db, caseRef, [StateChange(AwaitingPolicyConfirmation, Observing)], commandId, tx.db)
                  && tx.db.confirmations == db.confirmations[requestRef := db.confirmations[requestRef].(response := Some((accept, key)))]))
  {
    assert CommandExists(db.outbox, commandId) <==> !FreshCommand(db, commandId);
  }

  /** A stored request keeps its case and content, and a stored answer is never replaced. */
  predicate ConfirmationStays(db: Db, later: Db, ref: string)
    requires ref in db.confirmations
  {
    && ref in later.confirmations
    && later.confirmations[ref].caseRef == db.confirmations[ref].caseRef
    && later.confirmations[ref].request == db.confirmations[ref].request
    && (db.confirmations[ref].response.Some? ==> later.confirmations[ref].response == db.confirmations[ref].response)
  }

  lemma ProjectKeepsConfirmation(db: Db, e: Event, authorization: Authorization, ref: string)
    requires ref in db.confirmations
    ensures ConfirmationStays(db, ProjectTx(db, e, authorization).db, ref)
  {
  }

  lemma StepKeepsConfirmation(s: Sys, step: Step, ref: string)
    requires ref in s.db.confirmations
    ensures ConfirmationStays(s.db, Next(s, step).db, ref)
  {
    if step.Project? { ProjectKeepsConfirmation(s.db, step.e, step.authorization, ref); }
  }

  lemma {:induction false} RunKeepsConfirmation(s: Sys, steps: seq<Step>, ref: string)
    requires ref in s.db.confirmations
    ensures ConfirmationStays(s.db, Run(s, steps).db, ref)
  {
    if steps != [] {
      RunKeepsConfirmation(s, steps[..|steps| - 1], ref);
      StepKeepsConfirmation(Run(s, steps[..|steps| - 1]), steps[|steps| - 1], ref);
    }
  }

  lemma StepKeepsCase(s: Sys, step: Step, caseRef: string)
    requires caseRef in s.db.cases
    ensures caseRef in Next(s, step).db.cases
  {
  }

  lemma {:induction false} CasesStay(s: Sys, steps: seq<Step>, caseRef: string)
    requires caseRef in s.db.cases
    ensures caseRef in Run(s, steps).db.cases
  {
    if steps != [] {
      CasesStay(s, steps[..|steps| - 1], caseRef);
      StepKeepsCase(Run(s, steps[..|steps| - 1]), steps[|steps| - 1], caseRef);
    }
  }

  /**
   Consent is given once: after an accepted answer, whatever happens next, the same answer under
   the same key and version is accepted again and changes nothing, and any other is refused.
   */
  lemma {:induction false} ConsentIsFinal(s: Sys, caseRef: string, requestRef: string, version: nat, accept: bool, key: string, commandId: string,
                                          more: seq<Step>, version2: nat, accept2: bool, key2: string, commandId2: string)
    requires ConfirmTx(s.db, caseRef, requestRef, version, accept, key, commandId).answer
    ensures var later := Run(Next(s, ConfirmPolicy(caseRef, requestRef, version, accept, key, commandId)), more).db;
      ConfirmTx(later, caseRef, requestRef, version2, accept2, key2, commandId2)
        == Tx(version2 == version && accept2 == accept && key2 == key, later)
  {
    var now := Next(s, ConfirmPolicy(caseRef, requestRef, version, accept, key, commandId));
    ConsentAnswers(s.db, caseRef, requestRef, version, accept, key, commandId);
    RunKeepsConfirmation(now, more, requestRef);
    CasesStay(now, more, caseRef);
    ConsentAnswers(Run(now, more).db, caseRef, requestRef, version2, accept2, key2, commandId2);
  }
}
