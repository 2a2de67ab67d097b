/**
 The case database of the API service and its transactions: the Agent event projector
 (apps/api/src/return_agent/agent_bridge.py) and the entry points that hand a case back to
 the Agent (app.py, policy_routes.py).  Every function ending in Tx is one committed
 database transaction; a raised exception leaves the database as it was.  The SHA-256
 digest of an event is modelled by the event itself, which makes it injective.
 */
module Projection {
  import opened Common
  import opened CaseMachine

  datatype Phase = Enter | Exit | Failed

  /** The part of a resolution handoff the projector reads. */
  datatype Handoff = Handoff(handoffId: string, fullRefund: bool, executionBlocked: bool)

  /** `renders` says whether the adapters accept the interrupt (they raise UIAdapterError otherwise). */
  datatype EventPayload =
    | NodeObserved(phase: Phase, node: string, memory: bool)
    | Interrupted(interrupt: InterruptPayload, renders: bool)
    | Resolution(handoff: Handoff)
    | EscalatedManually
    | RunFailed(retryable: bool, failedNode: string)

  datatype Event = Event(eventId: string, commandId: string, caseRef: string, threadId: string,
                         index: nat, occurredAt: int, payload: EventPayload)

  datatype ProcessedRow = ProcessedRow(caseRef: string, commandId: string, index: nat, digest: Event)
  datatype CursorRow = CursorRow(caseRef: string, last: nat, terminatedBy: Option<string>)
  /** `caseKnown` records whether the case existed when the message was rejected. */
  datatype RejectedRow = RejectedRow(caseRef: Option<string>, caseKnown: bool)
  datatype ConfirmationRow = ConfirmationRow(caseRef: string, request: PolicyRequest, response: Option<(bool, string)>)
  datatype OutboxEntry = OutboxEntry(commandId: string, caseRef: string)

  datatype Db = Db(cases: map<string, CaseRow>,
                   processed: map<string, ProcessedRow>,
                   cursors: map<string, CursorRow>,
                   rejected: map<string, RejectedRow>,
                   confirmations: map<string, ConfirmationRow>,
                   outbox: seq<OutboxEntry>)

  /** A transaction's answer and the database it leaves. */
  datatype Tx<+A> = Tx(answer: A, db: Db)

  /** The executor's record; `executionRef` is its own reference. */
  datatype RefundRecord = RefundRecord(executionRef: string, succeeded: bool)

  /**
   The effect of register_authorization, which is not part of this model: it raises, or it
   moves the case along the transition table and appends to its log.
   */
  datatype Authorization = NotAuthorized | Authorized(status: CaseStatus, entries: seq<LogEntry>)

  // ------------------------------------------------------------------ projecting one event

  datatype ProjectAnswer =
    | Duplicate      // project returned False
    | Deferred       // AgentEventGapError
    | Inapplicable   // InvalidAgentEventError
    | Projected      // committed and recorded as processed
    | AwaitsRefund   // committed; the executor is called next

  datatype Applied =
    | Refused
    | Complete(row: CaseRow, confirmation: Option<ConfirmationRow>)
    | AwaitExecutor(row: CaseRow)

  predicate IsV1Refund(row: CaseRow, e: Event) {
    && e.payload.Resolution?
    && e.payload.handoff.fullRefund
    && !e.payload.handoff.executionBlocked
    && !row.v2
  }

  function Finish(row: Option<CaseRow>, terminalRef: string, known: Option<ConfirmationRow>): Applied {
    match row
    case None => Refused
    case Some(r) => Complete(Append(r, Done(terminalRef, r.status)), known)
  }

  function ApplyInterrupt(row: CaseRow, known: Option<ConfirmationRow>, e: Event): Applied
    requires e.payload.Interrupted?
  {
    var payload := e.payload.interrupt;
    if payload.PolicyConfirmation? &&
       (payload.policyRequest.caseRef != e.caseRef || !row.v2 || (known.Some? && known.value.request != payload.policyRequest))
    then Refused
    else if !e.payload.renders then Refused
    else
      match MoveTo(Append(row, Interrupt(payload)), AwaitingFor(payload))
      case None => Refused
      case Some(r) =>
        Complete(r, if payload.PolicyConfirmation? && known.None?
                    then Some(ConfirmationRow(e.caseRef, payload.policyRequest, None)) else known)
  }

  function ApplyResolution(row: CaseRow, known: Option<ConfirmationRow>, e: Event, authorization: Authorization): Applied
    requires e.payload.Resolution?
  {
    var handoff := e.payload.handoff;
    if row.v2 && handoff.fullRefund then
      match authorization
      case NotAuthorized => Refused
      case Authorized(status, entries) =>
        if status == row.status || Allowed(row.status, status)
        then Complete(row.(status := status, log := row.log + entries, fulfilment := true), known)
        else Refused
    else if handoff.fullRefund && !handoff.executionBlocked then
      if row.status == Observing then AwaitExecutor(MoveTo(row, Executing).value)
      else if row.status == Executing then AwaitExecutor(row)
      else Refused
    else
      match MoveTo(row, Executing)
      case None => Refused
      case Some(executing) => Finish(MoveTo(executing, CaseStatus.Resolved), handoff.handoffId, known)
  }

  function NodeEntry(phase: Phase, node: string): LogEntry {
    match phase
    case Enter => NodeEnter(node)
    case Exit => NodeExit(node)
    case Failed => ErrorEntry(AgentNodeError)
  }

  /** AgentEventProjector._apply; `known` is the stored confirmation of the request the event names. */
  function ApplyEvent(row: CaseRow, known: Option<ConfirmationRow>, e: Event, authorization: Authorization): Applied {
    match e.payload
    case NodeObserved(phase, node, memory) =>
      var noted := Append(row, NodeEntry(phase, node));
      Complete(if phase != Failed && memory then Append(noted, MemoryRetrieval(node)) else noted, known)
    case Interrupted(_, _) => ApplyInterrupt(row, known, e)
    case Resolution(_) => ApplyResolution(row, known, e, authorization)
    case EscalatedManually => Finish(MoveTo(row, Escalated), e.eventId, known)
    case RunFailed(_, _) => Finish(MoveTo(Append(row, ErrorEntry(AgentRunFailed)), Escalated), e.eventId, known)
  }

  /** The confirmation request an event names, if any. */
  function RequestRefs(e: Event): set<string> {
    if e.payload.Interrupted? && e.payload.interrupt.PolicyConfirmation?
    then {e.payload.interrupt.policyRequest.requestRef} else {}
  }

  function Known(confirmations: map<string, ConfirmationRow>, e: Event): Option<ConfirmationRow> {
    if e.payload.Interrupted? && e.payload.interrupt.PolicyConfirmation? &&
       e.payload.interrupt.policyRequest.requestRef in confirmations
    then Some(confirmations[e.payload.interrupt.policyRequest.requestRef]) else None
  }

  function StoreConfirmation(confirmations: map<string, ConfirmationRow>, row: Option<ConfirmationRow>): map<string, ConfirmationRow> {
    if row.Some? then confirmations[row.value.request.requestRef := row.value] else confirmations
  }

  /** _record_processed: the processed row and the cursor of the command. */
  function Record(db: Db, e: Event): Db {
    db.(processed := db.processed[e.eventId := ProcessedRow(e.caseRef, e.commandId, e.index, e)],
        cursors := db.cursors[e.commandId :=
          if e.commandId in db.cursors then db.cursors[e.commandId].(last := e.index) else CursorRow(e.caseRef, e.index, None)])
  }

  function ExpectedIndex(db: Db, commandId: string): nat {
    if commandId in db.cursors then db.cursors[commandId].last + 1 else 1
  }

  /** The first transaction of AgentEventProjector.project. */
  function ProjectTx(db: Db, e: Event, authorization: Authorization): Tx<ProjectAnswer> {
    if e.caseRef !in db.cases then Tx(Inapplicable, db)
    else if e.eventId in db.processed then
      Tx(if db.processed[e.eventId] == ProcessedRow(e.caseRef, e.commandId, e.index, e) then Duplicate else Inapplicable, db)
    else if db.cases[e.caseRef].threadId != e.threadId then Tx(Inapplicable, db)
    else if e.commandId in db.cursors &&
            (db.cursors[e.commandId].caseRef != e.caseRef || db.cursors[e.commandId].terminatedBy.Some?)
    then Tx(Inapplicable, db)
    else if e.index > ExpectedIndex(db, e.commandId) then Tx(Deferred, db)
    else if e.index < ExpectedIndex(db, e.commandId) then Tx(Inapplicable, db)
    else
      match ApplyEvent(db.cases[e.caseRef], Known(db.confirmations, e), e, authorization)
      case Refused => Tx(Inapplicable, db)
      case AwaitExecutor(row) => Tx(AwaitsRefund, db.(cases := db.cases[e.caseRef := row]))
      case Complete(row, confirmation) =>
        Tx(Projected, Record(db.(cases := db.cases[e.caseRef := row],
                                 confirmations := StoreConfirmation(db.confirmations, confirmation)), e))
  }

  datatype CompleteAnswer = AlreadyProcessed | OutOfOrder | Illegal | Completed

  /** The case row _complete_refund leaves, or None where its transition is illegal. */
  function RefundOutcome(row: CaseRow, refund: RefundRecord): Option<CaseRow> {
    var moved := if refund.succeeded then MoveTo(row, CaseStatus.Resolved)
                 else MoveTo(Append(row, ErrorEntry(RefundExecutionRejected)), Escalated);
    if moved.Some? then Some(Append(moved.value, Done(refund.executionRef, moved.value.status))) else None
  }

  /** The second transaction, _complete_refund: it tests neither the cursor's case nor its termination. */
  function CompleteTx(db: Db, e: Event, refund: RefundRecord): Tx<CompleteAnswer> {
    if e.caseRef !in db.cases then Tx(Illegal, db)
    else if e.eventId in db.processed then Tx(AlreadyProcessed, db)
    else if e.commandId in db.cursors && db.cursors[e.commandId].last + 1 != e.index then Tx(OutOfOrder, db)
    else
      match RefundOutcome(db.cases[e.caseRef], refund)
      case None => Tx(Illegal, db)
      case Some(row) => Tx(Completed, Record(db.(cases := db.cases[e.caseRef := row]), e))
  }

  // ------------------------------------------------------------------ rejecting a message

  /** References read from a message body; any of them may be missing. */
  datatype References = References(eventId: Option<string>, commandId: Option<string>, caseRef: Option<string>)

  datatype RejectAnswer = AlreadyRejected | RejectedOnly | CaseClosed | CaseAlreadyTerminal | RejectIllegal

  function TerminationRef(messageId: string, refs: References): string {
    if refs.eventId.Some? then refs.eventId.value else "rejected:" + messageId
  }

  function TerminateCursor(cursors: map<string, CursorRow>, commandId: Option<string>, caseRef: string, ref: string): map<string, CursorRow> {
    if commandId.None? then cursors
    else if commandId.value !in cursors then cursors[commandId.value := CursorRow(caseRef, 0, Some(ref))]
    else if cursors[commandId.value].caseRef == caseRef && cursors[commandId.value].terminatedBy.None?
    then cursors[commandId.value := cursors[commandId.value].(terminatedBy := Some(ref))]
    else cursors
  }

  /** AgentEventProjector.reject */
  function RejectTx(db: Db, messageId: string, refs: References): Tx<RejectAnswer> {
    if messageId in db.rejected then Tx(AlreadyRejected, db)
    else
      var known := refs.caseRef.Some? && refs.caseRef.value in db.cases;
      var noted := db.(rejected := db.rejected[messageId := RejectedRow(refs.caseRef, known)]);
      if !known then Tx(RejectedOnly, noted)
      else
        var caseRef := refs.caseRef.value;
        var ref := TerminationRef(messageId, refs);
        var ended := noted.(cursors := TerminateCursor(db.cursors, refs.commandId, caseRef, ref));
        if Terminal(db.cases[caseRef].status) then Tx(CaseAlreadyTerminal, ended)
        else
          match MoveTo(Append(db.cases[caseRef], ErrorEntry(AgentEventRejected)), Escalated)
          case None => Tx(RejectIllegal, db)
          case Some(row) => Tx(CaseClosed, ended.(cases := ended.cases[caseRef := Append(row, Done(ref, Escalated))]))
  }

  // ------------------------------------------------------------------ the entry points of the API

  predicate CommandExists(outbox: seq<OutboxEntry>, commandId: string) {
    exists i :: 0 <= i < |outbox| && outbox[i].commandId == commandId
  }

  function Enqueue(db: Db, commandId: string, caseRef: string): Db {
    db.(outbox := db.outbox + [OutboxEntry(commandId, caseRef)])
  }

  /** create_case; `accepted` stands for the attachment and scenario checks. */
  function CreateTx(db: Db, caseRef: string, threadId: string, v2: bool, message: string, commandId: string, accepted: bool): Tx<bool> {
    if !accepted || caseRef in db.cases || CommandExists(db.outbox, commandId) then Tx(false, db)
    else Tx(true, Enqueue(db.(cases := db.cases[caseRef := CaseRow(threadId, v2, Observing, [UserTurn(message)], false)]),
                          commandId, caseRef))
  }

  /** The common tail of send_message, complete_human_review and confirm_policy. */
  function ResumeTx(db: Db, caseRef: string, row: CaseRow, commandId: string): Tx<bool> {
    match MoveTo(row, Observing)
    case None => Tx(false, db)
    case Some(resumed) =>
      if CommandExists(db.outbox, commandId) then Tx(false, db)
      else Tx(true, Enqueue(db.(cases := db.cases[caseRef := resumed]), commandId, caseRef))
  }

  /** send_message; `attachments` is the number of attached artifacts, `bound` whether they can be bound. */
  function MessageTx(db: Db, caseRef: string, message: string, attachments: nat, bound: bool, commandId: string): Tx<bool> {
    if caseRef !in db.cases then Tx(false, db)
    else
      var row := db.cases[caseRef];
      if row.status != AwaitingClarification && row.status != AwaitingEvidence then Tx(false, db)
      else if row.status == AwaitingEvidence && attachments == 0 then Tx(false, db)
      else if !bound then Tx(false, db)
      else ResumeTx(db, caseRef, Append(row, UserTurn(message)), commandId)
  }

  /** complete_human_review; `stored` says whether the review provider accepted the decision. */
  function ReviewTx(db: Db, caseRef: string, stored: bool, commandId: string): Tx<bool> {
    if caseRef !in db.cases || db.cases[caseRef].status != AwaitingHumanReview || !stored then Tx(false, db)
    else ResumeTx(db, caseRef, db.cases[caseRef], commandId)
  }

  /** confirm_policy */
  function ConfirmTx(db: Db, caseRef: string, requestRef: string, version: nat, accept: bool, key: string, commandId: string): Tx<bool> {
    if caseRef !in db.cases || requestRef !in db.confirmations || db.confirmations[requestRef].caseRef != caseRef then Tx(false, db)
    else
      var known := db.confirmations[requestRef];
      if known.request.selectionVersion != version then Tx(false, db)
      else if known.response.Some? then Tx(known.response.value == (accept, key), db)
      else if db.cases[caseRef].status != AwaitingPolicyConfirmation
              || Read(db.cases[caseRef].log).interrupt != Some(PolicyConfirmation(known.request))
      then Tx(false, db)
      else
        var resumed := ResumeTx(db, caseRef, db.cases[caseRef], commandId);
        if resumed.answer
        then Tx(true, resumed.db.(confirmations := db.confirmations[requestRef := known.(response := Some((accept, key)))]))
        else resumed
  }
}
