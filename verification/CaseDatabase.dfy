/**
 The transactions of the case database in their imperative form: each method works on the rows
 it has locked and writes them back when the transaction commits; returning before that is the
 rollback of a raised exception.  Every method is proved against the transaction function of
 module Projection, about which the run results are proved.
 */
module CaseDatabase {
  import opened Common
  import opened CaseMachine
  import opened Projection

  /** The session's view of one locked case while an event is applied to it. */
  class CaseSession {
    var status: CaseStatus
    var log: seq<LogEntry>
    var fulfilment: bool
    const threadId: string
    const v2: bool

    function Row(): CaseRow
      reads this
    {
      CaseRow(threadId, v2, status, log, fulfilment)
    }

    constructor (row: CaseRow)
      ensures Row() == row
    {
      threadId, v2, status, log, fulfilment := row.threadId, row.v2, row.status, row.log, row.fulfilment;
    }

    method Append(entry: LogEntry)
      modifies this
      ensures Row() == CaseMachine.Append(old(Row()), entry)
    {
      log := log + [entry];
    }

    /** _transition; false is IllegalTransitionError. */
    method Transition(target: CaseStatus) returns (legal: bool)
      modifies this
      ensures legal <==> MoveTo(old(Row()), target).Some?
      ensures legal ==> MoveTo(old(Row()), target) == Some(Row())
      ensures !legal ==> Row() == old(Row())
    {
      if !Allowed(status, target) {
        return false;
      }
      var current := status;
      status := target;
      log := log + [StateChange(current, target)];
      return true;
    }

    /** A transition into a terminal status followed by its done entry. */
    method Close(target: CaseStatus, terminalRef: string, known: Option<ConfirmationRow>) returns (applied: Applied)
      modifies this
      ensures applied == Finish(MoveTo(old(Row()), target), terminalRef, known)
    {
      var legal := Transition(target);
      if !legal {
        return Refused;
      }
      Append(Done(terminalRef, status));
      return Complete(Row(), known);
    }

    method ProjectInterrupt(e: Event, known: Option<ConfirmationRow>) returns (applied: Applied)
      requires e.payload.Interrupted?
      modifies this
      ensures applied == ApplyInterrupt(old(Row()), known, e)
    {
      var stored := known;
      match e.payload.interrupt {
        case PolicyConfirmation(request) =>
          if request.caseRef != e.caseRef || !v2 {
            return Refused;
          }
          if known.Some? && known.value.request != request {
            return Refused;
          }
          if known.None? {
            stored := Some(ConfirmationRow(e.caseRef, request, None));
          }
        case _ =>
      }
      if !e.payload.renders {
        return Refused;
      }
      Append(Interrupt(e.payload.interrupt));
      var legal := Transition(AwaitingFor(e.payload.interrupt));
      if !legal {
        return Refused;
      }
      return Complete(Row(), stored);
    }

    method ProjectResolution(e: Event, known: Option<ConfirmationRow>, authorization: Authorization) returns (applied: Applied)
      requires e.payload.Resolution?
      modifies this
      ensures applied == ApplyResolution(old(Row()), known, e, authorization)
    {
      var handoff := e.payload.handoff;
      if v2 && handoff.fullRefund {
        if authorization.NotAuthorized? || (authorization.status != status && !Allowed(status, authorization.status)) {
          return Refused;
        }
        status, log, fulfilment := authorization.status, log + authorization.entries, true;
        return Complete(Row(), known);
      }
      if handoff.fullRefund && !handoff.executionBlocked {
        if status == Observing {
          var started := Transition(Executing);
        } else if status != Executing {
          return Refused;
        }
        return AwaitExecutor(Row());
      }
      var legal := Transition(Executing);
      if !legal {
        return Refused;
      }
      applied := Close(CaseStatus.Resolved, handoff.handoffId, known);
    }

    /** _apply */
    method Apply(e: Event, known: Option<ConfirmationRow>, authorization: Authorization) returns (applied: Applied)
      modifies this
      ensures applied == ApplyEvent(old(Row()), known, e, authorization)
    {
      match e.payload {
        case NodeObserved(phase, node, memory) =>
          if phase == Failed {
            Append(ErrorEntry(AgentNodeError));
            return Complete(Row(), known);
          }
          Append(if phase == Enter then NodeEnter(node) else NodeExit(node));
          if memory {
            Append(MemoryRetrieval(node));
          }
          return Complete(Row(), known);
        case Interrupted(_, _) =>
          applied := ProjectInterrupt(e, known);
        case Resolution(_) =>
          applied := ProjectResolution(e, known, authorization);
        case EscalatedManually =>
          applied := Close(Escalated, e.eventId, known);
        case RunFailed(_, _) =>
          Append(ErrorEntry(AgentRunFailed));
          applied := Close(Escalated, e.eventId, known);
      }
    }
  }

  class Database {
    var cases: map<string, CaseRow>
    var processed: map<string, ProcessedRow>
    var cursors: map<string, CursorRow>
    var rejected: map<string, RejectedRow>
    var confirmations: map<string, ConfirmationRow>
    var outbox: seq<OutboxEntry>

    function Snapshot(): Db
      reads this
    {
      Db(cases, processed, cursors, rejected, confirmations, outbox)
    }

    constructor ()
      ensures Snapshot() == Db(map[], map[], map[], map[], map[], [])
    {
      cases, processed, cursors, rejected, confirmations, outbox := map[], map[], map[], map[], map[], [];
    }

    /** _record_processed */
    method RecordProcessed(e: Event)
      modifies this
      ensures Snapshot() == Record(old(Snapshot()), e)
    {
      processed := processed[e.eventId := ProcessedRow(e.caseRef, e.commandId, e.index, e)];
      if e.commandId !in cursors {
        cursors := cursors[e.commandId := CursorRow(e.caseRef, e.index, None)];
      } else {
        cursors := cursors[e.commandId := cursors[e.commandId].(last := e.index)];
      }
    }

    /** AgentEventProjector.project, first transaction. */
    method Project(e: Event, authorization: Authorization) returns (answer: ProjectAnswer)
      modifies this
      ensures Tx(answer, Snapshot()) == ProjectTx(old(Snapshot()), e, authorization)
    {
      if e.caseRef !in cases {
        return Inapplicable;
      }
      if e.eventId in processed {
        var row := processed[e.eventId];
        if row.caseRef == e.caseRef && row.commandId == e.commandId && row.index == e.index && row.digest == e {
          return Duplicate;
        }
        return Inapplicable;
      }
      if cases[e.caseRef].threadId != e.threadId {
        return Inapplicable;
      }
      var expected := 1;
      if e.commandId in cursors {
        var cursor := cursors[e.commandId];
        if cursor.caseRef != e.caseRef || cursor.terminatedBy.Some? {
          return Inapplicable;
        }
        expected := cursor.last + 1;
      }
      if e.index > expected {
        return Deferred;
      }
      if e.index < expected {
        return Inapplicable;
      }
      var session := new CaseSession(cases[e.caseRef]);
      var applied := session.Apply(e, Known(confirmations, e), authorization);
      match applied {
        case Refused =>
          return Inapplicable;
        case AwaitExecutor(row) =>
          cases := cases[e.caseRef := row];
          return AwaitsRefund;
        case Complete(row, confirmation) =>
          cases := cases[e.caseRef := row];
          if confirmation.Some? {
            confirmations := confirmations[confirmation.value.request.requestRef := confirmation.value];
          }
          RecordProcessed(e);
          return Projected;
      }
    }

    /** _complete_refund */
    method CompleteRefund(e: Event, refund: RefundRecord) returns (answer: CompleteAnswer)
      modifies this
      ensures Tx(answer, Snapshot()) == CompleteTx(old(Snapshot()), e, refund)
    {
      if e.caseRef !in cases {
        return Illegal;
      }
      if e.eventId in processed {
        return AlreadyProcessed;
      }
      if e.commandId in cursors && cursors[e.commandId].last + 1 != e.index {
        return OutOfOrder;
      }
      var session := new CaseSession(cases[e.caseRef]);
      var legal: bool;
      if refund.succeeded {
        legal := session.Transition(CaseStatus.Resolved);
      } else {
        session.Append(ErrorEntry(RefundExecutionRejected));
        legal := session.Transition(Escalated);
      }
      if !legal {
        return Illegal;
      }
      session.Append(Done(refund.executionRef, session.status));
      cases := cases[e.caseRef := session.Row()];
      RecordProcessed(e);
      return Completed;
    }

    /** AgentEventProjector.reject */
    method Reject(messageId: string, refs: References) returns (answer: RejectAnswer)
      modifies this
      ensures Tx(answer, Snapshot()) == RejectTx(old(Snapshot()), messageId, refs)
    {
      if messageId in rejected {
        return AlreadyRejected;
      }
      if refs.caseRef.None? || refs.caseRef.value !in cases {
        rejected := rejected[messageId := RejectedRow(refs.caseRef, false)];
        return RejectedOnly;
      }
      var caseRef := refs.caseRef.value;
      var ref := TerminationRef(messageId, refs);
      var session := new CaseSession(cases[caseRef]);
      var closed := Terminal(session.status);
      if !closed {
        session.Append(ErrorEntry(AgentEventRejected));
        var legal := session.Transition(Escalated);
        if !legal {
          return RejectIllegal;
        }
        session.Append(Done(ref, Escalated));
        cases := cases[caseRef := session.Row()];
      }
      rejected := rejected[messageId := RejectedRow(refs.caseRef, true)];
      if refs.commandId.Some? {
        var commandId := refs.commandId.value;
        if commandId !in cursors {
          cursors := cursors[commandId := CursorRow(caseRef, 0, Some(ref))];
        } else if cursors[commandId].caseRef == caseRef && cursors[commandId].terminatedBy.None? {
          cursors := cursors[commandId := cursors[commandId].(terminatedBy := Some(ref))];
        }
      }
      return if closed then CaseAlreadyTerminal else CaseClosed;
    }

    /** create_case */
    method CreateCase(caseRef: string, threadId: string, v2: bool, message: string, commandId: string, accepted: bool) returns (created: bool)
      modifies this
      ensures Tx(created, Snapshot()) == CreateTx(old(Snapshot()), caseRef, threadId, v2, message, commandId, accepted)
    {
      if caseRef in cases || !accepted || CommandExists(outbox, commandId) {
        return false;
      }
      cases := cases[caseRef := CaseRow(threadId, v2, Observing, [UserTurn(message)], false)];
      outbox := outbox + [OutboxEntry(commandId, caseRef)];
      return true;
    }

    /** The tail the three resuming entry points share: back to Observing, and one RESUME command. */
    method Resume(caseRef: string, session: CaseSession, commandId: string) returns (resumed: bool)
      modifies this, session
      ensures Tx(resumed, Snapshot()) == ResumeTx(old(Snapshot()), caseRef, old(session.Row()), commandId)
    {
      var legal := session.Transition(Observing);
      if !legal || CommandExists(outbox, commandId) {
        return false;
      }
      cases := cases[caseRef := session.Row()];
      outbox := outbox + [OutboxEntry(commandId, caseRef)];
      return true;
    }

    /** send_message */
    method SendMessage(caseRef: string, message: string, attachments: nat, bound: bool, commandId: string) returns (sent: bool)
      modifies this
      ensures Tx(sent, Snapshot()) == MessageTx(old(Snapshot()), caseRef, message, attachments, bound, commandId)
    {
      if caseRef !in cases {
        return false;
      }
      var session := new CaseSession(cases[caseRef]);
      match session.status {
        case AwaitingClarification =>
        case AwaitingEvidence =>
          if attachments == 0 {
            return false;
          }
        case _ =>
          return false;
      }
      if !bound {
        return false;
      }
      session.Append(UserTurn(message));
      sent := Resume(caseRef, session, commandId);
    }

    /** complete_human_review */
    method CompleteReview(caseRef: string, stored: bool, commandId: string) returns (completed: bool)
      modifies this
      ensures Tx(completed, Snapshot()) == ReviewTx(old(Snapshot()), caseRef, stored, commandId)
    {
      if caseRef !in cases || cases[caseRef].status != AwaitingHumanReview || !stored {
        return false;
      }
      var session := new CaseSession(cases[caseRef]);
      completed := Resume(caseRef, session, commandId);
    }

    /** confirm_policy */
    method ConfirmPolicy(caseRef: string, requestRef: string, version: nat, accept: bool, key: string, commandId: string) returns (confirmed: bool)
      modifies this
      ensures Tx(confirmed, Snapshot()) == ConfirmTx(old(Snapshot()), caseRef, requestRef, version, accept, key, commandId)
    {
      if caseRef !in cases || requestRef !in confirmations {
        return false;
      }
      var row := confirmations[requestRef];
      if row.caseRef != caseRef || row.request.selectionVersion != version {
        return false;
      }
      if row.response.Some? {
        return row.response.value == (accept, key);
      }
      var latest := LatestInterrupt(cases[caseRef].log);
      if cases[caseRef].status != AwaitingPolicyConfirmation || latest != Some(PolicyConfirmation(row.request)) {
        return false;
      }
      var session := new CaseSession(cases[caseRef]);
      confirmed := Resume(caseRef, session, commandId);
      if confirmed {
        confirmations := confirmations[requestRef := row.(response := Some((accept, key)))];
      }
    }
  }
}
