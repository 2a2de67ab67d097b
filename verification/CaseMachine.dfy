/**
 The case lifecycle: statuses, the transition table, and the append-only case log
 (apps/api/src/return_agent/store.py).  Timestamps and display texts of log entries
 are not part of the model.
 */
module CaseMachine {
  import opened Common

  datatype CaseStatus =
    | Observing
    | AwaitingClarification
    | AwaitingEvidence
    | AwaitingHumanReview
    | AwaitingPolicyConfirmation
    | AwaitingReturnConfirmation
    | AwaitingReturn
    | AwaitingReturnInspection
    | Executing
    | Resolved
    | Escalated

  /** ALLOWED_TRANSITIONS */
  predicate Allowed(before: CaseStatus, after: CaseStatus) {
    match before
    case AwaitingPolicyConfirmation => after == Observing || after == Escalated
    case AwaitingReturnConfirmation => after == AwaitingReturn || after == Escalated
    case AwaitingReturn => after == AwaitingReturnInspection || after == Escalated
    case AwaitingReturnInspection => after == Executing || after == Escalated
    case Observing =>
      || after == AwaitingClarification
      || after == AwaitingEvidence
      || after == AwaitingHumanReview
      || after == AwaitingPolicyConfirmation
      || after == AwaitingReturnConfirmation
      || after == AwaitingReturn
      || after == Executing
      || after == Escalated
    case AwaitingClarification => after == Observing || after == Escalated
    case AwaitingEvidence => after == Observing || after == Escalated
    case AwaitingHumanReview => after == Observing || after == Executing || after == Escalated
    case Executing => after == CaseStatus.Resolved || after == Escalated
    case Resolved => false
    case Escalated => false
  }

  predicate Terminal(status: CaseStatus) {
    status == CaseStatus.Resolved || status == Escalated
  }

  /** A request for the buyer's consent to a policy path; `body` stands for its remaining fields. */
  datatype PolicyRequest = PolicyRequest(requestRef: string, caseRef: string, selectionVersion: nat, body: string)

  datatype InterruptPayload =
    | Clarification(question: string)
    | EvidenceRequest(request: string)
    | HumanReview(review: string)
    | PolicyConfirmation(policyRequest: PolicyRequest)

  datatype ErrorCode = AgentNodeError | AgentRunFailed | AgentEventRejected | RefundExecutionRejected

  datatype LogEntry =
    | UserTurn(message: string)
    | NodeEnter(node: string)
    | NodeExit(node: string)
    | MemoryRetrieval(node: string)
    | ErrorEntry(code: ErrorCode)
    | Interrupt(payload: InterruptPayload)
    | StateChange(before: CaseStatus, after: CaseStatus)
    | Done(terminalRef: string, status: CaseStatus)

  /** `fulfilment` marks a case whose v2 refund authorization has been handed to the fulfilment worker. */
  datatype CaseRow = CaseRow(threadId: string, v2: bool, status: CaseStatus, log: seq<LogEntry>, fulfilment: bool)

  function AwaitingFor(payload: InterruptPayload): CaseStatus {
    match payload
    case Clarification(_) => AwaitingClarification
    case EvidenceRequest(_) => AwaitingEvidence
    case HumanReview(_) => AwaitingHumanReview
    case PolicyConfirmation(_) => AwaitingPolicyConfirmation
  }

  /** CaseStore.transition followed by the state_change entry every caller appends; None is IllegalTransitionError. */
  function MoveTo(row: CaseRow, target: CaseStatus): Option<CaseRow> {
    if Allowed(row.status, target)
    then Some(row.(status := target, log := row.log + [StateChange(row.status, target)]))
    else None
  }

  function Append(row: CaseRow, entry: LogEntry): CaseRow {
    row.(log := row.log + [entry])
  }

  // ---------------------------------------------------------------- readings of the log

  /**
   What a log says: the status its state changes lead to from Observing (None if some change
   does not fit), how many done entries, returns to Observing, entries into Executing and
   entries into Resolved it has, and its latest interrupt.
   */
  datatype Reading = Reading(status: Option<CaseStatus>, dones: nat, resumptions: nat, starts: nat, resolutions: nat,
                             interrupt: Option<InterruptPayload>)

  function Observe(r: Reading, e: LogEntry): Reading {
    match e
    case StateChange(before, after) =>
      Reading(if r.status == Some(before) && Allowed(before, after) then Some(after) else None,
              r.dones,
              r.resumptions + (if after == Observing then 1 else 0),
              r.starts + (if after == Executing then 1 else 0),
              r.resolutions + (if after == CaseStatus.Resolved then 1 else 0),
              r.interrupt)
    case Done(_, _) => r.(dones := r.dones + 1)
    case Interrupt(payload) => r.(interrupt := Some(payload))
    case _ => r
  }

  function Read(log: seq<LogEntry>): Reading {
    if log == [] then Reading(Some(Observing), 0, 0, 0, 0, None)
    else Observe(Read(log[..|log| - 1]), log[|log| - 1])
  }

  lemma ReadAppend(log: seq<LogEntry>, e: LogEntry)
    ensures Read(log + [e]) == Observe(Read(log), e)
  {
    assert (log + [e])[..|log|] == log;
  }

  /**
   The transition table admits at most one entry into Executing and one into Resolved on any
   consistent log, and none while the case has not got that far.
   */
  lemma {:induction false} ExecutesAtMostOnce(log: seq<LogEntry>)
    requires Read(log).status.Some?
    ensures var r := Read(log);
            && r.starts <= (if r.status.value == Executing || Terminal(r.status.value) then 1 else 0)
            && r.resolutions == (if r.status.value == CaseStatus.Resolved then 1 else 0)
            && (r.status.value == Executing || r.status.value == CaseStatus.Resolved ==> r.starts == 1)
  {
    if log != [] {
      ExecutesAtMostOnce(log[..|log| - 1]);
    }
  }

  /** CaseStore.latest_interrupt: the transcript is searched from its end. */
  method LatestInterrupt(log: seq<LogEntry>) returns (latest: Option<InterruptPayload>)
    ensures latest == Read(log).interrupt
    ensures latest.Some? ==> Interrupt(latest.value) in log
    ensures latest.None? ==> forall i :: 0 <= i < |log| ==> !log[i].Interrupt?
  {
    var n := |log|;
    assert log[..n] == log;
    while n > 0
      invariant 0 <= n <= |log|
      invariant Read(log).interrupt == Read(log[..n]).interrupt
      invariant forall i :: n <= i < |log| ==> !log[i].Interrupt?
    {
      assert log[..n][..n - 1] == log[..n - 1];
      if log[n - 1].Interrupt? {
        return Some(log[n - 1].payload);
      }
      n := n - 1;
    }
    return None;
  }

  /** append_turn tests for an empty successor set, reject for the two terminal statuses: the same cases. */
  lemma TerminalIsStuck(status: CaseStatus)
    ensures Terminal(status) <==> forall after :: !Allowed(status, after)
    ensures !Terminal(status) ==> Allowed(status, Escalated)
  {
    assert !Terminal(status) ==> Allowed(status, Escalated);
  }
}
