/**
 Main results over every run of the case database: two-phase refunds, the case log, and
 fail-closed rejection.
 */
module RefundSafety {
  import opened Common
  import opened CaseMachine
  import opened Projection
  import opened ProjectionRuns
  import opened ProjectionSafety

  /** Refunds between their transactions; an executed one has its record in the executor's ledger. */
  ghost predicate FlightsOk(s: Sys) {
    && (forall e :: e in s.pending ==> PendingOk(s.db, e))
    && s.executed <= s.pending
    && (forall e :: e in s.executed ==> e.payload.Resolution? && e.payload.handoff.handoffId in s.ledger)
    && (forall e :: e in s.acked ==> e.eventId in s.db.processed && (Recorded(s.db, e) || e in s.executed))
  }

  /** A refund event counts as processed exactly when its second transaction committed, once per case. */
  ghost predicate CompletionsOk(s: Sys) {
    && (forall i :: 0 <= i < |s.completions| ==>
          && s.completions[i] in s.executed
          && Recorded(s.db, s.completions[i])
          && s.completions[i].caseRef in s.db.cases
          && Terminal(s.db.cases[s.completions[i].caseRef].status))
    && (forall i, j :: 0 <= i < j < |s.completions| ==> s.completions[i].caseRef != s.completions[j].caseRef)
    && (forall id :: id in s.db.processed ==> RefundRowCompleted(s, id))
  }

  ghost predicate RefundRowCompleted(s: Sys, id: string)
    requires id in s.db.processed
  {
    var e := s.db.processed[id].digest;
    e.caseRef in s.db.cases && (IsV1Refund(s.db.cases[e.caseRef], e) ==> e in s.completions)
  }

  predicate RefundSucceeded(s: Sys, e: Event) {
    && e in s.executed
    && e.payload.Resolution?
    && e.payload.handoff.handoffId in s.ledger
    && s.ledger[e.payload.handoff.handoffId].succeeded
  }

  /** A processed resolution of a case that fulfilment has not taken over. */
  predicate ResolutionOf(s: Sys, caseRef: string, id: string) {
    && id in s.db.processed
    && s.db.processed[id].caseRef == caseRef
    && s.db.processed[id].digest.payload.Resolution?
    && caseRef in s.db.cases && !s.db.cases[caseRef].fulfilment
  }

  /** A processed resolution that resolves its case: no refund, or one whose executor record succeeded. */
  predicate Resolves(s: Sys, caseRef: string, id: string) {
    && ResolutionOf(s, caseRef, id)
    && (IsV1Refund(s.db.cases[caseRef], s.db.processed[id].digest) ==> RefundSucceeded(s, s.db.processed[id].digest))
  }

  ghost predicate ResolvedOk(s: Sys) {
    forall caseRef | caseRef in s.db.cases && !s.db.cases[caseRef].fulfilment && s.db.cases[caseRef].status == CaseStatus.Resolved ::
      exists id :: Resolves(s, caseRef, id)
  }

  /** A processed resolution has closed its case, as Resolved exactly if it resolves it. */
  predicate Closes(s: Sys, caseRef: string, id: string) {
    ResolutionOf(s, caseRef, id) ==>
      && Terminal(s.db.cases[caseRef].status)
      && (s.db.cases[caseRef].status == CaseStatus.Resolved <==> Resolves(s, caseRef, id))
  }

  ghost predicate ClosingOk(s: Sys) {
    && (forall caseRef, id :: Closes(s, caseRef, id))
    && (forall caseRef, a, b :: ResolutionOf(s, caseRef, a) && ResolutionOf(s, caseRef, b) ==> a == b)
  }

  ghost predicate SysOk(s: Sys) {
    DbOk(s.db) && FlightsOk(s) && CompletionsOk(s) && ResolvedOk(s) && ClosingOk(s)
  }

  // ------------------------------------------------------------------ one step

  /** The bookkeeping of a step: nothing is forgotten, and what is new is justified. */
  ghost predicate Continues(s: Sys, later: Sys) {
    && Grows(s.db, later.db)
    && s.executed <= later.executed <= later.pending
    && (forall h :: h in s.ledger ==> h in later.ledger && later.ledger[h] == s.ledger[h])
    && (forall e :: e in later.pending && e !in s.pending ==> PendingOk(later.db, e))
    && (forall e :: e in later.executed && e !in s.executed ==> e.payload.Resolution? && e.payload.handoff.handoffId in later.ledger)
    && (forall e :: e in later.acked && e !in s.acked ==>
          e.eventId in later.db.processed && (Recorded(later.db, e) || e in later.executed))
  }

  predicate CompletesNow(s: Sys, later: Sys, e: Event) {
    && e in later.executed
    && Recorded(later.db, e)
    && e.caseRef in s.db.cases && !Terminal(s.db.cases[e.caseRef].status)
    && e.caseRef in later.db.cases && Terminal(later.db.cases[e.caseRef].status)
  }

  /** A newly processed resolution closes a case that was open. */
  predicate ClosesNow(s: Sys, later: Sys, caseRef: string, id: string) {
    ResolutionOf(later, caseRef, id) && id !in s.db.processed ==>
      && Closes(later, caseRef, id)
      && caseRef in s.db.cases && !Terminal(s.db.cases[caseRef].status)
      && forall other :: other in later.db.processed && other !in s.db.processed ==> other == id
  }

  /** What one step may do to refunds, processed events and resolved cases. */
  ghost predicate Effect(s: Sys, later: Sys) {
    && Continues(s, later)
    && (|| later.completions == s.completions
        || (exists e :: later.completions == s.completions + [e] && CompletesNow(s, later, e)))
    && (forall id :: id in later.db.processed && id !in s.db.processed ==> RefundRowCompleted(later, id))
    && (forall c, id :: ClosesNow(s, later, c, id))
    && (forall c :: c in later.db.cases && !later.db.cases[c].fulfilment && later.db.cases[c].status == CaseStatus.Resolved ==>
          (c in s.db.cases && s.db.cases[c].status == CaseStatus.Resolved) || (exists id :: Resolves(later, c, id)))
  }

  lemma PendingStays(db: Db, later: Db, e: Event)
    requires PendingOk(db, e) && Grows(db, later)
    ensures PendingOk(later, e)
  {
  }

  lemma FlightsStay(s: Sys, later: Sys)
    requires FlightsOk(s) && Continues(s, later)
    ensures FlightsOk(later)
  {
    forall e | e in later.pending ensures PendingOk(later.db, e) {
      if e in s.pending { PendingStays(s.db, later.db, e); }
    }
  }

  lemma OldCompletionsStay(s: Sys, later: Sys)
    requires FlightsOk(s) && CompletionsOk(s) && Continues(s, later)
    ensures forall i :: 0 <= i < |s.completions| ==>
              && s.completions[i] in later.executed
              && Recorded(later.db, s.completions[i])
              && s.completions[i].caseRef in later.db.cases
              && Terminal(later.db.cases[s.completions[i].caseRef].status)
  {
  }

  lemma CompletionsStay(s: Sys, later: Sys)
    requires ProcessedOk(s.db) && FlightsOk(s) && CompletionsOk(s) && Effect(s, later)
    ensures CompletionsOk(later)
  {
    OldCompletionsStay(s, later);
    forall id | id in later.db.processed ensures RefundRowCompleted(later, id) {
      if id in s.db.processed { assert RefundRowCompleted(s, id) && RowRecorded(s.db, id); }
    }
  }

  lemma ResolutionsStay(s: Sys, later: Sys)
    requires ResolvedOk(s) && Effect(s, later)
    ensures ResolvedOk(later)
  {
    forall c | c in later.db.cases && !later.db.cases[c].fulfilment && later.db.cases[c].status == CaseStatus.Resolved
      ensures exists id :: Resolves(later, c, id)
    {
      if c in s.db.cases && s.db.cases[c].status == CaseStatus.Resolved {
        var id :| Resolves(s, c, id);
        assert Resolves(later, c, id);
      }
    }
  }

  /** A resolution that was processed before still is what closed its case. */
  lemma ClosingStays(s: Sys, later: Sys, caseRef: string, id: string)
    requires SysOk(s) && Continues(s, later) && id in s.db.processed && ResolutionOf(later, caseRef, id)
    ensures ResolutionOf(s, caseRef, id) && Closes(later, caseRef, id)
  {
    assert RowRecorded(s.db, id) && RefundRowCompleted(s, id);
    assert Closes(s, caseRef, id);
    assert Resolves(later, caseRef, id) <==> Resolves(s, caseRef, id);
  }

  lemma ClosingsStay(s: Sys, later: Sys)
    requires SysOk(s) && Effect(s, later)
    ensures ClosingOk(later)
  {
    forall caseRef, id ensures Closes(later, caseRef, id) {
      if ResolutionOf(later, caseRef, id) {
        if id in s.db.processed { ClosingStays(s, later, caseRef, id); } else { assert ClosesNow(s, later, caseRef, id); }
      }
    }
    forall caseRef, a, b | ResolutionOf(later, caseRef, a) && ResolutionOf(later, caseRef, b)
      ensures a == b
    {
      OneClosing(s, later, caseRef, a, b);
    }
  }

  lemma OneClosing(s: Sys, later: Sys, caseRef: string, a: string, b: string)
    requires SysOk(s) && Effect(s, later) && ResolutionOf(later, caseRef, a) && ResolutionOf(later, caseRef, b)
    ensures a == b
  {
    assert ClosesNow(s, later, caseRef, a) && ClosesNow(s, later, caseRef, b);
    if a in s.db.processed { ClosingStays(s, later, caseRef, a); assert Closes(s, caseRef, a); }
    if b in s.db.processed { ClosingStays(s, later, caseRef, b); assert Closes(s, caseRef, b); }
  }

  lemma {:induction false} EffectKeepsSys(s: Sys, later: Sys)
    requires SysOk(s) && DbOk(later.db) && Effect(s, later)
    ensures SysOk(later)
  {
    FlightsStay(s, later);
    CompletionsStay(s, later);
    ResolutionsStay(s, later);
    ClosingsStay(s, later);
  }

  /** What the first transaction does to the rows that matter for refunds. */
  ghost predicate ProjectEffect(db: Db, e: Event, answer: ProjectAnswer, later: Db) {
    && Grows(db, later)
    && (answer == Projected || answer == Duplicate ==> Recorded(later, e))
    && (answer == AwaitsRefund ==> PendingOk(later, e))
    && (forall id :: id in later.processed && id !in db.processed ==>
          && id == e.eventId && later.processed[id].digest == e && later.processed[id].caseRef == e.caseRef
          && e.caseRef in db.cases && e.caseRef in later.cases && !IsV1Refund(later.cases[e.caseRef], e)
          && (e.payload.Resolution? && !later.cases[e.caseRef].fulfilment ==>
                later.cases[e.caseRef].status == CaseStatus.Resolved && !Terminal(db.cases[e.caseRef].status)))
    && (forall c :: c in later.cases && !later.cases[c].fulfilment && later.cases[c].status == CaseStatus.Resolved ==>
          || (c in db.cases && db.cases[c].status == CaseStatus.Resolved)
          || (c == e.caseRef && e.payload.Resolution? && Recorded(later, e) && !IsV1Refund(later.cases[c], e)))
  }

  lemma {:induction false} ProjectHasEffect(db: Db, e: Event, authorization: Authorization)
    requires var tx := ProjectTx(db, e, authorization);
             Grows(db, tx.db) && (tx.answer == Projected || tx.answer == Duplicate ==> Recorded(tx.db, e))
    requires e.caseRef in db.cases ==> RowOk(db.cases[e.caseRef])
    ensures ProjectEffect(db, e, ProjectTx(db, e, authorization).answer, ProjectTx(db, e, authorization).db)
  {
    var tx := ProjectTx(db, e, authorization);
    if tx.answer == Projected || tx.answer == AwaitsRefund {
      ApplyKeepsRow(db.cases[e.caseRef], Known(db.confirmations, e), e, authorization);
    }
  }

  lemma ProjectingHasEffect(s: Sys, e: Event, answer: ProjectAnswer, db: Db, later: Sys)
    requires s.executed <= s.pending && ProjectEffect(s.db, e, answer, db)
    requires later == s.(db := db,
                         pending := if answer == AwaitsRefund then s.pending + {e} else s.pending,
                         acked := if answer == Duplicate || answer == Projected then s.acked + {e} else s.acked)
    ensures Effect(s, later)
  {
    assert Continues(s, later);
    forall c | c in db.cases && !db.cases[c].fulfilment && db.cases[c].status == CaseStatus.Resolved
      ensures (c in s.db.cases && s.db.cases[c].status == CaseStatus.Resolved) || (exists id :: Resolves(later, c, id))
    {
      if !(c in s.db.cases && s.db.cases[c].status == CaseStatus.Resolved) { assert Resolves(later, c, e.eventId); }
    }
  }

  /** What a committed second transaction does. */
  ghost predicate CompleteEffect(db: Db, e: Event, succeeded: bool, later: Db) {
    && Grows(db, later)
    && e.caseRef in db.cases && !Terminal(db.cases[e.caseRef].status)
    && Recorded(later, e) && e.caseRef in later.cases && Terminal(later.cases[e.caseRef].status)
    && (forall id :: id in later.processed && id !in db.processed ==> id == e.eventId)
    && (later.cases[e.caseRef].status == CaseStatus.Resolved <==> succeeded)
    && (forall c :: c in later.cases && c != e.caseRef ==> c in db.cases && later.cases[c] == db.cases[c])
  }

  lemma {:induction false} CompleteHasEffect(db: Db, e: Event, refund: RefundRecord)
    requires PendingOk(db, e) && RowOk(db.cases[e.caseRef])
    ensures var tx := CompleteTx(db, e, refund);
      tx.answer == Completed && Grows(db, tx.db) ==> CompleteEffect(db, e, refund.succeeded, tx.db)
  {
    var tx := CompleteTx(db, e, refund);
    if tx.answer == Completed && Grows(db, tx.db) {
      RefundKeepsRow(db.cases[e.caseRef], refund);
      RecordedRowHasEffect(db, e, refund.succeeded, RefundOutcome(db.cases[e.caseRef], refund).value, tx.db);
    }
  }

  lemma RecordedRowHasEffect(db: Db, e: Event, succeeded: bool, row: CaseRow, later: Db)
    requires e.caseRef in db.cases && !Terminal(db.cases[e.caseRef].status) && Grows(db, later)
    requires Terminal(row.status) && (row.status == CaseStatus.Resolved <==> succeeded)
    requires later == Record(db.(cases := db.cases[e.caseRef := row]), e)
    ensures CompleteEffect(db, e, succeeded, later)
  {
  }

  lemma CompletionCloses(s: Sys, e: Event, db: Db, later: Sys)
    requires e in s.executed && e.payload.Resolution? && e.payload.handoff.handoffId in s.ledger
    requires CompleteEffect(s.db, e, s.ledger[e.payload.handoff.handoffId].succeeded, db) && IsV1Refund(s.db.cases[e.caseRef], e)
    requires later == s.(db := db, acked := s.acked + {e}, completions := s.completions + [e])
    ensures forall c, id :: ClosesNow(s, later, c, id)
  {
    forall c, id ensures ClosesNow(s, later, c, id) {
      if ResolutionOf(later, c, id) && id !in s.db.processed {
        assert id == e.eventId && c == e.caseRef && db.processed[id].digest == e && IsV1Refund(db.cases[c], e);
        assert Resolves(later, c, id) <==> RefundSucceeded(later, e);
      }
    }
  }

  lemma CompletionHasEffect(s: Sys, e: Event, db: Db, later: Sys)
    requires s.executed <= s.pending && e in s.executed && e.payload.Resolution? && e.payload.handoff.handoffId in s.ledger
    requires CompleteEffect(s.db, e, s.ledger[e.payload.handoff.handoffId].succeeded, db) && IsV1Refund(s.db.cases[e.caseRef], e)
    requires later == s.(db := db, acked := s.acked + {e}, completions := s.completions + [e])
    ensures Effect(s, later)
  {
    assert Continues(s, later);
    assert CompletesNow(s, later, e);
    CompletionCloses(s, e, db, later);
    forall c | c in db.cases && !db.cases[c].fulfilment && db.cases[c].status == CaseStatus.Resolved
      ensures (c in s.db.cases && s.db.cases[c].status == CaseStatus.Resolved) || (exists id :: Resolves(later, c, id))
    {
      if c == e.caseRef { assert Resolves(later, c, e.eventId); }
    }
  }

  lemma {:induction false} CompleteStep(s: Sys, e: Event)
    requires DbOk(s.db) && FlightsOk(s)
    ensures DbOk(Next(s, CompleteRefund(e)).db) && Effect(s, Next(s, CompleteRefund(e)))
  {
    if e in s.executed {
      var refund := s.ledger[e.payload.handoff.handoffId];
      assert PendingOk(s.db, e);
      if CompleteTx(s.db, e, refund).answer == Completed {
        CompleteKeepsDb(s.db, e, refund);
        assert CaseOk(s.db, e.caseRef);
        CompleteHasEffect(s.db, e, refund);
        CompletionHasEffect(s, e, CompleteTx(s.db, e, refund).db, Next(s, CompleteRefund(e)));
      } else {
        UncommittedStep(s, e);
      }
    }
  }

  lemma UncommittedStep(s: Sys, e: Event)
    requires DbOk(s.db) && FlightsOk(s) && e in s.executed
    requires CompleteTx(s.db, e, s.ledger[e.payload.handoff.handoffId]).answer != Completed
    ensures Next(s, CompleteRefund(e)).db == s.db && Effect(s, Next(s, CompleteRefund(e)))
  {
    var later := Next(s, CompleteRefund(e));
    assert later == s.(acked := later.acked) && (later.acked == s.acked || e.eventId in s.db.processed);
    OnlyAcknowledges(s, later, e);
  }

  lemma OnlyAcknowledges(s: Sys, later: Sys, e: Event)
    requires FlightsOk(s) && e in s.executed && later == s.(acked := later.acked)
    requires later.acked == s.acked || (later.acked == s.acked + {e} && e.eventId in s.db.processed)
    ensures Effect(s, later)
  {
  }

  lemma ExecuteStep(s: Sys, e: Event, refund: RefundRecord)
    requires s.executed <= s.pending
    ensures Effect(s, Next(s, Execute(e, refund)))
  {
  }

  /** Rejections and entry points record no event and bring no case to Resolved. */
  ghost predicate Quiet(db: Db, later: Db) { Grows(db, later) && NoNewResolution(db, later) }

  predicate NoNewResolution(db: Db, later: Db) {
    && later.processed == db.processed
    && (forall c :: c in later.cases && later.cases[c].status == CaseStatus.Resolved && !later.cases[c].fulfilment ==>
          c in db.cases && db.cases[c].status == CaseStatus.Resolved)
  }

  lemma QuietStep(s: Sys, later: Sys)
    requires s.executed <= s.pending && later == s.(db := later.db) && Quiet(s.db, later.db)
    ensures Effect(s, later)
  {
  }

  lemma RejectionIsQuiet(db: Db, messageId: string, refs: References)
    ensures NoNewResolution(db, RejectTx(db, messageId, refs).db)
  {
  }

  lemma UserEntriesAreQuiet(s: Sys, step: Step)
    requires step.CreateCase? || step.SendMessage? || step.CompleteReview?
    ensures NoNewResolution(s.db, Next(s, step).db)
  {
  }

  lemma PolicyEntriesAreQuiet(s: Sys, step: Step)
    requires step.ConfirmPolicy? || step.Fulfil?
    ensures NoNewResolution(s.db, Next(s, step).db)
  {
  }

  lemma {:induction false} EntriesAreQuiet(s: Sys, step: Step)
    requires !step.Project? && !step.Execute? && !step.CompleteRefund? && Grows(s.db, Next(s, step).db)
    ensures Quiet(s.db, Next(s, step).db)
  {
    if step.RejectMessage? {
      RejectionIsQuiet(s.db, step.messageId, step.refs);
    } else if step.ConfirmPolicy? || step.Fulfil? {
      PolicyEntriesAreQuiet(s, step);
    } else {
      UserEntriesAreQuiet(s, step);
    }
  }

  lemma {:induction false} EntriesKeepDb(s: Sys, step: Step)
    requires DbOk(s.db) && !step.Project? && !step.Execute? && !step.CompleteRefund?
    ensures DbOk(Next(s, step).db) && Grows(s.db, Next(s, step).db)
  {
    match step
    case CreateCase(caseRef, threadId, v2, message, commandId, accepted) =>
      CreateKeepsDb(s.db, caseRef, threadId, v2, message, commandId, accepted);
    case SendMessage(caseRef, message, attachments, bound, commandId) =>
      MessageKeepsDb(s.db, caseRef, message, attachments, bound, commandId);
    case CompleteReview(caseRef, stored, commandId) =>
      ReviewKeepsDb(s.db, caseRef, stored, commandId);
    case ConfirmPolicy(caseRef, requestRef, version, accept, key, commandId) =>
      ConfirmKeepsDb(s.db, caseRef, requestRef, version, accept, key, commandId);
    case RejectMessage(messageId, refs) => RejectKeepsDb(s.db, messageId, refs);
    case Fulfil(caseRef, status, entries) => FulfilKeepsDb(s.db, caseRef, status, entries);
  }

  lemma {:induction false} StepHasEffect(s: Sys, step: Step)
    requires DbOk(s.db) && FlightsOk(s)
    ensures DbOk(Next(s, step).db) && Effect(s, Next(s, step))
  {
    match step
    case Project(e, authorization) =>
      var tx := ProjectTx(s.db, e, authorization);
      ProjectKeepsDb(s.db, e, authorization);
      assert CaseOk(s.db, e.caseRef);
      ProjectHasEffect(s.db, e, authorization);
      ProjectingHasEffect(s, e, tx.answer, tx.db, Next(s, step));
    case Execute(e, refund) => ExecuteStep(s, e, refund);
    case CompleteRefund(e) => CompleteStep(s, e);
    case _ =>
      EntriesKeepDb(s, step);
      EntriesAreQuiet(s, step);
      QuietStep(s, Next(s, step));
  }

  lemma {:induction false} RunKeepsSys(steps: seq<Step>)
    ensures SysOk(Run(Empty, steps))
  {
    if steps == [] {
    } else {
      var s := Run(Empty, steps[..|steps| - 1]);
      RunKeepsSys(steps[..|steps| - 1]);
      StepHasEffect(s, steps[|steps| - 1]);
      EffectKeepsSys(s, Run(Empty, steps));
    }
  }

  // ------------------------------------------------------------------ main results

  /**
   Two-phase refunds, over every schedule of any number of processes, crashes and redeliveries:
   a case enters Executing at most once, completes at most one refund, and records a refund event
   as processed exactly when its second transaction committed.  A completed refund leaves its
   case Resolved if and only if its own executor record succeeded.  A case has at most one
   processed resolution, and is Resolved if and only if it has one that is no refund or succeeded.
   */
  lemma {:induction false} RefundsAreTwoPhase(steps: seq<Step>)
    ensures var s: Sys := Run(Empty, steps);
      && (forall c: string :: c in s.db.cases && !s.db.cases[c].fulfilment ==>
            Read(s.db.cases[c].log).starts <= 1 && Read(s.db.cases[c].log).resolutions <= 1)
      && (forall i, j :: 0 <= i < j < |s.completions| ==> s.completions[i].caseRef != s.completions[j].caseRef)
      && (forall e: Event :: e.caseRef in s.db.cases && IsV1Refund(s.db.cases[e.caseRef], e) ==>
            (Recorded(s.db, e) <==> e in s.completions))
      && (forall i :: 0 <= i < |s.completions| ==> CompletedAsRecorded(s, s.completions[i]))
      && (forall c :: c in s.db.cases && !s.db.cases[c].fulfilment ==>
            (s.db.cases[c].status == CaseStatus.Resolved <==> exists id :: Resolves(s, c, id)))
      && (forall c, a, b :: ResolutionOf(s, c, a) && ResolutionOf(s, c, b) ==> a == b)
  {
    var s := Run(Empty, steps);
    RunKeepsSys(steps);
    forall c, id ensures Resolves(s, c, id) ==> s.db.cases[c].status == CaseStatus.Resolved {
      assert Closes(s, c, id);
    }
    forall i | 0 <= i < |s.completions| ensures CompletedAsRecorded(s, s.completions[i]) {
      CompletionFollowsRecord(s, s.completions[i]);
    }
    forall c | c in s.db.cases && !s.db.cases[c].fulfilment
      ensures Read(s.db.cases[c].log).starts <= 1 && Read(s.db.cases[c].log).resolutions <= 1
    {
      assert CaseOk(s.db, c);
      ExecutesAtMostOnce(s.db.cases[c].log);
    }
    forall e: Event | e.caseRef in s.db.cases && IsV1Refund(s.db.cases[e.caseRef], e)
      ensures Recorded(s.db, e) <==> e in s.completions
    {
      if Recorded(s.db, e) { assert RefundRowCompleted(s, e.eventId); }
    }
  }

  /** The case of a completed refund says what the executor's record of that very refund says. */
  predicate CompletedAsRecorded(s: Sys, e: Event) {
    && e.caseRef in s.db.cases && e.payload.Resolution? && e.payload.handoff.handoffId in s.ledger
    && s.db.cases[e.caseRef].status == (if s.ledger[e.payload.handoff.handoffId].succeeded then CaseStatus.Resolved else Escalated)
  }

  lemma CompletionFollowsRecord(s: Sys, e: Event)
    requires SysOk(s) && e in s.completions
    ensures CompletedAsRecorded(s, e)
  {
    assert PendingOk(s.db, e) && Recorded(s.db, e) && CaseOk(s.db, e.caseRef);
    assert Closes(s, e.caseRef, e.eventId);
  }

  /**
   The case log against the stored status, over all entry points: replaying the state changes
   gives the status, there is one done entry if the status is terminal and none otherwise, an
   awaiting status is the one the latest interrupt asks for, and the commands enqueued for the
   case are one plus its returns to Observing.
   */
  lemma {:induction false} CaseLogAgrees(steps: seq<Step>, caseRef: string)
    ensures var s := Run(Empty, steps);
      caseRef in s.db.cases && !s.db.cases[caseRef].fulfilment ==>
        var row := s.db.cases[caseRef];
        var log := Read(row.log);
        && log.status == Some(row.status)
        && log.dones == (if Terminal(row.status) then 1 else 0)
        && (AwaitsAgentInput(row.status) ==> log.interrupt.Some? && AwaitingFor(log.interrupt.value) == row.status)
        && Commands(s.db.outbox, caseRef) == 1 + log.resumptions
  {
    RunKeepsSys(steps);
    assert CaseOk(Run(Empty, steps).db, caseRef);
  }

  lemma RunSnoc(s: Sys, steps: seq<Step>, step: Step)
    ensures Run(s, steps + [step]) == Next(Run(s, steps), step)
  {
    assert (steps + [step])[..|steps|] == steps;
  }

  lemma {:induction false} OneMoreStepGrows(steps: seq<Step>, step: Step)
    ensures Grows(Run(Empty, steps).db, Run(Empty, steps + [step]).db)
  {
    RunKeepsSys(steps);
    StepHasEffect(Run(Empty, steps), step);
    RunSnoc(Empty, steps, step);
  }

  lemma GrowsTransitively(a: Db, b: Db, c: Db)
    requires Grows(a, b) && Grows(b, c)
    ensures Grows(a, c)
  {
  }

  /** Terminal cases stay as they are, and processed events are never replaced, whatever happens next. */
  lemma {:induction false} LaterRunsGrow(steps: seq<Step>, more: seq<Step>)
    ensures Grows(Run(Empty, steps).db, Run(Empty, steps + more).db)
  {
    if more == [] {
      assert steps + more == steps;
    } else {
      var shorter := steps + more[..|more| - 1];
      LaterRunsGrow(steps, more[..|more| - 1]);
      OneMoreStepGrows(shorter, more[|more| - 1]);
      assert steps + more == shorter + [more[|more| - 1]];
      GrowsTransitively(Run(Empty, steps).db, Run(Empty, shorter).db, Run(Empty, steps + more).db);
    }
  }

  /** The event reuses a processed id with other content, or an index its command has already passed. */
  predicate Conflicts(db: Db, e: Event) {
    && e.caseRef in db.cases
    && (if e.eventId in db.processed then db.processed[e.eventId].digest != e else e.index < ExpectedIndex(db, e.commandId))
  }

  /** A command's index is applied with at most one content, and a terminated cursor belongs to a terminal case. */
  lemma {:induction false} AppliedOncePerIndex(steps: seq<Step>)
    ensures var db := Run(Empty, steps).db;
      && (forall a: string, b: string | a in db.processed && b in db.processed ::
            db.processed[a].commandId == db.processed[b].commandId && db.processed[a].index == db.processed[b].index ==> a == b)
      && (forall c :: c in db.cursors && db.cursors[c].terminatedBy.Some? ==>
            db.cursors[c].caseRef in db.cases && Terminal(db.cases[db.cursors[c].caseRef].status))
  {
    RunKeepsSys(steps);
  }

  lemma {:induction false} ConflictIsInapplicable(db: Db, e: Event, authorization: Authorization)
    requires Conflicts(db, e)
    ensures ProjectTx(db, e, authorization) == Tx(Inapplicable, db)
  {
  }

  function ReferencesOf(e: Event): References {
    References(Some(e.eventId), Some(e.commandId), Some(e.caseRef))
  }

  /**
   A conflicting event is never applied, and the rejection that follows, whatever happened in
   between, closes the case it names for good, unless its message was rejected before.
   */
  lemma ConflictClosesCase(steps: seq<Step>, e: Event, authorization: Authorization, between: seq<Step>, messageId: string, more: seq<Step>)
    requires Conflicts(Run(Empty, steps).db, e)
    requires messageId !in Run(Empty, steps + between).db.rejected
    ensures ProjectTx(Run(Empty, steps).db, e, authorization) == Tx(Inapplicable, Run(Empty, steps).db)
    ensures var later := Run(Empty, steps + between + [RejectMessage(messageId, ReferencesOf(e))] + more);
            e.caseRef in later.db.cases && Terminal(later.db.cases[e.caseRef].status)
  {
    ConflictIsInapplicable(Run(Empty, steps).db, e, authorization);
    LaterRunsGrow(steps, between);
    ClosedForGood(steps + between, messageId, ReferencesOf(e), more);
  }

  lemma {:induction false} ClosedForGood(steps: seq<Step>, messageId: string, refs: References, more: seq<Step>)
    requires messageId !in Run(Empty, steps).db.rejected && refs.caseRef.Some? && refs.caseRef.value in Run(Empty, steps).db.cases
    ensures var later := Run(Empty, steps + [RejectMessage(messageId, refs)] + more);
            refs.caseRef.value in later.db.cases && Terminal(later.db.cases[refs.caseRef.value].status)
  {
    RunKeepsSys(steps);
    RejectKeepsDb(Run(Empty, steps).db, messageId, refs);
    RunSnoc(Empty, steps, RejectMessage(messageId, refs));
    LaterRunsGrow(steps + [RejectMessage(messageId, refs)], more);
  }

  /** In every reachable state a rejection commits; it closes the named case unless the message was rejected before. */
  lemma {:induction false} RejectClosesExactly(steps: seq<Step>, messageId: string, refs: References)
    ensures var db := Run(Empty, steps).db;
      && RejectTx(db, messageId, refs).answer != RejectIllegal
      && (refs.caseRef.Some? && refs.caseRef.value in db.cases ==>
            (Terminal(RejectTx(db, messageId, refs).db.cases[refs.caseRef.value].status) <==>
               messageId !in db.rejected || Terminal(db.cases[refs.caseRef.value].status)))
      && (forall m :: m in db.rejected && db.rejected[m].caseKnown ==>
            && db.rejected[m].caseRef.Some?
            && db.rejected[m].caseRef.value in db.cases
            && Terminal(db.cases[db.rejected[m].caseRef.value].status))
  {
    RunKeepsSys(steps);
    RejectKeepsDb(Run(Empty, steps).db, messageId, refs);
  }

  /** The event's id is taken by another content. */
  predicate TakenId(db: Db, e: Event) { e.eventId in db.processed && db.processed[e.eventId].digest != e }

  /** Step `n` is the one that acknowledges the event. */
  predicate AcknowledgedAt(steps: seq<Step>, e: Event, n: nat) {
    n < |steps| && e !in Run(Empty, steps[..n]).acked && e in Run(Empty, steps[..n + 1]).acked
  }

  /** The step is a refund's second transaction that finds its event's id taken by another content. */
  predicate AcknowledgedAsAnother(steps: seq<Step>, e: Event, n: nat) {
    AcknowledgedAt(steps, e, n) && steps[n] == CompleteRefund(e) && TakenId(Run(Empty, steps[..n]).db, e)
  }

  lemma AcknowledgingStep(s: Sys, step: Step, e: Event)
    requires DbOk(s.db) && e !in s.acked && e in Next(s, step).acked
    ensures var later := Next(s, step).db;
      && (Recorded(later, e) <==> !TakenId(later, e)) && e.eventId in later.processed
      && (TakenId(later, e) <==> step == CompleteRefund(e) && TakenId(s.db, e))
  {
    assert e.eventId in s.db.processed ==> RowRecorded(s.db, e.eventId);
    if step.Project? { ProjectRecords(s.db, e, step.authorization); }
  }

  lemma ProjectRecords(db: Db, e: Event, authorization: Authorization)
    ensures var tx := ProjectTx(db, e, authorization); tx.answer == Projected || tx.answer == Duplicate ==> Recorded(tx.db, e) && !TakenId(tx.db, e)
  {
  }

  lemma RecordsPersist(db: Db, later: Db, e: Event)
    requires Grows(db, later) && e.eventId in db.processed
    ensures e.eventId in later.processed && (Recorded(later, e) <==> Recorded(db, e))
  {
  }

  lemma {:induction false} SomeStepAcknowledges(steps: seq<Step>, e: Event)
    requires e in Run(Empty, steps).acked
    ensures exists n: nat :: AcknowledgedAt(steps, e, n)
  {
    if steps != [] {
      var last := |steps| - 1;
      assert steps[..|steps|] == steps;
      if e in Run(Empty, steps[..last]).acked {
        SomeStepAcknowledges(steps[..last], e);
        var n: nat :| AcknowledgedAt(steps[..last], e, n);
        assert steps[..last][..n] == steps[..n] && steps[..last][..n + 1] == steps[..n + 1];
        assert AcknowledgedAt(steps, e, n);
      } else {
        assert AcknowledgedAt(steps, e, last);
      }
    }
  }

  lemma {:induction false} AcknowledgedInState(steps: seq<Step>, e: Event, n: nat)
    requires AcknowledgedAt(steps, e, n)
    ensures var db := Run(Empty, steps[..n + 1]).db;
      e.eventId in db.processed && (Recorded(db, e) <==> !AcknowledgedAsAnother(steps, e, n))
  {
    RunKeepsSys(steps[..n]);
    assert steps[..n + 1][..n] == steps[..n];
    AcknowledgingStep(Run(Empty, steps[..n]), steps[n], e);
  }

  /** What the acknowledging step left is what every later state has. */
  lemma {:induction false} AcknowledgmentStands(steps: seq<Step>, e: Event, n: nat)
    requires AcknowledgedAt(steps, e, n)
    ensures e.eventId in Run(Empty, steps).db.processed
    ensures Recorded(Run(Empty, steps).db, e) <==> !AcknowledgedAsAnother(steps, e, n)
  {
    AcknowledgedInState(steps, e, n);
    assert steps == steps[..n + 1] + steps[n + 1..];
    LaterRunsGrow(steps[..n + 1], steps[n + 1..]);
    RecordsPersist(Run(Empty, steps[..n + 1]).db, Run(Empty, steps).db, e);
  }

  /**
   An acknowledged event is processed; with its own content if and only if it was not
   acknowledged by the second transaction of a refund whose id another content had taken:
   _complete_refund compares ids only.
   */
  lemma {:induction false} AcknowledgedMeansProcessed(steps: seq<Step>, e: Event)
    requires e in Run(Empty, steps).acked
    ensures e.eventId in Run(Empty, steps).db.processed
    ensures Recorded(Run(Empty, steps).db, e) <==> !exists n: nat :: AcknowledgedAsAnother(steps, e, n)
  {
    SomeStepAcknowledges(steps, e);
    var n: nat :| AcknowledgedAt(steps, e, n);
    AcknowledgmentStands(steps, e, n);
    if m: nat :| AcknowledgedAsAnother(steps, e, m) { AcknowledgmentStands(steps, e, m); }
  }
}
