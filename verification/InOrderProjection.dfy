/**
 Projection refines in-order delivery: whatever duplicates, reorderings, crashes and redeliveries
 the events of one command go through, its case is what applying the first k events in order
 gives, k being the command's cursor, plus at most the Executing half-step of a pending refund.
 */
module InOrderProjection {
  import opened Common
  import opened CaseMachine
  import opened Projection
  import opened ProjectionRuns

  /**
   One command's events; `authorization` is what register_authorization answers for its v2 refund,
   `refs` are the confirmation requests to follow, those of its events among them.
   */
  datatype Plan = Plan(caseRef: string, commandId: string, threadId: string, events: seq<Event>, authorization: Authorization,
                       refs: set<string>)

  /** The plan of a command by itself, whose last event is `last`. */
  function PlanOf(last: Event, events: seq<Event>, authorization: Authorization): Plan {
    Plan(last.caseRef, last.commandId, last.threadId, events, authorization,
         set i, ref | 0 <= i < |events| && ref in RequestRefs(events[i]) :: ref)
  }

  predicate WellFormed(p: Plan) {
    && (forall i :: 0 <= i < |p.events| ==>
          && p.events[i].index == i + 1
          && p.events[i].caseRef == p.caseRef
          && p.events[i].commandId == p.commandId
          && p.events[i].threadId == p.threadId
          && RequestRefs(p.events[i]) <= p.refs)
    && (forall i, j :: 0 <= i < j < |p.events| ==> p.events[i].eventId != p.events[j].eventId)
  }

  /** The case as the command sees it: its row, and the stored confirmations of its requests. */
  datatype View = View(row: CaseRow, confirmations: map<string, ConfirmationRow>)

  function Restrict(confirmations: map<string, ConfirmationRow>, p: Plan): map<string, ConfirmationRow> {
    map r | r in confirmations && r in p.refs :: confirmations[r]
  }

  function ViewOf(db: Db, p: Plan): View
    requires p.caseRef in db.cases
  {
    View(db.cases[p.caseRef], Restrict(db.confirmations, p))
  }

  function ApplyTo(v: View, e: Event, p: Plan): Applied {
    ApplyEvent(v.row, Known(v.confirmations, e), e, p.authorization)
  }

  /** The in-order specification: one event, a refund together with its executor record. */
  function ApplyInOrder(v: View, e: Event, p: Plan, ledger: map<string, RefundRecord>): Option<View> {
    match ApplyTo(v, e, p)
    case Refused => None
    case Complete(row, confirmation) => Some(View(row, StoreConfirmation(v.confirmations, confirmation)))
    case AwaitExecutor(row) =>
      if e.payload.Resolution? && e.payload.handoff.handoffId in ledger && RefundOutcome(row, ledger[e.payload.handoff.handoffId]).Some?
      then Some(v.(row := RefundOutcome(row, ledger[e.payload.handoff.handoffId]).value)) else None
  }

  function InOrder(v: View, events: seq<Event>, p: Plan, ledger: map<string, RefundRecord>): Option<View> {
    if events == [] then Some(v)
    else
      var before := InOrder(v, events[..|events| - 1], p, ledger);
      if before.None? then None else ApplyInOrder(before.value, events[|events| - 1], p, ledger)
  }

  /** How many of the command's events are applied: its cursor. */
  function Progress(db: Db, p: Plan): nat {
    if p.commandId in db.cursors then db.cursors[p.commandId].last else 0
  }

  /** The Executing half-step of a pending refund. */
  predicate HalfStep(v: View, e: Event, p: Plan, now: View) {
    ApplyTo(v, e, p).AwaitExecutor? && now == v.(row := ApplyTo(v, e, p).row)
  }

  // ------------------------------------------------------------------ the invariant of a command

  predicate CursorLive(db: Db, p: Plan) {
    && p.caseRef in db.cases
    && db.cases[p.caseRef].threadId == p.threadId
    && Progress(db, p) <= |p.events|
    && (p.commandId in db.cursors ==> db.cursors[p.commandId].caseRef == p.caseRef && db.cursors[p.commandId].terminatedBy.None?)
  }

  predicate PrefixRecorded(db: Db, p: Plan) {
    && (forall i :: 0 <= i < Progress(db, p) && i < |p.events| ==>
          && p.events[i].eventId in db.processed
          && db.processed[p.events[i].eventId] == ProcessedRow(p.caseRef, p.commandId, i + 1, p.events[i]))
    && (forall i :: Progress(db, p) <= i < |p.events| ==> p.events[i].eventId !in db.processed)
  }

  /** The case is the in-order result of the first k events, or its half-step towards event k + 1. */
  predicate Refines(s: Sys, p: Plan, start: View)
    requires CursorLive(s.db, p)
  {
    var k := Progress(s.db, p);
    var spec := InOrder(start, p.events[..k], p, s.ledger);
    && spec.Some?
    && (ViewOf(s.db, p) == spec.value || (k < |p.events| && HalfStep(spec.value, p.events[k], p, ViewOf(s.db, p))))
  }

  /** Refund events in flight are behind the cursor or at the half-step; acknowledged events are behind it. */
  ghost predicate FlightsFit(s: Sys, p: Plan, start: View)
    requires CursorLive(s.db, p)
  {
    var k := Progress(s.db, p);
    && s.executed <= s.pending
    && (forall e :: e in s.executed ==> e.payload.Resolution? && e.payload.handoff.handoffId in s.ledger)
    && (forall i :: 0 <= i < |p.events| && p.events[i] in s.pending ==>
          || i < k
          || (i == k && AtHalfStep(s, p, start)))
    && (forall i :: k <= i < |p.events| ==> p.events[i] !in s.acked)
  }

  predicate AtHalfStep(s: Sys, p: Plan, start: View)
    requires CursorLive(s.db, p)
  {
    var k := Progress(s.db, p);
    var spec := InOrder(start, p.events[..k], p, s.ledger);
    k < |p.events| && spec.Some? && HalfStep(spec.value, p.events[k], p, ViewOf(s.db, p))
  }

  ghost predicate InOrderSoFar(s: Sys, p: Plan, start: View) {
    && WellFormed(p)
    && CursorLive(s.db, p)
    && PrefixRecorded(s.db, p)
    && Refines(s, p, start)
    && FlightsFit(s, p, start)
  }

  // ------------------------------------------------------------------ schedules

  /** The event a step is about, if any. */
  function Subject(step: Step): Option<Event> {
    match step
    case Project(e, _) => Some(e)
    case Execute(e, _) => Some(e)
    case CompleteRefund(e) => Some(e)
    case _ => None
  }

  /** Nothing the command depends on changed: its case, cursor, event ids and confirmations. */
  predicate Undisturbed(db: Db, later: Db, p: Plan) {
    && p.caseRef in db.cases && p.caseRef in later.cases
    && ViewOf(later, p) == ViewOf(db, p)
    && (p.commandId in later.cursors <==> p.commandId in db.cursors)
    && (p.commandId in db.cursors ==> later.cursors[p.commandId] == db.cursors[p.commandId])
    && (forall i :: 0 <= i < |p.events| ==>
          && (p.events[i].eventId in later.processed <==> p.events[i].eventId in db.processed)
          && (p.events[i].eventId in db.processed ==> later.processed[p.events[i].eventId] == db.processed[p.events[i].eventId]))
  }

  /** A delivery of the command's own events, or a step of anything else that leaves the command alone. */
  predicate Scheduled(s: Sys, step: Step, p: Plan) {
    if Subject(step).Some? && Subject(step).value in p.events
    then step.Project? ==> step.authorization == p.authorization
    else Undisturbed(s.db, Next(s, step).db, p)
  }

  predicate Schedule(s: Sys, steps: seq<Step>, p: Plan) {
    steps == [] ||
    (Schedule(s, steps[..|steps| - 1], p) && Scheduled(Run(s, steps[..|steps| - 1]), steps[|steps| - 1], p))
  }

  // ------------------------------------------------------------------ facts about the specification

  lemma InOrderExtends(v: View, p: Plan, ledger: map<string, RefundRecord>, k: nat)
    requires k < |p.events|
    ensures InOrder(v, p.events[..k + 1], p, ledger) ==
            (var before := InOrder(v, p.events[..k], p, ledger);
             if before.None? then None else ApplyInOrder(before.value, p.events[k], p, ledger))
  {
    assert p.events[..k + 1][..k] == p.events[..k];
  }

  /** The specification does not depend on executor records it has not used. */
  lemma {:induction false} LedgerGrows(v: View, events: seq<Event>, p: Plan, ledger: map<string, RefundRecord>, later: map<string, RefundRecord>)
    requires forall h :: h in ledger ==> h in later && later[h] == ledger[h]
    requires InOrder(v, events, p, ledger).Some?
    ensures InOrder(v, events, p, later) == InOrder(v, events, p, ledger)
  {
    if events != [] {
      LedgerGrows(v, events[..|events| - 1], p, ledger, later);
    }
  }

  lemma KnownInView(db: Db, p: Plan, i: nat)
    requires WellFormed(p) && i < |p.events|
    ensures Known(Restrict(db.confirmations, p), p.events[i]) == Known(db.confirmations, p.events[i])
  {
    var e := p.events[i];
    if e.payload.Interrupted? && e.payload.interrupt.PolicyConfirmation? {
      assert e.payload.interrupt.policyRequest.requestRef in RequestRefs(e);
    }
  }

  /** A stored confirmation is one the event names, so storing it and restricting commute. */
  lemma StoreInView(db: Db, p: Plan, i: nat, row: CaseRow)
    requires WellFormed(p) && i < |p.events|
    ensures var a := ApplyEvent(row, Known(db.confirmations, p.events[i]), p.events[i], p.authorization);
            a.Complete? ==>
              Restrict(StoreConfirmation(db.confirmations, a.confirmation), p) == StoreConfirmation(Restrict(db.confirmations, p), a.confirmation)
  {
    var e := p.events[i];
    var a := ApplyEvent(row, Known(db.confirmations, e), e, p.authorization);
    if a.Complete? && a.confirmation.Some? {
      assert a.confirmation.value.request.requestRef in RequestRefs(e);
    }
  }

  /** A half-stepped row is Executing, so delivering the refund again changes nothing and its completion is legal. */
  lemma HalfStepIsStable(v: View, e: Event, p: Plan, now: View, refund: RefundRecord)
    requires HalfStep(v, e, p, now)
    ensures ApplyTo(now, e, p) == AwaitExecutor(now.row)
    ensures RefundOutcome(now.row, refund).Some?
    ensures now.confirmations == v.confirmations
  {
  }

  // ------------------------------------------------------------------ one step of a schedule

  lemma UndisturbedKeeps(s: Sys, later: Sys, p: Plan, start: View)
    requires InOrderSoFar(s, p, start) && Undisturbed(s.db, later.db, p)
    requires forall i :: 0 <= i < |p.events| ==>
               && (p.events[i] in later.pending <==> p.events[i] in s.pending)
               && (p.events[i] in later.acked <==> p.events[i] in s.acked)
    requires later.executed <= later.pending
    requires forall h :: h in s.ledger ==> h in later.ledger && later.ledger[h] == s.ledger[h]
    requires forall e :: e in later.executed ==> e.payload.Resolution? && e.payload.handoff.handoffId in later.ledger
    ensures InOrderSoFar(later, p, start)
  {
    LedgerGrows(start, p.events[..Progress(s.db, p)], p, s.ledger, later.ledger);
  }

  lemma {:induction false} ForeignStepKeeps(s: Sys, step: Step, p: Plan, start: View)
    requires InOrderSoFar(s, p, start) && Undisturbed(s.db, Next(s, step).db, p)
    requires Subject(step).Some? ==> Subject(step).value !in p.events
    ensures InOrderSoFar(Next(s, step), p, start)
  {
    var later := Next(s, step);
    forall i | 0 <= i < |p.events|
      ensures p.events[i] in later.pending <==> p.events[i] in s.pending
      ensures p.events[i] in later.acked <==> p.events[i] in s.acked
    {
      assert p.events[i] in p.events;
    }
    UndisturbedKeeps(s, later, p, start);
  }

  lemma ExecuteKeeps(s: Sys, i: nat, refund: RefundRecord, p: Plan, start: View)
    requires InOrderSoFar(s, p, start) && i < |p.events|
    ensures InOrderSoFar(Next(s, Execute(p.events[i], refund)), p, start)
  {
    UndisturbedKeeps(s, Next(s, Execute(p.events[i], refund)), p, start);
  }

  /** Where delivering the i-th event leads: the answer of the first transaction is decided by the cursor. */
  lemma {:induction false} DeliveryAnswer(s: Sys, i: nat, p: Plan, start: View)
    requires InOrderSoFar(s, p, start) && i < |p.events|
    ensures var k := Progress(s.db, p);
      var tx := ProjectTx(s.db, p.events[i], p.authorization);
      && (i < k ==> tx == Tx(Duplicate, s.db))
      && (i > k ==> tx == Tx(Deferred, s.db))
      && (i == k ==>
            match ApplyTo(ViewOf(s.db, p), p.events[k], p)
            case Refused => tx == Tx(Inapplicable, s.db)
            case AwaitExecutor(row) => tx == Tx(AwaitsRefund, s.db.(cases := s.db.cases[p.caseRef := row]))
            case Complete(row, confirmation) =>
              tx == Tx(Projected, Record(s.db.(cases := s.db.cases[p.caseRef := row],
                                               confirmations := StoreConfirmation(s.db.confirmations, confirmation)), p.events[k])))
  {
    KnownInView(s.db, p, i);
  }

  /** Recording event k moves the cursor to k + 1 and touches no other event of the command. */
  lemma RecordAdvances(s: Sys, row: CaseRow, confirmations: map<string, ConfirmationRow>, later: Sys, p: Plan, start: View)
    requires InOrderSoFar(s, p, start) && Progress(s.db, p) < |p.events|
    requires row.threadId == p.threadId
    requires var e := p.events[Progress(s.db, p)];
      later.db == Record(s.db.(cases := s.db.cases[p.caseRef := row], confirmations := confirmations), e)
    ensures CursorLive(later.db, p) && PrefixRecorded(later.db, p) && Progress(later.db, p) == Progress(s.db, p) + 1
    ensures ViewOf(later.db, p) == View(row, Restrict(confirmations, p))
  {
  }

  /** The next event commits with the outcome `a`. */
  predicate Commits(s: Sys, later: Sys, p: Plan, a: Applied)
    requires CursorLive(s.db, p) && Progress(s.db, p) < |p.events|
  {
    var e := p.events[Progress(s.db, p)];
    && a == ApplyTo(ViewOf(s.db, p), e, p) && a.Complete?
    && later == s.(db := Record(s.db.(cases := s.db.cases[p.caseRef := a.row],
                                      confirmations := StoreConfirmation(s.db.confirmations, a.confirmation)), e),
                   acked := s.acked + {e})
  }

  lemma CommitRefines(s: Sys, later: Sys, p: Plan, start: View, a: Applied)
    requires InOrderSoFar(s, p, start) && Progress(s.db, p) < |p.events| && Commits(s, later, p, a) && !AtHalfStep(s, p, start)
    ensures CursorLive(later.db, p) && PrefixRecorded(later.db, p) && Refines(later, p, start)
  {
    var k := Progress(s.db, p);
    StoreInView(s.db, p, k, s.db.cases[p.caseRef]);
    KnownInView(s.db, p, k);
    RecordAdvances(s, a.row, StoreConfirmation(s.db.confirmations, a.confirmation), later, p, start);
    InOrderExtends(start, p, s.ledger, k);
    assert InOrder(start, p.events[..k + 1], p, later.ledger) == Some(ViewOf(later.db, p));
  }

  lemma ProjectedKeeps(s: Sys, later: Sys, p: Plan, start: View, a: Applied)
    requires InOrderSoFar(s, p, start) && Progress(s.db, p) < |p.events| && Commits(s, later, p, a) && !AtHalfStep(s, p, start)
    ensures InOrderSoFar(later, p, start)
  {
    CommitRefines(s, later, p, start, a);
    RecordAdvances(s, a.row, StoreConfirmation(s.db.confirmations, a.confirmation), later, p, start);
  }

  /** The first transaction of the next event, a refund, takes the half-step. */
  lemma AwaitKeeps(s: Sys, later: Sys, p: Plan, start: View, row: CaseRow)
    requires InOrderSoFar(s, p, start) && Progress(s.db, p) < |p.events| && !AtHalfStep(s, p, start)
    requires var e := p.events[Progress(s.db, p)];
      && ApplyTo(ViewOf(s.db, p), e, p) == AwaitExecutor(row)
      && later == s.(db := s.db.(cases := s.db.cases[p.caseRef := row]), pending := s.pending + {e})
    ensures InOrderSoFar(later, p, start)
  {
    assert ViewOf(later.db, p) == ViewOf(s.db, p).(row := row);
  }

  lemma {:induction false} ProjectKeeps(s: Sys, i: nat, p: Plan, start: View)
    requires InOrderSoFar(s, p, start) && i < |p.events|
    ensures InOrderSoFar(Next(s, Project(p.events[i], p.authorization)), p, start)
  {
    var k := Progress(s.db, p);
    var later := Next(s, Project(p.events[i], p.authorization));
    DeliveryAnswer(s, i, p, start);
    if i == k {
      var e := p.events[k];
      var spec := InOrder(start, p.events[..k], p, s.ledger).value;
      var now := ViewOf(s.db, p);
      if HalfStep(spec, e, p, now) {
        HalfStepIsStable(spec, e, p, now, RefundRecord("", true));
        assert later.db == s.db;
      } else {
        match ApplyTo(now, e, p)
        case Refused =>
        case AwaitExecutor(row) => AwaitKeeps(s, later, p, start, row);
        case Complete(row, confirmation) => ProjectedKeeps(s, later, p, start, Complete(row, confirmation));
      }
    }
  }

  lemma CompleteKeeps(s: Sys, i: nat, p: Plan, start: View)
    requires InOrderSoFar(s, p, start) && i < |p.events|
    ensures InOrderSoFar(Next(s, CompleteRefund(p.events[i])), p, start)
  {
    var e := p.events[i];
    if e in s.executed {
      var k := Progress(s.db, p);
      var later := Next(s, CompleteRefund(e));
      if i == k {
        var spec := InOrder(start, p.events[..k], p, s.ledger).value;
        var now := ViewOf(s.db, p);
        var refund := s.ledger[e.payload.handoff.handoffId];
        HalfStepIsStable(spec, e, p, now, refund);
        RecordAdvances(s, RefundOutcome(now.row, refund).value, s.db.confirmations, later, p, start);
        InOrderExtends(start, p, s.ledger, k);
      }
    }
  }

  lemma {:induction false} ScheduledKeeps(s: Sys, step: Step, p: Plan, start: View)
    requires InOrderSoFar(s, p, start) && Scheduled(s, step, p)
    ensures InOrderSoFar(Next(s, step), p, start)
  {
    if Subject(step).Some? && Subject(step).value in p.events {
      var i :| 0 <= i < |p.events| && p.events[i] == Subject(step).value;
      match step
      case Project(_, _) => ProjectKeeps(s, i, p, start);
      case Execute(_, refund) => ExecuteKeeps(s, i, refund, p, start);
      case CompleteRefund(_) => CompleteKeeps(s, i, p, start);
    } else {
      ForeignStepKeeps(s, step, p, start);
    }
  }

  // ------------------------------------------------------------------ main results

  /** Before the first delivery: no cursor, none of its ids processed, none of its events in flight. */
  ghost predicate Fresh(s: Sys, p: Plan) {
    && WellFormed(p)
    && p.caseRef in s.db.cases && s.db.cases[p.caseRef].threadId == p.threadId
    && p.commandId !in s.db.cursors
    && (forall i :: 0 <= i < |p.events| ==>
          && p.events[i].eventId !in s.db.processed
          && p.events[i] !in s.pending
          && p.events[i] !in s.acked)
    && s.executed <= s.pending
    && (forall e :: e in s.executed ==> e.payload.Resolution? && e.payload.handoff.handoffId in s.ledger)
  }

  /** Under every schedule the case is the in-order result of the first k events, or its half-step. */
  lemma {:induction false} ProjectionRefinesInOrder(s: Sys, steps: seq<Step>, p: Plan)
    requires Fresh(s, p) && Schedule(s, steps, p)
    ensures InOrderSoFar(Run(s, steps), p, ViewOf(s.db, p))
  {
    if steps == [] {
      assert p.events[..0] == [];
    } else {
      ProjectionRefinesInOrder(s, steps[..|steps| - 1], p);
      ScheduledKeeps(Run(s, steps[..|steps| - 1]), steps[|steps| - 1], p, ViewOf(s.db, p));
    }
  }

  lemma AcknowledgedIsBehind(s: Sys, p: Plan, start: View, i: nat)
    requires InOrderSoFar(s, p, start) && i < |p.events| && p.events[i] in s.acked
    ensures i < Progress(s.db, p)
  {
  }

  /** Once every event is acknowledged, the case is the in-order result of all of them. */
  lemma AllAcknowledgedMeansAllApplied(s: Sys, steps: seq<Step>, p: Plan)
    requires Fresh(s, p) && Schedule(s, steps, p)
    requires forall i :: 0 <= i < |p.events| ==> p.events[i] in Run(s, steps).acked
    ensures var later := Run(s, steps);
      && p.caseRef in later.db.cases
      && Progress(later.db, p) == |p.events|
      && InOrder(ViewOf(s.db, p), p.events, p, later.ledger) == Some(ViewOf(later.db, p))
  {
    ProjectionRefinesInOrder(s, steps, p);
    if p.events != [] {
      AcknowledgedIsBehind(Run(s, steps), p, ViewOf(s.db, p), |p.events| - 1);
    }
    assert p.events[..|p.events|] == p.events;
  }

  /**
   A delivery is found inapplicable, and so rejected, exactly when it is the next event and the
   in-order specification refuses it: duplicates and early arrivals never are.
   */
  lemma {:induction false} InapplicableExactlyWhenRefused(s: Sys, steps: seq<Step>, p: Plan, i: nat)
    requires Fresh(s, p) && Schedule(s, steps, p) && i < |p.events|
    ensures var later := Run(s, steps);
      && CursorLive(later.db, p)
      && (ProjectTx(later.db, p.events[i], p.authorization).answer == Inapplicable <==>
            && i == Progress(later.db, p)
            && InOrder(ViewOf(s.db, p), p.events[..i], p, later.ledger).Some?
            && ApplyTo(InOrder(ViewOf(s.db, p), p.events[..i], p, later.ledger).value, p.events[i], p).Refused?)
  {
    ProjectionRefinesInOrder(s, steps, p);
    var later := Run(s, steps);
    var start := ViewOf(s.db, p);
    DeliveryAnswer(later, i, p, start);
    if i == Progress(later.db, p) {
      var spec := InOrder(start, p.events[..i], p, later.ledger).value;
      if HalfStep(spec, p.events[i], p, ViewOf(later.db, p)) {
        HalfStepIsStable(spec, p.events[i], p, ViewOf(later.db, p), RefundRecord("", true));
      }
    }
  }

  // ------------------------------------------------------------------ which other work may go on meanwhile

  predicate IsPlanned(p: Plan, id: string) { exists i :: 0 <= i < |p.events| && p.events[i].eventId == id }

  /**
   Other work, as its caller can tell: deliveries for other cases and commands under other ids,
   rejections that name neither the case nor the command, new cases, and the entry points of the
   API for other cases, or for this one while it does not await what they bring.
   */
  predicate StepsAside(s: Sys, step: Step, p: Plan) {
    match step
    case Project(e, _) =>
      && e.caseRef != p.caseRef && e.commandId != p.commandId && !IsPlanned(p, e.eventId)
      && RequestRefs(e) !! p.refs
    case Execute(e, _) => e.caseRef != p.caseRef
    case CompleteRefund(e) => e.caseRef != p.caseRef && e.commandId != p.commandId && !IsPlanned(p, e.eventId)
    case RejectMessage(_, refs) => refs.caseRef != Some(p.caseRef) && refs.commandId != Some(p.commandId)
    case CreateCase(_, _, _, _, _, _) => true
    case SendMessage(c, _, _, _, _) =>
      c != p.caseRef || (c in s.db.cases && s.db.cases[c].status != AwaitingClarification && s.db.cases[c].status != AwaitingEvidence)
    case CompleteReview(c, _, _) => c != p.caseRef || (c in s.db.cases && s.db.cases[c].status != AwaitingHumanReview)
    case ConfirmPolicy(c, requestRef, _, _, _, _) =>
      if c == p.caseRef then c in s.db.cases && s.db.cases[c].status != AwaitingPolicyConfirmation else requestRef !in p.refs
    case Fulfil(c, _, _) => c != p.caseRef || (c in s.db.cases && !s.db.cases[c].fulfilment)
  }

  predicate OwnDelivery(step: Step, p: Plan) {
    && Subject(step).Some? && Subject(step).value in p.events
    && (step.Project? ==> step.authorization == p.authorization)
  }

  lemma OtherConfirmation(confirmations: map<string, ConfirmationRow>, ref: string, row: ConfirmationRow, p: Plan)
    requires ref !in p.refs
    ensures Restrict(confirmations[ref := row], p) == Restrict(confirmations, p)
  {
  }

  lemma OtherRecord(db: Db, e: Event, p: Plan)
    requires p.caseRef in db.cases && e.commandId != p.commandId && !IsPlanned(p, e.eventId)
    ensures Undisturbed(db, Record(db, e), p)
  {
    forall i | 0 <= i < |p.events| ensures p.events[i].eventId != e.eventId {
      if p.events[i].eventId == e.eventId { assert IsPlanned(p, e.eventId); }
    }
  }

  lemma OtherCase(db: Db, c: string, row: CaseRow, p: Plan)
    requires p.caseRef in db.cases && c != p.caseRef
    ensures Undisturbed(db, db.(cases := db.cases[c := row]), p)
  {
  }

  lemma UndisturbedTwice(db: Db, mid: Db, later: Db, p: Plan)
    requires Undisturbed(db, mid, p) && Undisturbed(mid, later, p)
    ensures Undisturbed(db, later, p)
  {
  }

  lemma OtherProjectIsAside(s: Sys, e: Event, authorization: Authorization, p: Plan)
    requires p.caseRef in s.db.cases && StepsAside(s, Project(e, authorization), p)
    ensures Undisturbed(s.db, ProjectTx(s.db, e, authorization).db, p)
  {
    if e.caseRef in s.db.cases {
      match ApplyEvent(s.db.cases[e.caseRef], Known(s.db.confirmations, e), e, authorization)
      case Refused =>
      case AwaitExecutor(row) => OtherCase(s.db, e.caseRef, row, p);
      case Complete(row, confirmation) =>
        StoresOwnRequest(s.db.cases[e.caseRef], Known(s.db.confirmations, e), e, authorization);
        OtherApplication(s.db, e, row, confirmation, p);
    }
  }

  /** The case, the confirmation and the record that an applied event of another command leaves. */
  lemma OtherApplication(db: Db, e: Event, row: CaseRow, confirmation: Option<ConfirmationRow>, p: Plan)
    requires p.caseRef in db.cases && e.caseRef != p.caseRef && e.commandId != p.commandId && !IsPlanned(p, e.eventId)
    requires confirmation.Some? ==> confirmation.value.request.requestRef !in p.refs
    ensures Undisturbed(db, Record(db.(cases := db.cases[e.caseRef := row],
                                       confirmations := StoreConfirmation(db.confirmations, confirmation)), e), p)
  {
    var moved := db.(cases := db.cases[e.caseRef := row]);
    var stored := moved.(confirmations := StoreConfirmation(db.confirmations, confirmation));
    OtherCase(db, e.caseRef, row, p);
    if confirmation.Some? { OtherConfirmation(db.confirmations, confirmation.value.request.requestRef, confirmation.value, p); }
    assert Undisturbed(moved, stored, p);
    UndisturbedTwice(db, moved, stored, p);
    OtherRecord(stored, e, p);
    UndisturbedTwice(db, stored, Record(stored, e), p);
  }

  /** The confirmation an event stores is the one it asks for. */
  lemma StoresOwnRequest(row: CaseRow, known: Option<ConfirmationRow>, e: Event, authorization: Authorization)
    requires ApplyEvent(row, known, e, authorization).Complete?
    requires known.Some? ==> known.value.request.requestRef in RequestRefs(e)
    ensures var stored := ApplyEvent(row, known, e, authorization).confirmation;
      stored.Some? ==> stored.value.request.requestRef in RequestRefs(e)
  {
  }

  lemma OtherCompletionIsAside(s: Sys, e: Event, refund: RefundRecord, p: Plan)
    requires p.caseRef in s.db.cases && StepsAside(s, CompleteRefund(e), p)
    ensures Undisturbed(s.db, CompleteTx(s.db, e, refund).db, p)
  {
    if e.caseRef in s.db.cases && RefundOutcome(s.db.cases[e.caseRef], refund).Some? {
      var row := RefundOutcome(s.db.cases[e.caseRef], refund).value;
      var moved := s.db.(cases := s.db.cases[e.caseRef := row]);
      OtherCase(s.db, e.caseRef, row, p);
      OtherRecord(moved, e, p);
      UndisturbedTwice(s.db, moved, Record(moved, e), p);
    }
  }

  lemma OtherResumeIsAside(db: Db, c: string, row: CaseRow, commandId: string, p: Plan)
    requires p.caseRef in db.cases && c != p.caseRef
    ensures Undisturbed(db, ResumeTx(db, c, row, commandId).db, p)
  {
    if MoveTo(row, Observing).Some? { OtherCase(db, c, MoveTo(row, Observing).value, p); }
  }

  lemma OtherConfirmIsAside(db: Db, c: string, requestRef: string, version: nat, accept: bool, key: string, commandId: string, p: Plan)
    requires p.caseRef in db.cases && c != p.caseRef && requestRef !in p.refs
    ensures Undisturbed(db, ConfirmTx(db, c, requestRef, version, accept, key, commandId).db, p)
  {
    if c in db.cases && requestRef in db.confirmations {
      OtherResumeIsAside(db, c, db.cases[c], commandId, p);
      var resumed := ResumeTx(db, c, db.cases[c], commandId).db;
      var row := db.confirmations[requestRef].(response := Some((accept, key)));
      OtherConfirmation(db.confirmations, requestRef, row, p);
      assert resumed.confirmations == db.confirmations;
      assert Undisturbed(resumed, resumed.(confirmations := db.confirmations[requestRef := row]), p);
      UndisturbedTwice(db, resumed, resumed.(confirmations := db.confirmations[requestRef := row]), p);
    }
  }

  lemma OtherRejectionIsAside(db: Db, messageId: string, refs: References, p: Plan)
    requires p.caseRef in db.cases && refs.caseRef != Some(p.caseRef) && refs.commandId != Some(p.commandId)
    ensures Undisturbed(db, RejectTx(db, messageId, refs).db, p)
  {
  }

  lemma AsideIsUndisturbed(s: Sys, step: Step, p: Plan)
    requires p.caseRef in s.db.cases && StepsAside(s, step, p)
    ensures Undisturbed(s.db, Next(s, step).db, p)
  {
    match step
    case Project(e, authorization) => OtherProjectIsAside(s, e, authorization, p);
    case Execute(_, _) =>
    case CompleteRefund(e) =>
      if e.payload.Resolution? && e.payload.handoff.handoffId in s.ledger {
        OtherCompletionIsAside(s, e, s.ledger[e.payload.handoff.handoffId], p);
      }
    case RejectMessage(messageId, refs) => OtherRejectionIsAside(s.db, messageId, refs, p);
    case CreateCase(c, threadId, v2, message, _, _) =>
      if c != p.caseRef { OtherCase(s.db, c, CaseRow(threadId, v2, Observing, [UserTurn(message)], false), p); }
    case SendMessage(c, message, _, _, commandId) =>
      if c != p.caseRef && c in s.db.cases { OtherResumeIsAside(s.db, c, Append(s.db.cases[c], UserTurn(message)), commandId, p); }
    case CompleteReview(c, _, commandId) =>
      if c != p.caseRef && c in s.db.cases { OtherResumeIsAside(s.db, c, s.db.cases[c], commandId, p); }
    case ConfirmPolicy(c, requestRef, version, accept, key, commandId) =>
      if c != p.caseRef { OtherConfirmIsAside(s.db, c, requestRef, version, accept, key, commandId, p); }
    case Fulfil(c, status, entries) =>
      if c != p.caseRef && c in s.db.cases {
        OtherCase(s.db, c, s.db.cases[c].(status := status, log := s.db.cases[c].log + entries), p);
      }
  }

  /**
   Deliveries of the command's events in any order and number, together with any work that steps
   aside, make a schedule: the case is the in-order result of the first k events, or its half-step.
   */
  lemma {:induction false} OtherWorkIsInvisible(s: Sys, steps: seq<Step>, p: Plan)
    requires Fresh(s, p)
    requires forall n :: 0 <= n < |steps| ==> OwnDelivery(steps[n], p) || StepsAside(Run(s, steps[..n]), steps[n], p)
    ensures Schedule(s, steps, p) && InOrderSoFar(Run(s, steps), p, ViewOf(s.db, p))
  {
    if steps != [] {
      var init, last := steps[..|steps| - 1], steps[|steps| - 1];
      forall n | 0 <= n < |init| ensures OwnDelivery(init[n], p) || StepsAside(Run(s, init[..n]), init[n], p) {
        assert init[..n] == steps[..n];
      }
      OtherWorkIsInvisible(s, init, p);
      if !OwnDelivery(last, p) {
        AsideIsUndisturbed(Run(s, init), last, p);
        AsideIsForeign(Run(s, init), last, p);
      }
    }
    ProjectionRefinesInOrder(s, steps, p);
  }

  lemma AsideIsForeign(s: Sys, step: Step, p: Plan)
    requires WellFormed(p) && StepsAside(s, step, p)
    ensures !(Subject(step).Some? && Subject(step).value in p.events)
  {
  }

  /** The steps of one delivery: a refund also needs its executor call and its second transaction. */
  function Delivered(s: Sys, e: Event, p: Plan, refund: RefundRecord): Sys {
    Next(Next(Next(s, Project(e, p.authorization)), Execute(e, refund)), CompleteRefund(e))
  }

  /** The two transactions of a refund, from a state that expects its event. */
  lemma RefundCompletes(s: Sys, e: Event)
    requires e in s.executed && e.payload.Resolution? && e.payload.handoff.handoffId in s.ledger
    requires e.caseRef in s.db.cases && s.db.cases[e.caseRef].status == Executing
    requires e.eventId !in s.db.processed && e.index == ExpectedIndex(s.db, e.commandId)
    ensures var done := Next(s, CompleteRefund(e));
      e in done.acked && e.commandId in done.db.cursors && done.db.cursors[e.commandId].last == e.index
  {
  }

  lemma RefundCommits(s: Sys, e: Event, p: Plan, refund: RefundRecord, row: CaseRow)
    requires ProjectTx(s.db, e, p.authorization) == Tx(AwaitsRefund, s.db.(cases := s.db.cases[e.caseRef := row]))
    requires e.payload.Resolution? && row.status == Executing
    requires e.eventId !in s.db.processed && e.index == ExpectedIndex(s.db, e.commandId)
    ensures var done := Delivered(s, e, p, refund);
      e in done.acked && e.commandId in done.db.cursors && done.db.cursors[e.commandId].last == e.index
  {
    var waiting := Next(s, Project(e, p.authorization));
    assert waiting.db == s.db.(cases := s.db.cases[e.caseRef := row]) && e in waiting.pending;
    var called := Next(waiting, Execute(e, refund));
    assert called.db == waiting.db && e in called.executed;
    RefundCompletes(called, e);
  }

  lemma RefundDeliveryAdvances(s: Sys, p: Plan, start: View, refund: RefundRecord)
    requires InOrderSoFar(s, p, start) && Progress(s.db, p) < |p.events|
    requires ApplyTo(ViewOf(s.db, p), p.events[Progress(s.db, p)], p).AwaitExecutor?
    ensures var k := Progress(s.db, p);
      Progress(Delivered(s, p.events[k], p, refund).db, p) == k + 1 && p.events[k] in Delivered(s, p.events[k], p, refund).acked
  {
    var k := Progress(s.db, p);
    DeliveryAnswer(s, k, p, start);
    RefundCommits(s, p.events[k], p, refund, ApplyTo(ViewOf(s.db, p), p.events[k], p).row);
  }

  lemma PlainDeliveryAdvances(s: Sys, p: Plan, start: View, refund: RefundRecord)
    requires InOrderSoFar(s, p, start) && Progress(s.db, p) < |p.events|
    requires ApplyTo(ViewOf(s.db, p), p.events[Progress(s.db, p)], p).Complete?
    ensures var k := Progress(s.db, p);
      Progress(Delivered(s, p.events[k], p, refund).db, p) == k + 1 && p.events[k] in Delivered(s, p.events[k], p, refund).acked
  {
    DeliveryAnswer(s, Progress(s.db, p), p, start);
  }

  /** A deferred event does not stay stuck: unless it is refused, delivering the next event advances the cursor. */
  lemma {:induction false} NextDeliveryAdvances(s: Sys, steps: seq<Step>, p: Plan, refund: RefundRecord)
    requires Fresh(s, p) && Schedule(s, steps, p)
    requires Progress(Run(s, steps).db, p) < |p.events|
    requires var later := Run(s, steps);
      ProjectTx(later.db, p.events[Progress(later.db, p)], p.authorization).answer != Inapplicable
    ensures var later := Run(s, steps);
      var e := p.events[Progress(later.db, p)];
      var done := Delivered(later, e, p, refund);
      Progress(done.db, p) == Progress(later.db, p) + 1 && e in done.acked
  {
    ProjectionRefinesInOrder(s, steps, p);
    var later := Run(s, steps);
    var k := Progress(later.db, p);
    DeliveryAnswer(later, k, p, ViewOf(s.db, p));
    if ApplyTo(ViewOf(later.db, p), p.events[k], p).Complete? {
      PlainDeliveryAdvances(later, p, ViewOf(s.db, p), refund);
    } else {
      RefundDeliveryAdvances(later, p, ViewOf(s.db, p), refund);
    }
  }
}
