/**
 The whole story of a case: its commands one after the other, each returned to OBSERVING by the
 user, a reviewer or a consent, and the last one under way.  Whatever the schedule, the case is
 what the commands' events, each applied once and in order, and the resumptions between them give.
 */
module CaseStory {
  import opened Common
  import opened CaseMachine
  import opened Projection
  import opened ProjectionRuns
  import opened InOrderProjection

  /** What happens while one command is under way, and the entry point that ends it by returning the case to OBSERVING. */
  datatype Chapter = Chapter(steps: seq<Step>, resume: Step)

  // ------------------------------------------------------------------ the commands of one case

  /** Only the last event of an attempt takes the case out of OBSERVING. */
  predicate OneEnding(p: Plan) { forall i :: 0 <= i < |p.events| - 1 ==> p.events[i].payload.NodeObserved? }

  /** Two commands of the same case. */
  predicate Companions(p: Plan, q: Plan) {
    && p.caseRef == q.caseRef && p.threadId == q.threadId && p.refs == q.refs && p.commandId != q.commandId
    && (forall i :: 0 <= i < |p.events| ==> !IsPlanned(q, p.events[i].eventId))
  }

  predicate Cast(plans: seq<Plan>) {
    && (forall j :: 0 <= j < |plans| ==> WellFormed(plans[j]) && OneEnding(plans[j]))
    && (forall j, k :: 0 <= j < |plans| && 0 <= k < |plans| && j != k ==> Companions(plans[j], plans[k]))
  }

  predicate Unseen(s: Sys, p: Plan) {
    && p.commandId !in s.db.cursors
    && (forall i :: 0 <= i < |p.events| ==>
          p.events[i].eventId !in s.db.processed && p.events[i] !in s.pending && p.events[i] !in s.acked)
  }

  predicate AllRecorded(db: Db, p: Plan) {
    forall i :: 0 <= i < |p.events| ==>
      && p.events[i].eventId in db.processed
      && db.processed[p.events[i].eventId] == ProcessedRow(p.caseRef, p.commandId, i + 1, p.events[i])
  }

  // ------------------------------------------------------------------ the specification

  function Returned(row: CaseRow, confirmations: map<string, ConfirmationRow>): Option<View> {
    match MoveTo(row, Observing) case None => None case Some(moved) => Some(View(moved, confirmations))
  }

  /** What an accepted message, review or consent makes of the case. */
  function Resumed(v: View, step: Step): Option<View> {
    match step
    case SendMessage(_, message, _, _, _) => Returned(Append(v.row, UserTurn(message)), v.confirmations)
    case CompleteReview(_, _, _) => Returned(v.row, v.confirmations)
    case ConfirmPolicy(_, ref, _, accept, key, _) =>
      Returned(v.row, if ref in v.confirmations then v.confirmations[ref := v.confirmations[ref].(response := Some((accept, key)))]
                      else v.confirmations)
    case _ => None
  }

  /** Each finished command's events once and in order, and then its resumption. */
  function CaseInOrder(v: View, plans: seq<Plan>, chapters: seq<Chapter>, ledger: map<string, RefundRecord>): Option<View>
    requires |chapters| <= |plans|
  {
    if chapters == [] then Some(v)
    else
      var k := |chapters| - 1;
      var before := CaseInOrder(v, plans, chapters[..k], ledger);
      var done := if before.None? then None else InOrder(before.value, plans[k].events, plans[k], ledger);
      if done.None? then None else Resumed(done.value, chapters[k].resume)
  }

  // ------------------------------------------------------------------ what may happen

  predicate EntryPoint(step: Step, caseRef: string) {
    match step
    case SendMessage(c, _, _, _, _) => c == caseRef
    case CompleteReview(c, _, _) => c == caseRef
    case ConfirmPolicy(c, _, _, _, _, _) => c == caseRef
    case _ => false
  }

  /** An entry point of the case that stored something. */
  predicate Resumes(s: Sys, step: Step, caseRef: string) { EntryPoint(step, caseRef) && Next(s, step).db != s.db }

  predicate EarlierDelivery(step: Step, plans: seq<Plan>, k: nat)
    requires k <= |plans|
  {
    Subject(step).Some? && exists j :: 0 <= j < k && Subject(step).value in plans[j].events
  }

  /** The step names neither the command nor one of its event ids. */
  predicate NamesNothingOf(step: Step, p: Plan) {
    && (Subject(step).Some? ==> Subject(step).value.commandId != p.commandId && !IsPlanned(p, Subject(step).value.eventId))
    && (step.RejectMessage? ==> step.refs.commandId != Some(p.commandId))
  }

  /**
   While the k-th command is under way: its own deliveries, deliveries of earlier commands again,
   entry points of the case that store nothing, and other work that leaves this command and the
   later ones alone.
   */
  predicate Tells(s: Sys, step: Step, plans: seq<Plan>, k: nat)
    requires k < |plans|
  {
    || OwnDelivery(step, plans[k])
    || EarlierDelivery(step, plans, k)
    || (EntryPoint(step, plans[k].caseRef) && Next(s, step).db == s.db)
    || (StepsAside(s, step, plans[k]) && forall j :: k < j < |plans| ==> NamesNothingOf(step, plans[j]))
  }

  predicate TellsAll(s: Sys, steps: seq<Step>, plans: seq<Plan>, k: nat)
    requires k < |plans|
  {
    steps == [] || (TellsAll(s, steps[..|steps| - 1], plans, k) && Tells(Run(s, steps[..|steps| - 1]), steps[|steps| - 1], plans, k))
  }

  function Told(s: Sys, chapters: seq<Chapter>): Sys {
    if chapters == [] then s
    else
      var last := chapters[|chapters| - 1];
      Next(Run(Told(s, chapters[..|chapters| - 1]), last.steps), last.resume)
  }

  /** One command after the other, each followed by the resumption that starts the next one. */
  predicate Story(s: Sys, plans: seq<Plan>, chapters: seq<Chapter>)
    requires |chapters| < |plans|
  {
    chapters == [] ||
      var k := |chapters| - 1;
      var before := Told(s, chapters[..k]);
      && Story(s, plans, chapters[..k])
      && TellsAll(before, chapters[k].steps, plans, k)
      && Resumes(Run(before, chapters[k].steps), chapters[k].resume, plans[k].caseRef)
  }

  ghost predicate Beginning(s: Sys, plans: seq<Plan>) {
    && plans != [] && Cast(plans)
    && (forall j :: 0 <= j < |plans| ==> Unseen(s, plans[j]))
    && plans[0].caseRef in s.db.cases && s.db.cases[plans[0].caseRef].threadId == plans[0].threadId
    && s.db.cases[plans[0].caseRef].status == Observing
    && s.executed <= s.pending
    && (forall e :: e in s.executed ==> e.payload.Resolution? && e.payload.handoff.handoffId in s.ledger)
  }

  // ------------------------------------------------------------------ while a command is under way

  /** Earlier commands are recorded as a whole, later ones have not begun. */
  predicate Between(s: Sys, plans: seq<Plan>, k: nat) {
    && (forall j :: 0 <= j < k && j < |plans| ==> AllRecorded(s.db, plans[j]))
    && (forall j :: k < j < |plans| ==> Unseen(s, plans[j]))
  }

  lemma RecordedStays(s: Sys, step: Step, p: Plan)
    requires AllRecorded(s.db, p)
    ensures AllRecorded(Next(s, step).db, p)
  {
  }

  lemma UnseenStays(s: Sys, step: Step, p: Plan)
    requires Unseen(s, p) && NamesNothingOf(step, p)
    ensures Unseen(Next(s, step), p)
  {
    forall i | 0 <= i < |p.events| ensures Subject(step).Some? ==> p.events[i].eventId != Subject(step).value.eventId {
      assert IsPlanned(p, p.events[i].eventId);
    }
  }

  lemma CompanionsNameNothing(p: Plan, q: Plan, step: Step)
    requires WellFormed(p) && Companions(p, q) && Subject(step).Some? && Subject(step).value in p.events
    ensures NamesNothingOf(step, q)
    ensures Subject(step).value !in q.events
  {
    var i :| 0 <= i < |p.events| && p.events[i] == Subject(step).value;
    assert !IsPlanned(q, p.events[i].eventId);
  }

  lemma LaterCommandsAreNotNamed(s: Sys, step: Step, plans: seq<Plan>, k: nat, j: nat)
    requires Cast(plans) && k < j < |plans| && Tells(s, step, plans, k)
    ensures NamesNothingOf(step, plans[j])
  {
    if OwnDelivery(step, plans[k]) {
      CompanionsNameNothing(plans[k], plans[j], step);
    } else if EarlierDelivery(step, plans, k) {
      var i :| 0 <= i < k && Subject(step).value in plans[i].events;
      CompanionsNameNothing(plans[i], plans[j], step);
    }
  }

  lemma BetweenStays(s: Sys, step: Step, plans: seq<Plan>, k: nat)
    requires Cast(plans) && k < |plans| && Between(s, plans, k) && Tells(s, step, plans, k)
    ensures Between(Next(s, step), plans, k)
  {
    forall j | 0 <= j < k ensures AllRecorded(Next(s, step).db, plans[j]) { RecordedStays(s, step, plans[j]); }
    forall j | k < j < |plans| ensures Unseen(Next(s, step), plans[j]) {
      LaterCommandsAreNotNamed(s, step, plans, k, j);
      UnseenStays(s, step, plans[j]);
    }
  }

  /** Delivering an earlier command's event again changes nothing. */
  lemma RecordedIsIgnored(s: Sys, step: Step, p: Plan)
    requires WellFormed(p) && AllRecorded(s.db, p) && p.caseRef in s.db.cases
    requires Subject(step).Some? && Subject(step).value in p.events
    ensures Next(s, step).db == s.db
  {
    var i :| 0 <= i < |p.events| && p.events[i] == Subject(step).value;
  }

  lemma ToldStepIsScheduled(s: Sys, step: Step, plans: seq<Plan>, k: nat)
    requires Cast(plans) && k < |plans| && Between(s, plans, k) && Tells(s, step, plans, k)
    requires plans[k].caseRef in s.db.cases
    ensures Scheduled(s, step, plans[k])
  {
    if OwnDelivery(step, plans[k]) {
    } else if EarlierDelivery(step, plans, k) {
      var j :| 0 <= j < k && Subject(step).value in plans[j].events;
      RecordedIsIgnored(s, step, plans[j]);
      CompanionsNameNothing(plans[j], plans[k], step);
    } else if StepsAside(s, step, plans[k]) {
      AsideIsUndisturbed(s, step, plans[k]);
      AsideIsForeign(s, step, plans[k]);
    }
  }

  lemma {:induction false} ChapterIsScheduled(s: Sys, steps: seq<Step>, plans: seq<Plan>, k: nat)
    requires Cast(plans) && k < |plans| && Fresh(s, plans[k]) && Between(s, plans, k) && TellsAll(s, steps, plans, k)
    ensures Schedule(s, steps, plans[k]) && Between(Run(s, steps), plans, k)
  {
    if steps != [] {
      var init, last := steps[..|steps| - 1], steps[|steps| - 1];
      ChapterIsScheduled(s, init, plans, k);
      ProjectionRefinesInOrder(s, init, plans[k]);
      ToldStepIsScheduled(Run(s, init), last, plans, k);
      BetweenStays(Run(s, init), last, plans, k);
    }
  }

  // ------------------------------------------------------------------ the end of a chapter

  /** Before its last event a command leaves the case in OBSERVING. */
  lemma {:induction false} ObservesOn(v: View, p: Plan, ledger: map<string, RefundRecord>, k: nat)
    requires OneEnding(p) && v.row.status == Observing && k < |p.events| && InOrder(v, p.events[..k], p, ledger).Some?
    ensures InOrder(v, p.events[..k], p, ledger).value.row.status == Observing
  {
    if k > 0 {
      InOrderExtends(v, p, ledger, k - 1);
      ObservesOn(v, p, ledger, k - 1);
      assert p.events[k - 1].payload.NodeObserved?;
    }
  }

  lemma ResumesAwaiting(s: Sys, step: Step, caseRef: string)
    requires Resumes(s, step, caseRef)
    ensures caseRef in s.db.cases && AwaitsAgentInput(s.db.cases[caseRef].status)
  {
  }

  /** Short of its end a command leaves the case in OBSERVING, or in EXECUTING at the half-step. */
  lemma {:induction false} UnfinishedAwaitsNothing(now: Sys, p: Plan, start: View)
    requires InOrderSoFar(now, p, start) && OneEnding(p) && start.row.status == Observing && Progress(now.db, p) < |p.events|
    ensures !AwaitsAgentInput(now.db.cases[p.caseRef].status)
  {
    var k := Progress(now.db, p);
    ObservesOn(start, p, now.ledger, k);
    var spec := InOrder(start, p.events[..k], p, now.ledger).value;
    if HalfStep(spec, p.events[k], p, ViewOf(now.db, p)) { HalfStepExecutes(spec, p.events[k], p, ViewOf(now.db, p)); }
  }

  lemma HalfStepExecutes(v: View, e: Event, p: Plan, now: View)
    requires HalfStep(v, e, p, now)
    ensures now.row.status == Executing
  {
  }

  /** A case that can be resumed shows its command as a whole: none of its events is missing. */
  lemma {:induction false} ResumedAfterAll(now: Sys, p: Plan, start: View, step: Step)
    requires InOrderSoFar(now, p, start) && OneEnding(p) && start.row.status == Observing && Resumes(now, step, p.caseRef)
    ensures Progress(now.db, p) == |p.events| && AllRecorded(now.db, p)
    ensures InOrder(start, p.events, p, now.ledger) == Some(ViewOf(now.db, p))
  {
    ResumesAwaiting(now, step, p.caseRef);
    var k := Progress(now.db, p);
    if k < |p.events| { UnfinishedAwaitsNothing(now, p, start); }
    assert p.events[..k] == p.events;
  }

  lemma ConsentIsSeen(confirmations: map<string, ConfirmationRow>, ref: string, row: ConfirmationRow, p: Plan)
    requires ref in confirmations
    ensures Restrict(confirmations[ref := row], p) ==
      var seen := Restrict(confirmations, p); if ref in seen then seen[ref := row] else seen
  {
  }

  lemma ResumeIsSeen(s: Sys, step: Step, p: Plan)
    requires Resumes(s, step, p.caseRef) && p.caseRef in s.db.cases
    ensures var later := Next(s, step);
      && later == s.(db := later.db)
      && later.db.processed == s.db.processed && later.db.cursors == s.db.cursors
      && p.caseRef in later.db.cases && later.db.cases[p.caseRef].status == Observing
      && later.db.cases[p.caseRef].threadId == s.db.cases[p.caseRef].threadId
      && Resumed(ViewOf(s.db, p), step) == Some(ViewOf(later.db, p))
  {
    if step.ConfirmPolicy? {
      var row := s.db.confirmations[step.requestRef].(response := Some((step.accept, step.key)));
      ConsentIsSeen(s.db.confirmations, step.requestRef, row, p);
    }
  }

  lemma {:induction false} LedgerStays(s: Sys, steps: seq<Step>)
    ensures forall h :: h in s.ledger ==> h in Run(s, steps).ledger && Run(s, steps).ledger[h] == s.ledger[h]
  {
    if steps != [] { LedgerStays(s, steps[..|steps| - 1]); }
  }

  lemma {:induction false} CaseLedgerGrows(v: View, plans: seq<Plan>, chapters: seq<Chapter>,
                                           ledger: map<string, RefundRecord>, later: map<string, RefundRecord>)
    requires |chapters| <= |plans| && forall h :: h in ledger ==> h in later && later[h] == ledger[h]
    requires CaseInOrder(v, plans, chapters, ledger).Some?
    ensures CaseInOrder(v, plans, chapters, later) == CaseInOrder(v, plans, chapters, ledger)
  {
    if chapters != [] {
      var k := |chapters| - 1;
      CaseLedgerGrows(v, plans, chapters[..k], ledger, later);
      LedgerGrows(CaseInOrder(v, plans, chapters[..k], ledger).value, plans[k].events, plans[k], ledger, later);
    }
  }

  // ------------------------------------------------------------------ main results

  /** When a command begins, the case is the in-order result of all that came before. */
  ghost predicate Begins(s: Sys, now: Sys, plans: seq<Plan>, chapters: seq<Chapter>)
    requires |chapters| < |plans| && plans[0].caseRef in s.db.cases
  {
    var p := plans[|chapters|];
    && Fresh(now, p) && Between(now, plans, |chapters|)
    && now.db.cases[p.caseRef].status == Observing
    && CaseInOrder(ViewOf(s.db, plans[0]), plans, chapters, now.ledger) == Some(ViewOf(now.db, p))
  }

  lemma {:induction false} ChapterByChapter(s: Sys, plans: seq<Plan>, chapters: seq<Chapter>)
    requires Beginning(s, plans) && |chapters| < |plans| && Story(s, plans, chapters)
    ensures Begins(s, Told(s, chapters), plans, chapters)
  {
    if chapters != [] {
      var k := |chapters| - 1;
      ChapterByChapter(s, plans, chapters[..k]);
      ChapterEnds(s, Told(s, chapters[..k]), plans, chapters);
    }
  }

  /** A resumed command is complete: its events are applied as a whole, and the case shows their in-order result. */
  lemma {:induction false} ChapterIsComplete(before: Sys, chapter: Chapter, plans: seq<Plan>, k: nat)
    requires Cast(plans) && k < |plans| && Fresh(before, plans[k]) && Between(before, plans, k)
    requires before.db.cases[plans[k].caseRef].status == Observing
    requires TellsAll(before, chapter.steps, plans, k) && Resumes(Run(before, chapter.steps), chapter.resume, plans[k].caseRef)
    ensures var p, now := plans[k], Run(before, chapter.steps);
      && InOrderSoFar(now, p, ViewOf(before.db, p)) && Between(now, plans, k) && AllRecorded(now.db, p)
      && InOrder(ViewOf(before.db, p), p.events, p, now.ledger) == Some(ViewOf(now.db, p))
  {
    var p := plans[k];
    ChapterIsScheduled(before, chapter.steps, plans, k);
    ProjectionRefinesInOrder(before, chapter.steps, p);
    ResumedAfterAll(Run(before, chapter.steps), p, ViewOf(before.db, p), chapter.resume);
  }

  /** After the resumption the next command is fresh. */
  lemma NextBegins(now: Sys, resume: Step, plans: seq<Plan>, k: nat, start: View)
    requires Cast(plans) && k + 1 < |plans|
    requires InOrderSoFar(now, plans[k], start) && Between(now, plans, k) && AllRecorded(now.db, plans[k])
    requires Resumes(now, resume, plans[k].caseRef)
    ensures var later, p := Next(now, resume), plans[k + 1];
      && Fresh(later, p) && Between(later, plans, k + 1)
      && later.ledger == now.ledger && later.db.cases[p.caseRef].status == Observing
      && Resumed(ViewOf(now.db, plans[k]), resume) == Some(ViewOf(later.db, p))
  {
    ResumeIsSeen(now, resume, plans[k]);
    assert Companions(plans[k], plans[k + 1]) && Unseen(now, plans[k + 1]);
  }

  lemma {:induction false} ChapterEnds(s: Sys, before: Sys, plans: seq<Plan>, chapters: seq<Chapter>)
    requires Beginning(s, plans) && 0 < |chapters| < |plans|
    requires Begins(s, before, plans, chapters[..|chapters| - 1])
    requires var k := |chapters| - 1;
      TellsAll(before, chapters[k].steps, plans, k) && Resumes(Run(before, chapters[k].steps), chapters[k].resume, plans[k].caseRef)
    ensures var last := chapters[|chapters| - 1];
      Begins(s, Next(Run(before, last.steps), last.resume), plans, chapters)
  {
    var k := |chapters| - 1;
    var now := Run(before, chapters[k].steps);
    ChapterIsComplete(before, chapters[k], plans, k);
    NextBegins(now, chapters[k].resume, plans, k, ViewOf(before.db, plans[k]));
    LedgerStays(before, chapters[k].steps);
    CaseLedgerGrows(ViewOf(s.db, plans[0]), plans, chapters[..k], before.ledger, now.ledger);
  }

  /**
   The whole case: at any moment of its current command the case is the in-order result of the
   first events of that command, its cursor says how many, or the half-step towards the next one,
   applied to the in-order result of all commands before; and those are recorded as a whole.
   */
  lemma {:induction false} WholeCaseIsInOrder(s: Sys, plans: seq<Plan>, chapters: seq<Chapter>, steps: seq<Step>)
    requires Beginning(s, plans) && |chapters| < |plans| && Story(s, plans, chapters)
    requires TellsAll(Told(s, chapters), steps, plans, |chapters|)
    ensures var now := Run(Told(s, chapters), steps);
      var start := CaseInOrder(ViewOf(s.db, plans[0]), plans, chapters, now.ledger);
      && start.Some? && InOrderSoFar(now, plans[|chapters|], start.value)
      && (forall j :: 0 <= j < |chapters| ==> AllRecorded(now.db, plans[j]))
  {
    ChapterByChapter(s, plans, chapters);
    var before := Told(s, chapters);
    ChapterIsScheduled(before, steps, plans, |chapters|);
    ProjectionRefinesInOrder(before, steps, plans[|chapters|]);
    LedgerStays(before, steps);
    CaseLedgerGrows(ViewOf(s.db, plans[0]), plans, chapters, before.ledger, Run(before, steps).ledger);
  }

  // ------------------------------------------------------------------ a story that happens

  function Question(id: string): Event { Event(id, "c1", "A", "t", 1, 0, Interrupted(Clarification("which item?"), true)) }

  function Refund(id: string): Event { Event(id, "c2", "A", "t", 1, 0, Resolution(Handoff("h", true, false))) }

  function Commands(id: string, other: string): seq<Plan> {
    [Plan("A", "c1", "t", [Question(id)], NotAuthorized, {}), Plan("A", "c2", "t", [Refund(other)], NotAuthorized, {})]
  }

  lemma CommandsAreCast(id: string, other: string)
    requires id != other
    ensures Cast(Commands(id, other))
  {
    var plans := Commands(id, other);
    assert forall i :: 0 <= i < |plans[0].events| ==> !IsPlanned(plans[1], plans[0].events[i].eventId);
    assert Companions(plans[0], plans[1]) && Companions(plans[1], plans[0]);
  }

  function Opened(): Sys { Next(Empty, CreateCase("A", "t", false, "", "c1", true)) }

  lemma QuestionIsAsked(id: string, other: string)
    requires id != other
    ensures Beginning(Opened(), Commands(id, other))
    ensures var asked := Next(Opened(), Project(Question(id), NotAuthorized));
      "A" in asked.db.cases && asked.db.cases["A"].status == AwaitingClarification && asked.db.outbox == [OutboxEntry("c1", "A")]
  {
    CommandsAreCast(id, other);
  }

  lemma AnswerResumes(s: Sys)
    requires "A" in s.db.cases && s.db.cases["A"].status == AwaitingClarification && s.db.outbox == [OutboxEntry("c1", "A")]
    ensures Resumes(s, SendMessage("A", "the blue one", 0, true, "c2"), "A")
  {
    assert |Next(s, SendMessage("A", "the blue one", 0, true, "c2")).db.outbox| == 2;
  }

  /** A question, its answer, and then the question again beside the refund it led to: a story as the theorem asks for. */
  lemma {:induction false} QuestionThenRefund(id: string, other: string)
    requires id != other
    ensures var plans := Commands(id, other);
      var s := Opened();
      var chapters := [Chapter([Project(Question(id), NotAuthorized)], SendMessage("A", "the blue one", 0, true, "c2"))];
      && Beginning(s, plans) && Story(s, plans, chapters)
      && TellsAll(Told(s, chapters), [Project(Question(id), NotAuthorized), Project(Refund(other), NotAuthorized)], plans, 1)
  {
    var plans, s := Commands(id, other), Opened();
    var first, again := Project(Question(id), NotAuthorized), Project(Refund(other), NotAuthorized);
    var chapter := Chapter([first], SendMessage("A", "the blue one", 0, true, "c2"));
    QuestionIsAsked(id, other);
    AnswerResumes(Next(s, first));
    assert [chapter][..0] == [] && [first][..0] == [] && [first, again][..1] == [first];
    assert Question(id) in plans[0].events && Refund(other) in plans[1].events;
    assert Run(s, [first]) == Next(s, first);
    assert Tells(s, first, plans, 0) && TellsAll(s, [], plans, 0);
    assert Resumes(Run(s, [first]), chapter.resume, "A");
    assert Story(s, plans, [chapter][..0]);
    TwoStepsTell(Told(s, [chapter]), first, again, plans);
  }

  lemma TwoStepsTell(s: Sys, earlier: Step, own: Step, plans: seq<Plan>)
    requires |plans| == 2 && EarlierDelivery(earlier, plans, 1) && OwnDelivery(own, plans[1])
    ensures TellsAll(s, [earlier, own], plans, 1)
  {
    assert [earlier, own][..1] == [earlier] && [earlier][..0] == [];
    assert TellsAll(s, [], plans, 1) && Tells(s, earlier, plans, 1);
    assert TellsAll(s, [earlier], plans, 1);
    assert Tells(Run(s, [earlier]), own, plans, 1);
  }
}
