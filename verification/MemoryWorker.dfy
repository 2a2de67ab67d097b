/**
 The memory worker (apps/agent_service/src/return_agent_service/memory_worker.py) as a step
 machine: every await is one step; any number of workers interleave, crash, lose their lease and
 receive a job again.  `Lost` is a failure without effect, `Ambiguous` a failure whose effect
 nevertheless happened.
 */
module MemoryWorker {
  import opened Common
  import opened MemoryReplay
  import J = Journal

  datatype Body = Garbage | JobBody(job: Job)

  datatype Fate = Delivered | Lost | Ambiguous

  /** submit_candidate: accepted, failed in transport (retried), or refused (recorded as a failure). */
  datatype SubmitFate = Accepted | Transient(effect: bool) | Refused(effect: bool, error: string)

  datatype Pc =
    | Idle
    | DeadLettering(m: string)
    | DeadAcking(m: string)
    | Claiming(m: string)
    | Loading(m: string)
    | Distilling(m: string, promptVersion: string)
    | SavingResult(m: string, output: Output)
    | Submitting(m: string, output: Output, promptVersion: string)
    | SavingEvent(m: string, event: MemoryEvent)
    | Publishing(m: string, event: MemoryEvent)
    | Finishing(m: string, event: MemoryEvent)
    | Acking(m: string)
    | Abandoning(m: string)

  /**
   `refs` is the candidate store: submitting the same candidate again returns the same reference.
   `submitted` records for which job each effective submission was made.
   */
  datatype Sys = Sys(bodies: map<string, Body>, journal: J.Rows, rows: Rows, refs: map<string, string>,
                     submitted: seq<(string, string)>, events: seq<MemoryEvent>, dead: set<string>, acked: set<string>,
                     workers: map<string, Pc>)

  datatype Step =
    | Read(w: string, m: string)
    | DeadLetter(w: string, fate: Fate)
    | DeadAck(w: string, fate: Fate)
    | Claim(w: string, now: int, lease: nat)
    | Load(w: string, promptVersion: string, modelProfile: Option<string>, fate: Fate)
    | Distill(w: string, output: Option<Output>, error: string, at: int)
    | SaveResult(w: string, fate: Fate)
    | Submit(w: string, ref: string, at: int, how: SubmitFate)
    | SaveEvent(w: string, fate: Fate)
    | Publish(w: string, fate: Fate)
    | Finish(w: string, fate: Fate)
    | Ack(w: string, fate: Fate)
    | Abandon(w: string, fate: Fate)
    | Crash(w: string)

  predicate HasJob(s: Sys, m: string) { m in s.bodies && s.bodies[m].JobBody? }

  function JobOf(s: Sys, m: string): Job
    requires HasJob(s, m)
  {
    s.bodies[m].job
  }

  function PcOf(s: Sys, w: string): Pc { if w in s.workers then s.workers[w] else Idle }

  function At(s: Sys, w: string, pc: Pc): Sys { s.(workers := s.workers[w := pc]) }

  function RefOf(s: Sys, candidate: string, ref: string): string {
    if candidate in s.refs then s.refs[candidate] else ref
  }

  /** The candidate reaches the store. */
  function Submitted(s: Sys, jobId: string, candidate: string, ref: string): Sys {
    s.(refs := s.refs[candidate := RefOf(s, candidate, ref)], submitted := s.submitted + [(jobId, candidate)])
  }

  /** Where a loaded row leads: publish its event, submit its result, or call the model. */
  function AfterLoad(m: string, row: Row): Pc {
    if row.terminalEvent.Some? then Publishing(m, row.terminalEvent.value)
    else if row.result.Some? then Submitting(m, row.result.value, row.promptVersion)
    else Distilling(m, row.promptVersion)
  }

  function SubmitStep(s: Sys, w: string, pc: Pc, ref: string, at: int, how: SubmitFate): Sys
    requires pc.Submitting? && HasJob(s, pc.m)
  {
    var jobId := JobOf(s, pc.m).jobId;
    match pc.output
    case Skip(_) => At(s, w, SavingEvent(pc.m, CompletedEvent(jobId, at, pc.promptVersion, pc.output, None)))
    case Candidate(candidate) =>
      match how
      case Accepted =>
        At(Submitted(s, jobId, candidate, ref), w,
           SavingEvent(pc.m, CompletedEvent(jobId, at, pc.promptVersion, pc.output, Some(RefOf(s, candidate, ref)))))
      case Transient(effect) => At(if effect then Submitted(s, jobId, candidate, ref) else s, w, Abandoning(pc.m))
      case Refused(effect, error) =>
        At(if effect then Submitted(s, jobId, candidate, ref) else s, w,
           SavingEvent(pc.m, FailedEvent(jobId, at, pc.promptVersion, error)))
  }

  /** run_once and _execute; a step that does not fit the worker's position does nothing. */
  function Next(s: Sys, step: Step): Sys {
    var pc := PcOf(s, step.w);
    var w := step.w;
    match step
    case Read(_, m) =>
      if pc.Idle? && m in s.bodies then At(s, w, if s.bodies[m].Garbage? then DeadLettering(m) else Claiming(m)) else s
    case DeadLetter(_, fate) =>
      if pc.DeadLettering? then
        At(if fate == Lost then s else s.(dead := s.dead + {pc.m}), w, if fate == Delivered then DeadAcking(pc.m) else Idle)
      else s
    case DeadAck(_, fate) =>
      if pc.DeadAcking? then At(if fate == Lost then s else s.(acked := s.acked + {pc.m}), w, Idle) else s
    case Claim(_, now, lease) =>
      if pc.Claiming? && HasJob(s, pc.m) then
        var (answer, journal) := J.Apply(s.journal, J.ClaimOp(JobOf(s, pc.m).jobId, w, now, lease));
        At(s.(journal := journal), w,
           match answer.claim case Claimed => Loading(pc.m) case AlreadyTerminal => Acking(pc.m) case Busy => Idle)
      else s
    case Load(_, promptVersion, modelProfile, fate) =>
      if pc.Loading? && HasJob(s, pc.m) then
        var (replay, rows) := LoadTx(s.rows, JobOf(s, pc.m), promptVersion, modelProfile);
        At(if fate == Lost then s else s.(rows := rows), w,
           if fate == Delivered && replay.Some? then AfterLoad(pc.m, replay.value) else Abandoning(pc.m))
      else s
    case Distill(_, output, error, at) =>
      if pc.Distilling? && HasJob(s, pc.m) then
        At(s, w, if output.Some? then SavingResult(pc.m, output.value)
                 else SavingEvent(pc.m, FailedEvent(JobOf(s, pc.m).jobId, at, pc.promptVersion, error)))
      else s
    case SaveResult(_, fate) =>
      if pc.SavingResult? && HasJob(s, pc.m) then
        var (replay, rows) := SaveTx(s.rows, JobOf(s, pc.m), Result(pc.output));
        At(if fate == Lost then s else s.(rows := rows), w,
           if fate == Delivered && replay.Some? && replay.value.result.Some?
           then Submitting(pc.m, replay.value.result.value, replay.value.promptVersion) else Abandoning(pc.m))
      else s
    case Submit(_, ref, at, how) =>
      if pc.Submitting? && HasJob(s, pc.m) then SubmitStep(s, w, pc, ref, at, how) else s
    case SaveEvent(_, fate) =>
      if pc.SavingEvent? && HasJob(s, pc.m) then
        var (replay, rows) := SaveTx(s.rows, JobOf(s, pc.m), TerminalEvent(pc.event));
        At(if fate == Lost then s else s.(rows := rows), w,
           if fate == Delivered && replay.Some? && replay.value.terminalEvent.Some?
           then Publishing(pc.m, replay.value.terminalEvent.value) else Abandoning(pc.m))
      else s
    case Publish(_, fate) =>
      if pc.Publishing? then
        At(if fate == Lost then s else s.(events := s.events + [pc.event]), w,
           if fate == Delivered then Finishing(pc.m, pc.event) else Abandoning(pc.m))
      else s
    case Finish(_, fate) =>
      if pc.Finishing? && HasJob(s, pc.m) then
        var state := if pc.event.FailedEvent? then J.Failed else J.Completed;
        var (answer, journal) := J.Apply(s.journal, J.FinishOp(JobOf(s, pc.m).jobId, w, state));
        At(if fate == Lost then s else s.(journal := journal), w, if fate == Delivered && answer.ok then Acking(pc.m) else Abandoning(pc.m))
      else s
    case Ack(_, fate) =>
      if pc.Acking? then
        At(if fate == Lost then s else s.(acked := s.acked + {pc.m}), w, if fate == Delivered then Idle else Abandoning(pc.m))
      else s
    case Abandon(_, fate) =>
      if pc.Abandoning? && HasJob(s, pc.m) then
        At(if fate == Lost then s else s.(journal := J.Apply(s.journal, J.AbandonOp(JobOf(s, pc.m).jobId, w)).1), w, Idle)
      else s
    case Crash(_) => At(s, w, Idle)
  }

  function Run(s: Sys, steps: seq<Step>): Sys {
    if steps == [] then s else Next(Run(s, steps[..|steps| - 1]), steps[|steps| - 1])
  }

  function Start(bodies: map<string, Body>): Sys { Sys(bodies, map[], map[], map[], [], [], {}, {}, map[]) }

  // ------------------------------------------------------------------ the invariant

  /** A completed event carries the durable result, and a reference obtained by submitting its candidate. */
  predicate EventFits(s: Sys, jobId: string, event: MemoryEvent) {
    && event.jobId == jobId
    && jobId in s.rows
    && event.promptVersion == s.rows[jobId].promptVersion
    && (event.CompletedEvent? ==>
          && s.rows[jobId].result == Some(event.result)
          && (event.result.Candidate? ==>
                && event.submissionRef.Some?
                && event.result.candidate in s.refs && s.refs[event.result.candidate] == event.submissionRef.value
                && (jobId, event.result.candidate) in s.submitted)
          && (event.result.Skip? ==> event.submissionRef.None?))
  }

  predicate Stored(s: Sys, jobId: string, event: MemoryEvent) {
    jobId in s.rows && s.rows[jobId].terminalEvent == Some(event)
  }

  predicate RowsOk(s: Sys) {
    forall id :: id in s.rows && s.rows[id].terminalEvent.Some? ==> EventFits(s, id, s.rows[id].terminalEvent.value)
  }

  predicate OutputsOk(s: Sys) {
    && (forall i :: 0 <= i < |s.events| ==> Stored(s, s.events[i].jobId, s.events[i]))
    && (forall i :: 0 <= i < |s.submitted| ==>
          s.submitted[i].0 in s.rows && s.rows[s.submitted[i].0].result == Some(Candidate(s.submitted[i].1)))
  }

  ghost predicate JournalOk(s: Sys) {
    forall id :: J.Finished(s.journal, id) ==>
      && id in s.rows && s.rows[id].terminalEvent.Some?
      && s.rows[id].terminalEvent.value in s.events
      && (s.rows[id].terminalEvent.value.FailedEvent? <==> s.journal[id].state == J.Failed)
  }

  predicate Settled(s: Sys, m: string) {
    m in s.dead || (HasJob(s, m) && J.Finished(s.journal, JobOf(s, m).jobId))
  }

  predicate PcOk(s: Sys, pc: Pc) {
    match pc
    case DeadLettering(m) => m in s.bodies && s.bodies[m].Garbage?
    case DeadAcking(m) => m in s.dead
    case Distilling(m, promptVersion) =>
      HasJob(s, m) && JobOf(s, m).jobId in s.rows && s.rows[JobOf(s, m).jobId].promptVersion == promptVersion
    case Submitting(m, output, promptVersion) =>
      && HasJob(s, m) && JobOf(s, m).jobId in s.rows
      && s.rows[JobOf(s, m).jobId].promptVersion == promptVersion
      && s.rows[JobOf(s, m).jobId].result == Some(output)
    case SavingEvent(m, event) => HasJob(s, m) && EventFits(s, JobOf(s, m).jobId, event)
    case Publishing(m, event) => HasJob(s, m) && Stored(s, JobOf(s, m).jobId, event) && event.jobId == JobOf(s, m).jobId
    case Finishing(m, event) => HasJob(s, m) && Stored(s, JobOf(s, m).jobId, event) && event in s.events
    case Acking(m) => Settled(s, m)
    case _ => true
  }

  ghost predicate SysOk(s: Sys) {
    && RowsOk(s)
    && OutputsOk(s)
    && JournalOk(s)
    && (forall w :: w in s.workers ==> PcOk(s, s.workers[w]))
    && (forall m :: m in s.dead ==> m in s.bodies && s.bodies[m].Garbage?)
    && (forall m :: m in s.acked ==> Settled(s, m))
  }

  // ------------------------------------------------------------------ one step

  /** Rows, references, submissions, published events and finished jobs are never lost or changed. */
  ghost predicate Grows(s: Sys, later: Sys) {
    && later.bodies == s.bodies
    && Preserves(s.rows, later.rows)
    && (forall c :: c in s.refs ==> c in later.refs && later.refs[c] == s.refs[c])
    && s.submitted <= later.submitted
    && s.events <= later.events
    && s.dead <= later.dead
    && (forall id :: J.Finished(s.journal, id) ==> J.Finished(later.journal, id) && later.journal[id] == s.journal[id])
  }

  lemma FitStays(s: Sys, later: Sys, jobId: string, event: MemoryEvent)
    requires EventFits(s, jobId, event) && Grows(s, later)
    ensures EventFits(later, jobId, event)
  {
    if event.CompletedEvent? && event.result.Candidate? {
      var i :| 0 <= i < |s.submitted| && s.submitted[i] == (jobId, event.result.candidate);
      assert later.submitted[i] == s.submitted[i];
    }
  }

  lemma PcStays(s: Sys, later: Sys, pc: Pc)
    requires PcOk(s, pc) && Grows(s, later)
    ensures PcOk(later, pc)
  {
    match pc
    case SavingEvent(m, event) => FitStays(s, later, JobOf(s, m).jobId, event);
    case Finishing(m, event) =>
      var i :| 0 <= i < |s.events| && s.events[i] == event;
      assert later.events[i] == event;
    case _ =>
  }

  lemma OthersStay(s: Sys, later: Sys, w: string, pc: Pc)
    requires SysOk(s) && Grows(s, later)
    requires RowsOk(later) && OutputsOk(later) && JournalOk(later)
    requires later.workers == s.workers[w := pc] && PcOk(later, pc)
    requires forall m :: m in later.dead && m !in s.dead ==> m in s.bodies && s.bodies[m].Garbage?
    requires forall m :: m in later.acked && m !in s.acked ==> Settled(later, m)
    ensures SysOk(later)
  {
    forall v | v in later.workers ensures PcOk(later, later.workers[v]) {
      if v != w { PcStays(s, later, s.workers[v]); }
    }
  }

  /** Growth that adds no row event keeps what is stored. */
  lemma StoredStays(s: Sys, later: Sys)
    requires RowsOk(s) && OutputsOk(s) && JournalOk(s) && Grows(s, later)
    requires later.events == s.events && later.submitted == s.submitted && later.refs == s.refs && later.journal == s.journal
    requires forall id :: id in later.rows && later.rows[id].terminalEvent.Some? ==>
               (id in s.rows && s.rows[id].terminalEvent == later.rows[id].terminalEvent) || EventFits(later, id, later.rows[id].terminalEvent.value)
    ensures RowsOk(later) && OutputsOk(later) && JournalOk(later)
  {
    forall id | id in later.rows && later.rows[id].terminalEvent.Some? ensures EventFits(later, id, later.rows[id].terminalEvent.value) {
      if id in s.rows && s.rows[id].terminalEvent == later.rows[id].terminalEvent {
        FitStays(s, later, id, s.rows[id].terminalEvent.value);
      }
    }
  }

  lemma JournalGrows(s: Sys, op: J.Op)
    requires JournalOk(s)
    requires op.FinishOp? ==>
      && op.id in s.rows && s.rows[op.id].terminalEvent.Some? && s.rows[op.id].terminalEvent.value in s.events
      && op.state != J.Running && (s.rows[op.id].terminalEvent.value.FailedEvent? <==> op.state == J.Failed)
    ensures var later := s.(journal := J.Apply(s.journal, op).1); JournalOk(later) && Grows(s, later)
  {
  }

  lemma {:induction false} JournalStep(s: Sys, later: Sys, w: string, pc: Pc, op: J.Op)
    requires SysOk(s)
    requires op.FinishOp? ==>
      && op.id in s.rows && s.rows[op.id].terminalEvent.Some? && s.rows[op.id].terminalEvent.value in s.events
      && op.state != J.Running && (s.rows[op.id].terminalEvent.value.FailedEvent? <==> op.state == J.Failed)
    requires later == At(s.(journal := J.Apply(s.journal, op).1), w, pc) && PcOk(later, pc)
    ensures SysOk(later)
  {
    JournalGrows(s, op);
    assert OutputsOk(later) && RowsOk(later) by {
      forall id | id in s.rows && s.rows[id].terminalEvent.Some? ensures EventFits(later, id, s.rows[id].terminalEvent.value) {
        assert EventFits(s, id, s.rows[id].terminalEvent.value);
      }
    }
    OthersStay(s, later, w, pc);
  }

  /** Only the worker's position changes, or messages are settled. */
  lemma PositionStep(s: Sys, later: Sys, w: string, pc: Pc)
    requires SysOk(s) && later == s.(workers := s.workers[w := pc], dead := later.dead, acked := later.acked)
    requires s.dead <= later.dead && PcOk(later, pc)
    requires forall m :: m in later.dead && m !in s.dead ==> m in s.bodies && s.bodies[m].Garbage?
    requires forall m :: m in later.acked && m !in s.acked ==> Settled(later, m)
    ensures SysOk(later)
  {
    StoredStays(s, later);
    OthersStay(s, later, w, pc);
  }

  lemma LoadGrows(rows: Rows, job: Job, promptVersion: string, modelProfile: Option<string>)
    ensures var (replay, later) := LoadTx(rows, job, promptVersion, modelProfile);
      && Preserves(rows, later)
      && (replay.Some? ==> job.jobId in later && later[job.jobId] == replay.value)
      && (forall id :: id in later && id !in rows ==> later[id].terminalEvent.None?)
      && (forall id :: id in rows ==> later[id] == rows[id])
  {
  }

  lemma {:induction false} LoadKeeps(s: Sys, step: Step)
    requires SysOk(s) && step.Load?
    ensures SysOk(Next(s, step))
  {
    var pc := PcOf(s, step.w);
    if pc.Loading? && HasJob(s, pc.m) {
      var later := Next(s, step);
      LoadGrows(s.rows, JobOf(s, pc.m), step.promptVersion, step.modelProfile);
      if later.workers[step.w].Publishing? {
        var id := JobOf(s, pc.m).jobId;
        assert id in s.rows && EventFits(s, id, s.rows[id].terminalEvent.value);
      }
      if step.fate == Lost {
        PositionStep(s, later, step.w, later.workers[step.w]);
      } else {
        StoredStays(s, later);
        OthersStay(s, later, step.w, later.workers[step.w]);
      }
    }
  }

  /** A save of a justified field, whatever its fate. */
  lemma SaveStep(s: Sys, later: Sys, w: string, m: string, field: Field, pc: Pc)
    requires SysOk(s) && HasJob(s, m)
    requires field.TerminalEvent? ==> EventFits(s, JobOf(s, m).jobId, field.event)
    requires later == At(s.(rows := SaveTx(s.rows, JobOf(s, m), field).1), w, pc)
    requires PcOk(later, pc)
    ensures SysOk(later)
  {
    var job := JobOf(s, m);
    SavedIsFinal(s.rows, job, field);
    assert Grows(s, later);
    if field.TerminalEvent? { FitStays(s, later, job.jobId, field.event); }
    StoredStays(s, later);
    OthersStay(s, later, w, pc);
  }

  lemma {:induction false} SaveResultKeeps(s: Sys, step: Step)
    requires SysOk(s) && step.SaveResult?
    ensures SysOk(Next(s, step))
  {
    var pc := PcOf(s, step.w);
    if pc.SavingResult? && HasJob(s, pc.m) {
      var later := Next(s, step);
      SavedIsFinal(s.rows, JobOf(s, pc.m), Result(pc.output));
      if step.fate == Lost {
        PositionStep(s, later, step.w, later.workers[step.w]);
      } else {
        SaveStep(s, later, step.w, pc.m, Result(pc.output), later.workers[step.w]);
      }
    }
  }

  lemma {:induction false} SaveEventKeeps(s: Sys, step: Step)
    requires SysOk(s) && step.SaveEvent?
    ensures SysOk(Next(s, step))
  {
    var pc := PcOf(s, step.w);
    if pc.SavingEvent? && HasJob(s, pc.m) {
      assert PcOk(s, pc);
      var later := Next(s, step);
      SavedIsFinal(s.rows, JobOf(s, pc.m), TerminalEvent(pc.event));
      if step.fate == Lost {
        PositionStep(s, later, step.w, later.workers[step.w]);
      } else {
        if s.rows[JobOf(s, pc.m).jobId].terminalEvent.Some? {
          assert EventFits(s, JobOf(s, pc.m).jobId, s.rows[JobOf(s, pc.m).jobId].terminalEvent.value);
        }
        SaveStep(s, later, step.w, pc.m, TerminalEvent(pc.event), later.workers[step.w]);
      }
    }
  }

  lemma SubmissionGrows(s: Sys, jobId: string, candidate: string, ref: string)
    requires RowsOk(s) && OutputsOk(s) && JournalOk(s)
    requires jobId in s.rows && s.rows[jobId].result == Some(Candidate(candidate))
    ensures var later := Submitted(s, jobId, candidate, ref);
      && Grows(s, later) && RowsOk(later) && OutputsOk(later) && JournalOk(later)
      && (jobId, candidate) in later.submitted
  {
    var later := Submitted(s, jobId, candidate, ref);
    assert later.submitted[|s.submitted|] == (jobId, candidate);
    forall id | id in later.rows && later.rows[id].terminalEvent.Some? ensures EventFits(later, id, later.rows[id].terminalEvent.value) {
      FitStays(s, later, id, s.rows[id].terminalEvent.value);
    }
  }

  /** The candidate reached the store; the worker goes on with an event, or gives up. */
  lemma SubmittedStep(s: Sys, later: Sys, w: string, m: string, candidate: string, ref: string, pc: Pc)
    requires SysOk(s) && HasJob(s, m)
    requires JobOf(s, m).jobId in s.rows && s.rows[JobOf(s, m).jobId].result == Some(Candidate(candidate))
    requires later == At(Submitted(s, JobOf(s, m).jobId, candidate, ref), w, pc)
    requires pc.Abandoning? || (pc.SavingEvent? && pc.m == m && EventFits(Submitted(s, JobOf(s, m).jobId, candidate, ref), JobOf(s, m).jobId, pc.event))
    ensures SysOk(later)
  {
    SubmissionGrows(s, JobOf(s, m).jobId, candidate, ref);
    var stored := Submitted(s, JobOf(s, m).jobId, candidate, ref);
    StoredStays(stored, later);
    OthersStay(s, later, w, pc);
  }

  lemma {:induction false} SubmitKeeps(s: Sys, step: Step)
    requires SysOk(s) && step.Submit?
    ensures SysOk(Next(s, step))
  {
    var pc := PcOf(s, step.w);
    if pc.Submitting? && HasJob(s, pc.m) {
      assert PcOk(s, pc);
      var later := Next(s, step);
      var jobId := JobOf(s, pc.m).jobId;
      match pc.output
      case Skip(_) => PositionStep(s, later, step.w, later.workers[step.w]);
      case Candidate(candidate) =>
        SubmissionGrows(s, jobId, candidate, step.ref);
        if step.how.Accepted? || step.how.effect {
          SubmittedStep(s, later, step.w, pc.m, candidate, step.ref, later.workers[step.w]);
        } else {
          PositionStep(s, later, step.w, later.workers[step.w]);
        }
    }
  }

  lemma PublishKeeps(s: Sys, step: Step)
    requires SysOk(s) && step.Publish?
    ensures SysOk(Next(s, step))
  {
    var pc := PcOf(s, step.w);
    if pc.Publishing? {
      assert PcOk(s, pc);
      var later := Next(s, step);
      if step.fate == Lost {
        PositionStep(s, later, step.w, later.workers[step.w]);
      } else {
        assert later.events[|s.events|] == pc.event;
        assert Grows(s, later);
        assert RowsOk(later) by {
          forall id | id in later.rows && later.rows[id].terminalEvent.Some? ensures EventFits(later, id, later.rows[id].terminalEvent.value) {
            FitStays(s, later, id, s.rows[id].terminalEvent.value);
          }
        }
        forall id | J.Finished(later.journal, id) ensures later.rows[id].terminalEvent.value in later.events {
          var i :| 0 <= i < |s.events| && s.events[i] == s.rows[id].terminalEvent.value;
          assert later.events[i] == s.events[i];
        }
        OthersStay(s, later, step.w, later.workers[step.w]);
      }
    }
  }

  lemma ClaimKeeps(s: Sys, step: Step)
    requires SysOk(s) && step.Claim?
    ensures SysOk(Next(s, step))
  {
    var pc := PcOf(s, step.w);
    if pc.Claiming? && HasJob(s, pc.m) {
      var later := Next(s, step);
      JournalStep(s, later, step.w, later.workers[step.w], J.ClaimOp(JobOf(s, pc.m).jobId, step.w, step.now, step.lease));
    }
  }

  lemma {:induction false} FinishKeeps(s: Sys, step: Step)
    requires SysOk(s) && step.Finish?
    ensures SysOk(Next(s, step))
  {
    var pc := PcOf(s, step.w);
    if pc.Finishing? && HasJob(s, pc.m) {
      assert PcOk(s, pc);
      var later := Next(s, step);
      if step.fate == Lost {
        PositionStep(s, later, step.w, later.workers[step.w]);
      } else {
        JournalStep(s, later, step.w, later.workers[step.w],
                    J.FinishOp(JobOf(s, pc.m).jobId, step.w, if pc.event.FailedEvent? then J.Failed else J.Completed));
      }
    }
  }

  lemma AbandonKeeps(s: Sys, step: Step)
    requires SysOk(s) && step.Abandon?
    ensures SysOk(Next(s, step))
  {
    var pc := PcOf(s, step.w);
    if pc.Abandoning? && HasJob(s, pc.m) {
      var later := Next(s, step);
      if step.fate == Lost {
        PositionStep(s, later, step.w, Idle);
      } else {
        JournalStep(s, later, step.w, Idle, J.AbandonOp(JobOf(s, pc.m).jobId, step.w));
      }
    }
  }

  lemma {:induction false} DeadStepsKeep(s: Sys, step: Step)
    requires SysOk(s) && (step.Read? || step.DeadLetter? || step.DeadAck?)
    ensures SysOk(Next(s, step))
  {
    var later := Next(s, step);
    if later != s {
      assert PcOk(s, PcOf(s, step.w));
      PositionStep(s, later, step.w, later.workers[step.w]);
    }
  }

  lemma {:induction false} PlainStepsKeep(s: Sys, step: Step)
    requires SysOk(s) && (step.Distill? || step.Ack? || step.Crash?)
    ensures SysOk(Next(s, step))
  {
    var later := Next(s, step);
    if later != s {
      assert PcOk(s, PcOf(s, step.w));
      PositionStep(s, later, step.w, later.workers[step.w]);
    }
  }

  lemma {:induction false} StepKeeps(s: Sys, step: Step)
    requires SysOk(s)
    ensures SysOk(Next(s, step))
  {
    match step
    case Load(_, _, _, _) => LoadKeeps(s, step);
    case SaveResult(_, _) => SaveResultKeeps(s, step);
    case SaveEvent(_, _) => SaveEventKeeps(s, step);
    case Submit(_, _, _, _) => SubmitKeeps(s, step);
    case Publish(_, _) => PublishKeeps(s, step);
    case Claim(_, _, _) => ClaimKeeps(s, step);
    case Finish(_, _) => FinishKeeps(s, step);
    case Abandon(_, _) => AbandonKeeps(s, step);
    case Read(_, _) => DeadStepsKeep(s, step);
    case DeadLetter(_, _) => DeadStepsKeep(s, step);
    case DeadAck(_, _) => DeadStepsKeep(s, step);
    case _ => PlainStepsKeep(s, step);
  }

  lemma BodiesStay(s: Sys, step: Step)
    ensures Next(s, step).bodies == s.bodies
  {
  }

  lemma {:induction false} RunKeeps(bodies: map<string, Body>, steps: seq<Step>)
    ensures SysOk(Run(Start(bodies), steps)) && Run(Start(bodies), steps).bodies == bodies
  {
    if steps != [] {
      RunKeeps(bodies, steps[..|steps| - 1]);
      StepKeeps(Run(Start(bodies), steps[..|steps| - 1]), steps[|steps| - 1]);
      BodiesStay(Run(Start(bodies), steps[..|steps| - 1]), steps[|steps| - 1]);
    }
  }

  // ------------------------------------------------------------------ main results

  /**
   Recovery of memory jobs, over any number of workers, crashes, expired leases and redeliveries:
   all events published for one job are the same event, every submitted candidate is the one in
   the durable result row, and a completed event carries that result together with the reference
   the candidate store returned for it.
   */
  lemma JobsRecoverConsistently(bodies: map<string, Body>, steps: seq<Step>)
    ensures var s := Run(Start(bodies), steps);
      && (forall i, j :: 0 <= i < |s.events| && 0 <= j < |s.events| && s.events[i].jobId == s.events[j].jobId ==> s.events[i] == s.events[j])
      && (forall i :: 0 <= i < |s.submitted| ==>
            s.submitted[i].0 in s.rows && s.rows[s.submitted[i].0].result == Some(Candidate(s.submitted[i].1)))
      && (forall i :: 0 <= i < |s.events| ==> EventFits(s, s.events[i].jobId, s.events[i]))
  {
    RunKeeps(bodies, steps);
    var s := Run(Start(bodies), steps);
    forall i | 0 <= i < |s.events| ensures EventFits(s, s.events[i].jobId, s.events[i]) && Stored(s, s.events[i].jobId, s.events[i]) {
      assert Stored(s, s.events[i].jobId, s.events[i]);
    }
  }

  lemma NextSubmits(s: Sys, step: Step)
    requires PcOk(s, PcOf(s, step.w))
    ensures var later := Next(s, step);
      && s.submitted <= later.submitted && |later.submitted| <= |s.submitted| + 1
      && (|later.submitted| > |s.submitted| ==>
            var (jobId, candidate) := later.submitted[|s.submitted|];
            jobId in s.rows && s.rows[jobId].result == Some(Candidate(candidate)))
  {
  }

  /**
   A candidate reaches the store only after the result row that holds it was saved: in the state
   before any submitting step the row is already there.
   */
  lemma {:induction false} SubmitsOnlySavedResults(bodies: map<string, Body>, steps: seq<Step>, step: Step)
    ensures var s := Run(Start(bodies), steps);
      var later := Next(s, step);
      && s.submitted <= later.submitted && |later.submitted| <= |s.submitted| + 1
      && (|later.submitted| > |s.submitted| ==>
            var (jobId, candidate) := later.submitted[|s.submitted|];
            jobId in s.rows && s.rows[jobId].result == Some(Candidate(candidate)))
  {
    RunKeeps(bodies, steps);
    NextSubmits(Run(Start(bodies), steps), step);
  }

  /**
   A job message is acknowledged only once it is dead-lettered, which happens to unreadable
   bodies only, or its job is finished; a finished job's event is published, and is FAILED
   exactly if the journal says so.
   */
  lemma AcknowledgesLast(bodies: map<string, Body>, steps: seq<Step>, m: string)
    requires m in Run(Start(bodies), steps).acked
    ensures var s := Run(Start(bodies), steps);
      && m in bodies
      && (bodies[m].Garbage? ==> m in s.dead)
      && (bodies[m].JobBody? ==>
            var id := bodies[m].job.jobId;
            && J.Finished(s.journal, id)
            && id in s.rows && s.rows[id].terminalEvent.Some? && s.rows[id].terminalEvent.value in s.events
            && (s.rows[id].terminalEvent.value.FailedEvent? <==> s.journal[id].state == J.Failed))
  {
    RunKeeps(bodies, steps);
    assert Settled(Run(Start(bodies), steps), m);
  }

  // ------------------------------------------------------------------ recovery completes

  function Preparation(w: string, m: string, now: int, lease: nat, promptVersion: string, modelProfile: Option<string>): seq<Step> {
    [Read(w, m), Claim(w, now, lease), Load(w, promptVersion, modelProfile, Delivered)]
  }

  function Distillation(w: string, output: Option<Output>, at: int): seq<Step> {
    [Distill(w, output, "model error", at), SaveResult(w, Delivered)]
  }

  function Submission(w: string, ref: string, at: int): seq<Step> { [Submit(w, ref, at, Accepted)] }

  function Settlement(w: string): seq<Step> {
    [SaveEvent(w, Delivered), Publish(w, Delivered), Finish(w, Delivered), Ack(w, Delivered)]
  }

  /** One delivery without faults: every await succeeds; steps that do not fit the worker's position do nothing. */
  function Delivery(w: string, m: string, now: int, lease: nat, promptVersion: string, modelProfile: Option<string>,
                    output: Option<Output>, ref: string, at: int): seq<Step> {
    Preparation(w, m, now, lease, promptVersion, modelProfile) + Distillation(w, output, at) + Submission(w, ref, at) + Settlement(w)
  }

  lemma RunConcat(s: Sys, steps: seq<Step>, more: seq<Step>)
    ensures Run(s, steps + more) == Run(Run(s, steps), more)
    decreases |more|
  {
    if more == [] {
      assert steps + more == steps;
    } else {
      var init := more[..|more| - 1];
      assert (steps + more)[..|steps + more| - 1] == steps + init;
      RunConcat(s, steps, init);
    }
  }

  lemma RunOne(s: Sys, a: Step)
    ensures Run(s, [a]) == Next(s, a)
  {
    assert [a][..0] == [];
  }

  lemma RunTwo(s: Sys, a: Step, b: Step)
    ensures Run(s, [a, b]) == Next(Next(s, a), b)
  {
    RunOne(s, a);
    assert [a, b][..1] == [a];
  }

  lemma RunThree(s: Sys, a: Step, b: Step, c: Step)
    ensures Run(s, [a, b, c]) == Next(Next(Next(s, a), b), c)
  {
    RunTwo(s, a, b);
    assert [a, b, c][..2] == [a, b];
  }

  lemma RunFour(s: Sys, a: Step, b: Step, c: Step, d: Step)
    ensures Run(s, [a, b, c, d]) == Next(Next(Next(Next(s, a), b), c), d)
  {
    RunThree(s, a, b, c);
    assert [a, b, c, d][..3] == [a, b, c];
  }

  lemma PublishingSettles(s: Sys, w: string, m: string)
    requires HasJob(s, m) && PcOf(s, w).Publishing? && PcOf(s, w).m == m && J.Holds(s.journal, JobOf(s, m).jobId, w)
    ensures m in Next(Next(Next(s, Publish(w, Delivered)), Finish(w, Delivered)), Ack(w, Delivered)).acked
  {
    var published := Next(s, Publish(w, Delivered));
    assert PcOf(published, w) == Finishing(m, PcOf(s, w).event) && published.journal == s.journal && published.bodies == s.bodies;
    var finished := Next(published, Finish(w, Delivered));
    assert PcOf(finished, w) == Acking(m);
  }

  /** From a position where only the event is left to be stored or published. */
  lemma SettlementSettles(s: Sys, w: string, m: string)
    requires HasJob(s, m) && (PcOf(s, w).SavingEvent? || PcOf(s, w).Publishing?) && PcOf(s, w).m == m
    requires Decode(s.rows, JobOf(s, m)).Some? && J.Holds(s.journal, JobOf(s, m).jobId, w)
    ensures m in Run(s, Settlement(w)).acked
  {
    RunFour(s, SaveEvent(w, Delivered), Publish(w, Delivered), Finish(w, Delivered), Ack(w, Delivered));
    var saved := Next(s, SaveEvent(w, Delivered));
    assert PcOf(saved, w).Publishing? && PcOf(saved, w).m == m && saved.journal == s.journal && saved.bodies == s.bodies;
    PublishingSettles(saved, w, m);
  }

  /** Positions a loaded job goes through on its way to its terminal event. */
  predicate OnItsWay(s: Sys, w: string, m: string) {
    && HasJob(s, m) && J.Holds(s.journal, JobOf(s, m).jobId, w) && Decode(s.rows, JobOf(s, m)).Some?
    && (PcOf(s, w).Distilling? || PcOf(s, w).Submitting? || PcOf(s, w).SavingEvent? || PcOf(s, w).Publishing?) && PcOf(s, w).m == m
  }

  lemma DistillationGoesOn(s: Sys, w: string, m: string, output: Option<Output>, at: int)
    requires OnItsWay(s, w, m)
    ensures OnItsWay(Run(s, Distillation(w, output, at)), w, m) && !PcOf(Run(s, Distillation(w, output, at)), w).Distilling?
  {
    RunTwo(s, Distill(w, output, "model error", at), SaveResult(w, Delivered));
    var distilled := Next(s, Distill(w, output, "model error", at));
    if PcOf(s, w).Distilling? {
      assert distilled.rows == s.rows && distilled.journal == s.journal && distilled.bodies == s.bodies && PcOf(distilled, w).m == m;
    } else {
      assert distilled == s;
    }
  }

  lemma SubmissionGoesOn(s: Sys, w: string, m: string, ref: string, at: int)
    requires OnItsWay(s, w, m) && !PcOf(s, w).Distilling?
    ensures var later := Run(s, Submission(w, ref, at));
      OnItsWay(later, w, m) && (PcOf(later, w).SavingEvent? || PcOf(later, w).Publishing?)
  {
    RunOne(s, Submit(w, ref, at, Accepted));
  }

  lemma ClaimedToLoad(s: Sys, w: string, m: string, now: int, lease: nat)
    requires HasJob(s, m) && PcOf(s, w).Idle?
    requires J.Apply(s.journal, J.ClaimOp(JobOf(s, m).jobId, w, now, lease)).0 == J.ClaimAnswer(J.Claimed)
    ensures var claimed := Next(Next(s, Read(w, m)), Claim(w, now, lease));
      && PcOf(claimed, w) == Loading(m) && claimed.rows == s.rows && claimed.bodies == s.bodies && claimed.acked == s.acked
      && claimed.journal == J.Apply(s.journal, J.ClaimOp(JobOf(s, m).jobId, w, now, lease)).1
  {
    var read := Next(s, Read(w, m));
    assert PcOf(read, w) == Claiming(m) && read.journal == s.journal;
  }

  /** What _load requires of a row that is there: this input, and this prompt and model until something is written. */
  predicate Loadable(rows: Rows, job: Job, promptVersion: string, modelProfile: Option<string>) {
    job.jobId in rows ==>
      && rows[job.jobId].inputHash == job.content
      && (|| rows[job.jobId].result.Some? || rows[job.jobId].terminalEvent.Some?
          || (rows[job.jobId].promptVersion == promptVersion && rows[job.jobId].modelProfile == modelProfile))
  }

  lemma LoadsExactly(rows: Rows, job: Job, promptVersion: string, modelProfile: Option<string>)
    ensures var (replay, later) := LoadTx(rows, job, promptVersion, modelProfile);
      && (replay.Some? <==> Loadable(rows, job, promptVersion, modelProfile))
      && (replay.Some? ==> Decode(later, job) == replay)
  {
  }

  lemma PreparationLoads(s: Sys, w: string, m: string, now: int, lease: nat, promptVersion: string, modelProfile: Option<string>)
    requires HasJob(s, m) && PcOf(s, w).Idle?
    requires J.Apply(s.journal, J.ClaimOp(JobOf(s, m).jobId, w, now, lease)).0 == J.ClaimAnswer(J.Claimed)
    ensures var loaded := Run(s, Preparation(w, m, now, lease, promptVersion, modelProfile));
      if Loadable(s.rows, JobOf(s, m), promptVersion, modelProfile) then OnItsWay(loaded, w, m)
      else PcOf(loaded, w).Abandoning? && loaded.acked == s.acked
  {
    RunThree(s, Read(w, m), Claim(w, now, lease), Load(w, promptVersion, modelProfile, Delivered));
    ClaimedToLoad(s, w, m, now, lease);
    LoadsExactly(s.rows, JobOf(s, m), promptVersion, modelProfile);
  }

  /** A worker that gives a job up does none of the further steps. */
  lemma AbandoningStays(s: Sys, w: string, output: Option<Output>, ref: string, at: int)
    requires PcOf(s, w).Abandoning?
    ensures Run(s, Distillation(w, output, at)) == s && Run(s, Submission(w, ref, at)) == s && Run(s, Settlement(w)) == s
  {
    RunTwo(s, Distill(w, output, "model error", at), SaveResult(w, Delivered));
    RunOne(s, Submit(w, ref, at, Accepted));
    AbandoningSkipsSettlement(s, w);
  }

  lemma AbandoningSkipsSettlement(s: Sys, w: string)
    requires PcOf(s, w).Abandoning?
    ensures Run(s, Settlement(w)) == s
  {
    RunFour(s, SaveEvent(w, Delivered), Publish(w, Delivered), Finish(w, Delivered), Ack(w, Delivered));
  }

  /** Of the two ways a loading ends, one settles the message and the other leaves it. */
  lemma LoadedSettles(loaded: Sys, w: string, m: string, output: Option<Output>, ref: string, at: int)
    requires OnItsWay(loaded, w, m)
    ensures m in Run(Run(Run(loaded, Distillation(w, output, at)), Submission(w, ref, at)), Settlement(w)).acked
  {
    DistillationGoesOn(loaded, w, m, output, at);
    var distilled := Run(loaded, Distillation(w, output, at));
    SubmissionGoesOn(distilled, w, m, ref, at);
    SettlementSettles(Run(distilled, Submission(w, ref, at)), w, m);
  }

  lemma {:induction false} DeliverySettlesExactly(s: Sys, w: string, m: string, now: int, lease: nat, promptVersion: string,
                                                  modelProfile: Option<string>, output: Option<Output>, ref: string, at: int)
    requires HasJob(s, m) && m !in s.acked && PcOf(s, w).Idle?
    requires J.Apply(s.journal, J.ClaimOp(JobOf(s, m).jobId, w, now, lease)).0 == J.ClaimAnswer(J.Claimed)
    ensures m in Run(s, Delivery(w, m, now, lease, promptVersion, modelProfile, output, ref, at)).acked
      <==> Loadable(s.rows, JobOf(s, m), promptVersion, modelProfile)
  {
    var prepare, distil, submit := Preparation(w, m, now, lease, promptVersion, modelProfile), Distillation(w, output, at), Submission(w, ref, at);
    RunConcat(s, prepare, distil);
    RunConcat(s, prepare + distil, submit);
    RunConcat(s, prepare + distil + submit, Settlement(w));
    PreparationLoads(s, w, m, now, lease, promptVersion, modelProfile);
    var loaded := Run(s, prepare);
    if Loadable(s.rows, JobOf(s, m), promptVersion, modelProfile) {
      LoadedSettles(loaded, w, m, output, ref, at);
    } else {
      AbandoningStays(loaded, w, output, ref, at);
    }
  }

  /**
   Recovery completes: from any reachable state, a worker that can claim the job finishes it in
   one delivery without faults and acknowledges the message, if and only if the row that earlier
   attempts left is loadable: of the same input, and of the same prompt and model unless a result
   or an event is already written.
   */
  lemma {:induction false} FaultFreeAttemptSettles(bodies: map<string, Body>, steps: seq<Step>, w: string, m: string, now: int, lease: nat,
                                promptVersion: string, modelProfile: Option<string>, output: Option<Output>, ref: string, at: int)
    requires var s := Run(Start(bodies), steps);
      && HasJob(s, m) && m !in s.acked && PcOf(s, w).Idle?
      && J.Apply(s.journal, J.ClaimOp(JobOf(s, m).jobId, w, now, lease)).0 == J.ClaimAnswer(J.Claimed)
    ensures var s := Run(Start(bodies), steps);
      m in Run(s, Delivery(w, m, now, lease, promptVersion, modelProfile, output, ref, at)).acked
      <==> Loadable(s.rows, JobOf(s, m), promptVersion, modelProfile)
  {
    DeliverySettlesExactly(Run(Start(bodies), steps), w, m, now, lease, promptVersion, modelProfile, output, ref, at);
  }

  /** A worker reads, claims and loads a job, and crashes. */
  function CrashedAfterLoad(job: Job, m: string, w: string, version: string, modelProfile: Option<string>, now: int, lease: nat): Sys {
    Next(Run(Start(map[m := JobBody(job)]), Preparation(w, m, now, lease, version, modelProfile)), Crash(w))
  }

  lemma CrashLeavesRow(job: Job, m: string, w: string, version: string, modelProfile: Option<string>, now: int, lease: nat)
    ensures var s := CrashedAfterLoad(job, m, w, version, modelProfile, now, lease);
      && s.acked == {} && HasJob(s, m) && JobOf(s, m) == job && PcOf(s, w).Idle?
      && s.journal == map[job.jobId := J.Row(J.Running, Some(w), Some(now + lease))]
      && s.rows == map[job.jobId := Row(job.content, version, modelProfile, None, None)]
  {
    var s := Start(map[m := JobBody(job)]);
    assert HasJob(s, m) && JobOf(s, m) == job;
    RunThree(s, Read(w, m), Claim(w, now, lease), Load(w, version, modelProfile, Delivered));
    ClaimedToLoad(s, w, m, now, lease);
    FirstLoadInserts(Next(Next(s, Read(w, m)), Claim(w, now, lease)), job, m, w, version, modelProfile);
  }

  lemma FirstLoadInserts(s: Sys, job: Job, m: string, w: string, version: string, modelProfile: Option<string>)
    requires HasJob(s, m) && JobOf(s, m) == job && PcOf(s, w) == Loading(m) && s.rows == map[]
    ensures var later := Next(Next(s, Load(w, version, modelProfile, Delivered)), Crash(w));
      && later.rows == map[job.jobId := Row(job.content, version, modelProfile, None, None)] && PcOf(later, w).Idle?
      && later.journal == s.journal && later.bodies == s.bodies && later.acked == s.acked
  {
  }

  lemma {:induction false} VersionDecides(s: Sys, job: Job, m: string, w: string, stored: string, version: string, modelProfile: Option<string>,
                                          now: int, lease: nat, output: Option<Output>, ref: string, at: int)
    requires s.acked == {} && HasJob(s, m) && JobOf(s, m) == job && PcOf(s, w).Idle?
    requires s.journal == map[job.jobId := J.Row(J.Running, Some(w), Some(now + lease))]
    requires s.rows == map[job.jobId := Row(job.content, stored, modelProfile, None, None)]
    ensures m in Run(s, Delivery(w, m, now + lease, lease, version, modelProfile, output, ref, at)).acked <==> version == stored
  {
    DeliverySettlesExactly(s, w, m, now + lease, lease, version, modelProfile, output, ref, at);
  }

  /**
   The leftover that is not loadable: a worker with one prompt version loaded the job and crashed
   before anything was written.  Deliveries under another version are abandoned, not acknowledged.
   */
  lemma {:induction false} VersionChangeStrandsJob(job: Job, m: string, w: string, first: string, second: string, modelProfile: Option<string>,
                                                   now: int, lease: nat, output: Option<Output>, ref: string, at: int)
    requires first != second
    ensures var s := CrashedAfterLoad(job, m, w, first, modelProfile, now, lease);
      && m !in Run(s, Delivery(w, m, now + lease, lease, second, modelProfile, output, ref, at)).acked
      && m in Run(s, Delivery(w, m, now + lease, lease, first, modelProfile, output, ref, at)).acked
  {
    var s := CrashedAfterLoad(job, m, w, first, modelProfile, now, lease);
    CrashLeavesRow(job, m, w, first, modelProfile, now, lease);
    VersionDecides(s, job, m, w, first, second, modelProfile, now, lease, output, ref, at);
    VersionDecides(s, job, m, w, first, first, modelProfile, now, lease, output, ref, at);
  }
}
