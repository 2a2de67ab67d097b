/**
 The worker that turns resolved cases into memory jobs
 (apps/agent_service/src/return_agent_service/memory_enqueue_worker.py) as a step machine: every
 await of run_once is one step, any number of workers interleave, messages are delivered any
 number of times, and a crash may come before or after any effect.  A raised exception ends
 run_once without a further effect, as a crash does.
 */
module MemoryEnqueue {
  import opened Common
  import opened Completion

  const JOB_PREFIX := "memory-v2:"

  datatype CompletionBody = MalformedCompletion | PaymentBody(event: Applied)

  /** An event that does not parse or is of another type; or a resolved event. */
  datatype EventBody = Unresolved | Resolved(caseRef: string, commandId: string, threadId: string, handoff: Resolution)

  datatype Pc =
    | Idle
    | Applying(m: string)
    | AckingCompletion(m: string)
    | Picking
    | PublishingJoined(job: Job)
    | Marking(job: Job)
    | Reading
    | Handling(m: string)
    | Correcting(m: string, job: Job)
    | PublishingDirect(m: string, job: Job)
    | AckingEvent(m: string)

  /**
   `joined` are the workers that have a completion store; `jobs` is the memory-job stream;
   `skipped` records the events whose checkpoint gave no input, or input of another case or outcome.
   */
  datatype Sys = Sys(payments: map<string, CompletionBody>, events: map<string, EventBody>, joined: set<string>, rows: Rows,
                     jobs: seq<Job>, ackedPayments: set<string>, ackedEvents: set<string>, skipped: set<string>,
                     workers: map<string, Pc>)

  /** `pick` is the row that next_job's ordering puts first; `input` and `now` are the checkpoint's and the clock's answers. */
  datatype Step =
    | ReadCompletion(w: string, m: Option<string>)
    | Apply(w: string)
    | AckCompletion(w: string)
    | Pick(w: string, pick: Option<string>)
    | PublishJoined(w: string)
    | MarkPublished(w: string)
    | ReadEvent(w: string, m: Option<string>)
    | Handle(w: string, input: Option<Input>, now: int)
    | Correct(w: string)
    | PublishDirect(w: string)
    | AckEvent(w: string)
    | Crash(w: string)

  /** A v2 full refund waits for its payment. */
  predicate NeedsPayment(input: Input) { input.v2 && input.finalResolution.fullRefund }

  predicate Mismatch(event: EventBody, input: Input)
    requires event.Resolved?
  {
    || input.caseRef != event.caseRef
    || input.finalResolution != event.handoff
    || (input.traceThread.Some? && input.traceThread.value != event.threadId)
  }

  function JobFor(event: EventBody, input: Input, now: int): Job
    requires event.Resolved?
  {
    Job(JOB_PREFIX + event.handoff.handoffId, event.commandId, event.caseRef, event.threadId, now, input)
  }

  function PcOf(s: Sys, w: string): Pc { if w in s.workers then s.workers[w] else Idle }

  function At(s: Sys, w: string, pc: Pc): Sys { s.(workers := s.workers[w := pc]) }

  /** From the read event to the effect it needs; a v2 full refund without a completion store raises. */
  function HandleStep(s: Sys, w: string, m: string, input: Option<Input>, now: int): Sys
    requires m in s.events
  {
    var event := s.events[m];
    if event.Unresolved? then At(s, w, AckingEvent(m))
    else if input.None? || Mismatch(event, input.value) then At(s.(skipped := s.skipped + {m}), w, AckingEvent(m))
    else if NeedsPayment(input.value) then
      At(s, w, if w in s.joined then Correcting(m, JobFor(event, input.value, now)) else Idle)
    else At(s, w, PublishingDirect(m, JobFor(event, input.value, now)))
  }

  /** run_once; a step that does not fit the worker's position does nothing. */
  function Next(s: Sys, step: Step): Sys {
    var w := step.w;
    var pc := PcOf(s, w);
    match step
    case ReadCompletion(_, m) =>
      if pc.Idle? && w in s.joined then
        if m.None? then At(s, w, Picking) else if m.value in s.payments then At(s, w, Applying(m.value)) else s
      else s
    case Apply(_) =>
      if pc.Applying? && pc.m in s.payments && s.payments[pc.m].PaymentBody? then
        var (ok, rows) := RecordTx(s.rows, AppliedHalf(s.payments[pc.m].event));
        At(s.(rows := rows), w, if ok then AckingCompletion(pc.m) else Idle)
      else if pc.Applying? then At(s, w, Idle) else s
    case AckCompletion(_) =>
      if pc.AckingCompletion? then At(s.(ackedPayments := s.ackedPayments + {pc.m}), w, Picking) else s
    case Pick(_, pick) =>
      if !pc.Picking? then s
      else if pick.Some? && Ready(s.rows, pick.value) then At(s, w, PublishingJoined(s.rows[pick.value].correction.value))
      else if pick.None? then At(s, w, Reading) else s
    case PublishJoined(_) =>
      if pc.PublishingJoined? then At(s.(jobs := s.jobs + [pc.job]), w, Marking(pc.job)) else s
    case MarkPublished(_) =>
      if pc.Marking? then At(s.(rows := MarkTx(s.rows, pc.job.input.finalResolution.handoffId)), w, Idle) else s
    case ReadEvent(_, m) =>
      if pc.Reading? || (pc.Idle? && w !in s.joined) then
        if m.None? then At(s, w, Idle) else if m.value in s.events then At(s, w, Handling(m.value)) else s
      else s
    case Handle(_, input, now) =>
      if pc.Handling? && pc.m in s.events then HandleStep(s, w, pc.m, input, now) else s
    case Correct(_) =>
      if pc.Correcting? then
        var (ok, rows) := RecordTx(s.rows, CorrectionHalf(pc.job));
        At(s.(rows := rows), w, if ok then AckingEvent(pc.m) else Idle)
      else s
    case PublishDirect(_) =>
      if pc.PublishingDirect? then At(s.(jobs := s.jobs + [pc.job]), w, AckingEvent(pc.m)) else s
    case AckEvent(_) =>
      if pc.AckingEvent? then At(s.(ackedEvents := s.ackedEvents + {pc.m}), w, Idle) else s
    case Crash(_) => At(s, w, Idle)
  }

  function RunSteps(s: Sys, steps: seq<Step>): Sys {
    if steps == [] then s else Next(RunSteps(s, steps[..|steps| - 1]), steps[|steps| - 1])
  }

  function Start(payments: map<string, CompletionBody>, events: map<string, EventBody>, joined: set<string>): Sys {
    Sys(payments, events, joined, map[], [], {}, {}, {}, map[])
  }

  // ------------------------------------------------------------------ the invariant

  /** The job is the correction half of a row whose payment half is there. */
  predicate PaidFor(rows: Rows, job: Job) {
    var ref := job.input.finalResolution.handoffId;
    ref in rows && rows[ref].correction == Some(job) && rows[ref].applied.Some?
  }

  predicate RowOfJob(ref: string, row: Row) {
    row.correction.Some? ==> row.correction.value.jobId == JOB_PREFIX + ref && NeedsPayment(row.correction.value.input)
  }

  predicate CorrectionsOk(rows: Rows) {
    forall ref :: ref in rows ==> RowOfJob(ref, rows[ref])
  }

  predicate JobOk(rows: Rows, job: Job) { NeedsPayment(job.input) ==> PaidFor(rows, job) }

  predicate JobsOk(s: Sys) {
    forall i :: 0 <= i < |s.jobs| ==> JobOk(s.rows, s.jobs[i])
  }

  predicate Announced(s: Sys, ref: string)
    requires ref in s.rows
  {
    s.rows[ref].published ==> s.rows[ref].correction.Some? && s.rows[ref].correction.value in s.jobs
  }

  predicate MarksOk(s: Sys) {
    forall ref :: ref in s.rows ==> Announced(s, ref)
  }

  /** The event was turned into the job, apart from the time of issue. */
  predicate JobOfEvent(event: EventBody, job: Job) {
    event.Resolved? && !Mismatch(event, job.input) && job == JobFor(event, job.input, job.issuedAt)
  }

  predicate Corrected(s: Sys, event: EventBody) {
    && event.Resolved?
    && event.handoff.handoffId in s.rows
    && var row := s.rows[event.handoff.handoffId];
    row.correction.Some? && JobOfEvent(event, row.correction.value)
  }

  predicate Sent(s: Sys, event: EventBody) {
    exists i :: 0 <= i < |s.jobs| && JobOfEvent(event, s.jobs[i])
  }

  /** What an acknowledged agent event left behind. */
  predicate Handed(s: Sys, m: string) {
    m in s.events && (s.events[m].Unresolved? || m in s.skipped || Corrected(s, s.events[m]) || Sent(s, s.events[m]))
  }

  /** What an acknowledged payment fact left behind. */
  predicate Booked(s: Sys, m: string) {
    && m in s.payments && s.payments[m].PaymentBody?
    && var event := s.payments[m].event;
    event.resolutionRef in s.rows && s.rows[event.resolutionRef].applied == Some(event)
  }

  predicate PcOk(s: Sys, pc: Pc) {
    match pc
    case AckingCompletion(m) => Booked(s, m)
    case PublishingJoined(job) => PaidFor(s.rows, job)
    case Marking(job) => PaidFor(s.rows, job) && job in s.jobs
    case Correcting(m, job) => m in s.events && JobOfEvent(s.events[m], job) && NeedsPayment(job.input)
    case PublishingDirect(m, job) => m in s.events && JobOfEvent(s.events[m], job) && !NeedsPayment(job.input)
    case AckingEvent(m) => Handed(s, m)
    case _ => true
  }

  predicate WorkersOk(s: Sys) {
    forall w :: w in s.workers ==> PcOk(s, s.workers[w])
  }

  predicate AcksOk(s: Sys) {
    && (forall m :: m in s.ackedPayments ==> Booked(s, m))
    && (forall m :: m in s.ackedEvents ==> Handed(s, m))
  }

  /** The payment fact is the body of a message. */
  predicate PaidBy(s: Sys, event: Applied) { exists m :: m in s.payments && s.payments[m] == PaymentBody(event) }

  /** The job was made for a resolved event. */
  predicate AskedBy(s: Sys, job: Job) { exists m :: m in s.events && JobOfEvent(s.events[m], job) }

  predicate HalfOrigin(s: Sys, half: Half) {
    match half
    case CorrectionHalf(job) => AskedBy(s, job)
    case AppliedHalf(event) => PaidBy(s, event)
  }

  /** Both halves of a row came out of messages. */
  predicate RowOrigin(s: Sys, row: Row) {
    && (row.correction.Some? ==> AskedBy(s, row.correction.value))
    && (row.applied.Some? ==> PaidBy(s, row.applied.value))
  }

  predicate OriginsOk(s: Sys) {
    forall ref :: ref in s.rows ==> RowOrigin(s, s.rows[ref])
  }

  predicate SysOk(s: Sys) {
    RowsOk(s.rows) && CorrectionsOk(s.rows) && JobsOk(s) && MarksOk(s) && WorkersOk(s) && AcksOk(s) && OriginsOk(s)
  }

  /** Nothing a predicate above relies on is ever taken back. */
  predicate Grows(s: Sys, later: Sys) {
    && later.payments == s.payments && later.events == s.events && later.joined == s.joined
    && Preserves(s.rows, later.rows)
    && s.jobs <= later.jobs
    && s.skipped <= later.skipped
  }

  lemma GrowsKeepsJobs(s: Sys, later: Sys, i: nat)
    requires Grows(s, later) && i < |s.jobs| && JobOk(s.rows, s.jobs[i])
    ensures JobOk(later.rows, later.jobs[i])
  {
    assert later.jobs[i] == s.jobs[i];
  }

  lemma GrowsKeepsHanded(s: Sys, later: Sys, m: string)
    requires Grows(s, later) && Handed(s, m)
    ensures Handed(later, m)
  {
    var event := s.events[m];
    if !event.Unresolved? && m !in s.skipped {
      if Corrected(s, event) {
        assert Corrected(later, event);
      } else {
        var i :| 0 <= i < |s.jobs| && JobOfEvent(event, s.jobs[i]);
        assert later.jobs[i] == s.jobs[i];
      }
    }
  }

  lemma GrowsKeepsPc(s: Sys, later: Sys, pc: Pc)
    requires Grows(s, later) && PcOk(s, pc)
    ensures PcOk(later, pc)
  {
    if pc.AckingEvent? { GrowsKeepsHanded(s, later, pc.m); }
  }

  lemma GrowsKeepsAcks(s: Sys, later: Sys)
    requires Grows(s, later) && AcksOk(s)
    requires later.ackedPayments == s.ackedPayments && later.ackedEvents == s.ackedEvents
    ensures AcksOk(later)
  {
    forall m | m in later.ackedEvents
      ensures Handed(later, m)
    {
      GrowsKeepsHanded(s, later, m);
    }
    forall m | m in later.ackedPayments
      ensures Booked(later, m)
    {
      assert Booked(s, m);
    }
  }

  lemma GrowsKeepsWorkers(s: Sys, later: Sys, w: string, pc: Pc)
    requires Grows(s, later) && WorkersOk(s)
    requires later.workers == s.workers[w := pc] && PcOk(later, pc)
    ensures WorkersOk(later)
  {
    forall v | v in later.workers
      ensures PcOk(later, later.workers[v])
    {
      if v != w { GrowsKeepsPc(s, later, s.workers[v]); }
    }
  }

  /** Halves are stored only as they are delivered. */
  lemma RecordKeepsOrigins(s: Sys, half: Half)
    requires OriginsOk(s) && HalfOrigin(s, half)
    ensures OriginsOk(s.(rows := RecordTx(s.rows, half).1))
  {
    var later := s.(rows := RecordTx(s.rows, half).1);
    forall ref | ref in later.rows
      ensures RowOrigin(later, later.rows[ref])
    {
      if ref in s.rows { assert RowOrigin(s, s.rows[ref]); }
    }
  }

  lemma OriginsStay(s: Sys, later: Sys)
    requires OriginsOk(s) && later.payments == s.payments && later.events == s.events
    requires later.rows.Keys == s.rows.Keys
    requires forall ref :: ref in s.rows ==> later.rows[ref].correction == s.rows[ref].correction && later.rows[ref].applied == s.rows[ref].applied
    ensures OriginsOk(later)
  {
    forall ref | ref in later.rows
      ensures RowOrigin(later, later.rows[ref])
    {
      assert RowOrigin(s, s.rows[ref]);
    }
  }

  /** A step that writes at most one half of a join. */
  lemma {:induction false} RecordKeepsSys(s: Sys, w: string, half: Half, pc: Pc)
    requires SysOk(s) && HalfOrigin(s, half)
    requires half.CorrectionHalf? ==> half.job.jobId == JOB_PREFIX + RefOf(half) && NeedsPayment(half.job.input)
    requires var later := At(s.(rows := RecordTx(s.rows, half).1), w, pc); PcOk(later, pc)
    ensures SysOk(At(s.(rows := RecordTx(s.rows, half).1), w, pc))
  {
    RecordKeepsRows(s.rows, half);
    var later := At(s.(rows := RecordTx(s.rows, half).1), w, pc);
    forall ref | ref in later.rows
      ensures RowOfJob(ref, later.rows[ref])
    {
      if ref in s.rows { assert RowOfJob(ref, s.rows[ref]); }
    }
    forall ref | ref in later.rows
      ensures Announced(later, ref)
    {
      if ref in s.rows { assert Announced(s, ref); }
    }
    forall i | 0 <= i < |later.jobs|
      ensures JobOk(later.rows, later.jobs[i])
    {
      GrowsKeepsJobs(s, later, i);
    }
    GrowsKeepsWorkers(s, later, w, pc);
    GrowsKeepsAcks(s, later);
    RecordKeepsOrigins(s, half);
    OriginsStay(s.(rows := RecordTx(s.rows, half).1), later);
  }

  /** A step that appends one job. */
  lemma PublishKeepsSys(s: Sys, w: string, job: Job, pc: Pc)
    requires SysOk(s) && JobOk(s.rows, job)
    requires PcOk(At(s.(jobs := s.jobs + [job]), w, pc), pc)
    ensures SysOk(At(s.(jobs := s.jobs + [job]), w, pc))
  {
    var later := At(s.(jobs := s.jobs + [job]), w, pc);
    forall i | 0 <= i < |later.jobs|
      ensures JobOk(later.rows, later.jobs[i])
    {
      if i < |s.jobs| { GrowsKeepsJobs(s, later, i); }
    }
    forall ref | ref in later.rows
      ensures Announced(later, ref)
    {
      if ref in s.rows { assert Announced(s, ref); }
    }
    GrowsKeepsWorkers(s, later, w, pc);
    GrowsKeepsAcks(s, later);
    OriginsStay(s, later);
  }

  lemma MarkKeepsSys(s: Sys, w: string, job: Job)
    requires SysOk(s) && PaidFor(s.rows, job) && job in s.jobs
    ensures SysOk(At(s.(rows := MarkTx(s.rows, job.input.finalResolution.handoffId)), w, Idle))
  {
    var later := At(s.(rows := MarkTx(s.rows, job.input.finalResolution.handoffId)), w, Idle);
    forall ref | ref in later.rows
      ensures RowOk(ref, later.rows[ref]) && RowOfJob(ref, later.rows[ref])
    {
      assert RowOk(ref, s.rows[ref]) && RowOfJob(ref, s.rows[ref]);
    }
    forall ref | ref in later.rows
      ensures Announced(later, ref)
    {
      if ref in s.rows { assert Announced(s, ref); }
    }
    forall i | 0 <= i < |later.jobs|
      ensures JobOk(later.rows, later.jobs[i])
    {
      GrowsKeepsJobs(s, later, i);
    }
    GrowsKeepsWorkers(s, later, w, Idle);
    GrowsKeepsAcks(s, later);
    OriginsStay(s, later);
  }

  /** A step that only moves a worker, skips an event or acknowledges a message. */
  lemma PlainKeepsSys(s: Sys, later: Sys, w: string, pc: Pc)
    requires SysOk(s) && later.workers == s.workers[w := pc] && later.rows == s.rows && later.jobs == s.jobs
    requires Grows(s, later) && PcOk(later, pc)
    requires later.ackedPayments == s.ackedPayments && later.ackedEvents == s.ackedEvents
    ensures SysOk(later)
  {
    assert MarksOk(later) by {
      forall ref | ref in later.rows
        ensures Announced(later, ref)
      {
        assert Announced(s, ref);
      }
    }
    GrowsKeepsWorkers(s, later, w, pc);
    GrowsKeepsAcks(s, later);
    OriginsStay(s, later);
  }

  lemma AckKeepsSys(s: Sys, later: Sys, w: string, pc: Pc)
    requires SysOk(s) && w in s.workers
    requires (s.workers[w].AckingCompletion? && pc == Picking && later == At(s.(ackedPayments := s.ackedPayments + {s.workers[w].m}), w, pc))
          || (s.workers[w].AckingEvent? && pc == Idle && later == At(s.(ackedEvents := s.ackedEvents + {s.workers[w].m}), w, pc))
    ensures SysOk(later)
  {
    assert PcOk(s, s.workers[w]);
    var same := later.(ackedPayments := s.ackedPayments, ackedEvents := s.ackedEvents);
    PlainKeepsSys(s, same, w, pc);
    OriginsStay(s, later);
    assert JobsOk(later) && WorkersOk(later) by {
      assert forall v :: v in later.workers ==> PcOk(same, later.workers[v]) ==> PcOk(later, later.workers[v]);
    }
    forall ref | ref in later.rows
      ensures Announced(later, ref)
    {
      if ref in s.rows { assert Announced(s, ref); }
    }
    forall m | m in later.ackedPayments
      ensures Booked(later, m)
    {
      assert Booked(s, m);
    }
    forall m | m in later.ackedEvents
      ensures Handed(later, m)
    {
      assert Handed(s, m);
      GrowsKeepsHanded(s, later, m);
    }
  }

  lemma {:induction false} CorrectKeepsSys(s: Sys, w: string)
    requires SysOk(s) && w in s.workers && s.workers[w].Correcting?
    ensures SysOk(Next(s, Correct(w)))
  {
    var pc := s.workers[w];
    assert PcOk(s, pc);
    var half := CorrectionHalf(pc.job);
    var (ok, rows) := RecordTx(s.rows, half);
    RecordKeepsRows(s.rows, half);
    var next := if ok then AckingEvent(pc.m) else Idle;
    var later := At(s.(rows := rows), w, next);
    if ok {
      var stored := rows[RefOf(half)].correction.value;
      assert Timeless(stored) == Timeless(pc.job);
      assert stored.input == pc.job.input && stored.(issuedAt := 0) == pc.job.(issuedAt := 0);
      assert JobOfEvent(s.events[pc.m], stored);
      assert Corrected(later, s.events[pc.m]);
    }
    RecordKeepsSys(s, w, half, next);
  }

  lemma {:induction false} ApplyKeepsSys(s: Sys, w: string)
    requires SysOk(s) && w in s.workers && s.workers[w].Applying?
    ensures SysOk(Next(s, Apply(w)))
  {
    var m := s.workers[w].m;
    if m in s.payments && s.payments[m].PaymentBody? {
      var half := AppliedHalf(s.payments[m].event);
      RecordKeepsRows(s.rows, half);
      RecordKeepsSys(s, w, half, if RecordTx(s.rows, half).0 then AckingCompletion(m) else Idle);
    } else {
      PlainKeepsSys(s, Next(s, Apply(w)), w, Idle);
    }
  }

  lemma HandleKeepsSys(s: Sys, w: string, input: Option<Input>, now: int)
    requires SysOk(s) && w in s.workers && s.workers[w].Handling? && s.workers[w].m in s.events
    ensures SysOk(HandleStep(s, w, s.workers[w].m, input, now))
  {
    var m := s.workers[w].m;
    var later := HandleStep(s, w, m, input, now);
    var pc := later.workers[w];
    assert PcOk(later, pc) by {
      if pc.AckingEvent? { assert s.events[m].Unresolved? || m in later.skipped; }
    }
    PlainKeepsSys(s, later, w, pc);
  }

  /** The steps that only move a worker. */
  lemma {:induction false} MoveKeepsSys(s: Sys, step: Step)
    requires SysOk(s) && (step.ReadCompletion? || step.Pick? || step.ReadEvent? || step.Crash?)
    ensures SysOk(Next(s, step))
  {
    var later := Next(s, step);
    if later != s {
      if step.Pick? { PickFits(s, step.w, step.pick); }
      PlainKeepsSys(s, later, step.w, later.workers[step.w]);
    }
  }

  lemma PickFits(s: Sys, w: string, pick: Option<string>)
    requires RowsOk(s.rows) && Next(s, Pick(w, pick)) != s
    ensures w in Next(s, Pick(w, pick)).workers && PcOk(Next(s, Pick(w, pick)), Next(s, Pick(w, pick)).workers[w])
  {
    if pick.Some? { assert RowOk(pick.value, s.rows[pick.value]); }
  }

  lemma SendKeepsSys(s: Sys, w: string)
    requires SysOk(s) && w in s.workers && (s.workers[w].PublishingJoined? || s.workers[w].PublishingDirect?)
    ensures SysOk(Next(s, if s.workers[w].PublishingJoined? then PublishJoined(w) else PublishDirect(w)))
  {
    var pc := s.workers[w];
    assert PcOk(s, pc);
    var sent := s.jobs + [pc.job];
    assert sent[|s.jobs|] == pc.job;
    PublishKeepsSys(s, w, pc.job, if pc.PublishingJoined? then Marking(pc.job) else AckingEvent(pc.m));
  }

  lemma NextKeepsSys(s: Sys, step: Step)
    requires SysOk(s)
    ensures SysOk(Next(s, step))
  {
    var w := step.w;
    if step.ReadCompletion? || step.Pick? || step.ReadEvent? || step.Crash? {
      MoveKeepsSys(s, step);
    } else if Next(s, step) != s {
      var pc := s.workers[w];
      match step {
        case Apply(_) => ApplyKeepsSys(s, w);
        case Correct(_) => CorrectKeepsSys(s, w);
        case Handle(_, input, now) => HandleKeepsSys(s, w, input, now);
        case PublishJoined(_) => SendKeepsSys(s, w);
        case PublishDirect(_) => SendKeepsSys(s, w);
        case MarkPublished(_) =>
          assert PcOk(s, pc);
          MarkKeepsSys(s, w, pc.job);
        case AckCompletion(_) => AckKeepsSys(s, Next(s, step), w, Picking);
        case AckEvent(_) => AckKeepsSys(s, Next(s, step), w, Idle);
      }
    }
  }

  lemma {:induction false} RunKeepsSys(s: Sys, steps: seq<Step>)
    requires SysOk(s)
    ensures SysOk(RunSteps(s, steps))
  {
    if steps != [] {
      RunKeepsSys(s, steps[..|steps| - 1]);
      NextKeepsSys(RunSteps(s, steps[..|steps| - 1]), steps[|steps| - 1]);
    }
  }

  lemma {:induction false} BodiesStay(payments: map<string, CompletionBody>, events: map<string, EventBody>, joined: set<string>, steps: seq<Step>)
    ensures var s := RunSteps(Start(payments, events, joined), steps); s.payments == payments && s.events == events
  {
    if steps != [] { BodiesStay(payments, events, joined, steps[..|steps| - 1]); }
  }

  // ------------------------------------------------------------------ main results

  /**
   No v2 full-refund job is published without an APPLIED fact of the same case, resolution and
   hash, which a payment message delivered.
   */
  lemma NoJobBeforePayment(payments: map<string, CompletionBody>, events: map<string, EventBody>, joined: set<string>, steps: seq<Step>)
    ensures var s := RunSteps(Start(payments, events, joined), steps);
      forall i :: 0 <= i < |s.jobs| && NeedsPayment(s.jobs[i].input) ==>
        var job := s.jobs[i];
        var ref := job.input.finalResolution.handoffId;
        && job.jobId == JOB_PREFIX + ref
        && exists m :: m in payments && payments[m].PaymentBody? && Pair(job, payments[m].event)
  {
    RunKeepsSys(Start(payments, events, joined), steps);
    var s := RunSteps(Start(payments, events, joined), steps);
    forall i | 0 <= i < |s.jobs| && NeedsPayment(s.jobs[i].input)
      ensures var job := s.jobs[i];
        var ref := job.input.finalResolution.handoffId;
        && job.jobId == JOB_PREFIX + ref
        && exists m :: m in payments && payments[m].PaymentBody? && Pair(job, payments[m].event)
    {
      var ref := s.jobs[i].input.finalResolution.handoffId;
      assert JobOk(s.rows, s.jobs[i]);
      assert RowOk(ref, s.rows[ref]) && RowOfJob(ref, s.rows[ref]) && RowOrigin(s, s.rows[ref]);
      var m :| m in s.payments && s.payments[m] == PaymentBody(s.rows[ref].applied.value);
      BodiesStay(payments, events, joined, steps);
    }
  }

  /** However often the job of a refunded resolution is published, it is the same job, time of issue included. */
  lemma OneJobPerResolution(payments: map<string, CompletionBody>, events: map<string, EventBody>, joined: set<string>, steps: seq<Step>,
                            i: nat, k: nat)
    requires var jobs := RunSteps(Start(payments, events, joined), steps).jobs;
      && i < |jobs| && k < |jobs| && NeedsPayment(jobs[i].input) && NeedsPayment(jobs[k].input)
      && jobs[i].input.finalResolution.handoffId == jobs[k].input.finalResolution.handoffId
    ensures var jobs := RunSteps(Start(payments, events, joined), steps).jobs; jobs[i] == jobs[k]
  {
    RunKeepsSys(Start(payments, events, joined), steps);
    var s := RunSteps(Start(payments, events, joined), steps);
    assert JobOk(s.rows, s.jobs[i]) && JobOk(s.rows, s.jobs[k]);
  }

  /** A joined row is never lost: until its job is in the stream, next_job still offers it. */
  lemma JoinedRowIsSentOrOffered(payments: map<string, CompletionBody>, events: map<string, EventBody>, joined: set<string>,
                                 steps: seq<Step>, ref: string)
    requires var s := RunSteps(Start(payments, events, joined), steps);
      ref in s.rows && s.rows[ref].correction.Some? && s.rows[ref].applied.Some?
    ensures var s := RunSteps(Start(payments, events, joined), steps);
      Ready(s.rows, ref) || s.rows[ref].correction.value in s.jobs
  {
    RunKeepsSys(Start(payments, events, joined), steps);
    assert Announced(RunSteps(Start(payments, events, joined), steps), ref);
  }

  /** Messages are acknowledged only after what they ask for is durable. */
  lemma AcknowledgedMeansDurable(payments: map<string, CompletionBody>, events: map<string, EventBody>, joined: set<string>,
                                 steps: seq<Step>, m: string)
    ensures var s := RunSteps(Start(payments, events, joined), steps);
      && (m in s.ackedPayments ==> Booked(s, m))
      && (m in s.ackedEvents ==> Handed(s, m))
  {
    RunKeepsSys(Start(payments, events, joined), steps);
  }
}
