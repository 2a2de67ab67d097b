/**
 The command worker (apps/agent_service/src/return_agent_service/worker.py) as a step machine:
 every await is one step, any number of workers interleave, and at every await a worker may
 crash, fail, or fail after its effect took place.  `Lost` is a failure without effect,
 `Ambiguous` a failure whose effect nevertheless happened.
 */
module AgentWorker {
  import opened Common
  import J = Journal
  import P = Projection
  import IP = InOrderProjection

  datatype Body = Garbage | Command(commandId: string, caseRef: string, threadId: string)

  /** One entry of the event stream; `attempt` numbers the claims that led to executions. */
  datatype Entry = Entry(attempt: nat, event: P.Event)

  datatype Fate = Delivered | Lost | Ambiguous

  datatype Pc =
    | Idle
    | DeadLettering(m: string)
    | DeadAcking(m: string)
    | Claiming(m: string)
    | Running(m: string, attempt: nat, index: nat, failed: bool)
    | Publishing(m: string, attempt: nat, index: nat, outcome: P.EventPayload)
    | Finishing(m: string, outcome: P.EventPayload)
    | Acking(m: string)
    | Abandoning(m: string)

  datatype Sys = Sys(bodies: map<string, Body>, journal: J.Rows, stream: seq<Entry>, dead: set<string>, acked: set<string>,
                     workers: map<string, Pc>, attempts: nat)

  datatype Step =
    | Read(w: string, m: string)
    | DeadLetter(w: string, fate: Fate)
    | DeadAck(w: string, fate: Fate)
    | Claim(w: string, now: int, lease: nat)
    | Observe(w: string, phase: P.Phase, node: string, memory: bool, at: int, fate: Fate)
    | RuntimeEnds(w: string, outcome: P.EventPayload)
    | Publish(w: string, at: int, fate: Fate)
    | Finish(w: string, fate: Fate)
    | Ack(w: string, fate: Fate)
    | Abandon(w: string, fate: Fate)
    | Crash(w: string)

  /** The terminal events: INTERRUPTED, RESOLVED, ESCALATED and RUN_FAILED. */
  predicate IsTerminal(payload: P.EventPayload) { !payload.NodeObserved? }

  function Digits(n: nat): string {
    if n < 10 then [('0' as int + n) as char] else Digits(n / 10) + [('0' as int + n % 10) as char]
  }

  /** _event_id: the same for every attempt of a command. */
  function EventId(commandId: string, index: nat): string {
    "event:" + commandId + ":" + Digits(index)
  }

  function EventOf(body: Body, index: nat, at: int, payload: P.EventPayload): P.Event
    requires body.Command?
  {
    P.Event(EventId(body.commandId, index), body.commandId, body.caseRef, body.threadId, index, at, payload)
  }

  predicate HasCommand(s: Sys, m: string) { m in s.bodies && s.bodies[m].Command? }

  function PcOf(s: Sys, w: string): Pc { if w in s.workers then s.workers[w] else Idle }

  function At(s: Sys, w: string, pc: Pc): Sys { s.(workers := s.workers[w := pc]) }

  function Append(s: Sys, fate: Fate, attempt: nat, event: P.Event): Sys {
    if fate == Lost then s else s.(stream := s.stream + [Entry(attempt, event)])
  }

  /** run_once and _execute; a step that does not fit the worker's position does nothing. */
  function Next(s: Sys, step: Step): Sys {
    var pc := PcOf(s, step.w);
    match step
    case Read(w, m) =>
      if pc.Idle? && m in s.bodies then At(s, w, if s.bodies[m].Garbage? then DeadLettering(m) else Claiming(m)) else s
    case DeadLetter(w, fate) =>
      if pc.DeadLettering? then
        At(if fate == Lost then s else s.(dead := s.dead + {pc.m}), w, if fate == Delivered then DeadAcking(pc.m) else Idle)
      else s
    case DeadAck(w, fate) =>
      if pc.DeadAcking? then At(if fate == Lost then s else s.(acked := s.acked + {pc.m}), w, Idle) else s
    case Claim(w, now, lease) =>
      if pc.Claiming? && HasCommand(s, pc.m) then
        var (answer, rows) := J.Apply(s.journal, J.ClaimOp(s.bodies[pc.m].commandId, w, now, lease));
        match answer.claim
        case Claimed => At(s.(journal := rows, attempts := s.attempts + 1), w, Running(pc.m, s.attempts, 0, false))
        case AlreadyTerminal => At(s.(journal := rows), w, Acking(pc.m))
        case Busy => At(s.(journal := rows), w, Idle)
      else s
    case Observe(w, phase, node, memory, at, fate) =>
      if pc.Running? && HasCommand(s, pc.m) then
        At(Append(s, fate, pc.attempt, EventOf(s.bodies[pc.m], pc.index + 1, at, P.NodeObserved(phase, node, memory))),
           w, pc.(index := pc.index + 1, failed := pc.failed || fate != Delivered))
      else s
    case RuntimeEnds(w, outcome) =>
      // The runtime returned or raised; an observation that failed to publish is raised instead.
      if pc.Running? then
        At(s, w, if pc.failed || !IsTerminal(outcome) then Abandoning(pc.m) else Publishing(pc.m, pc.attempt, pc.index + 1, outcome))
      else s
    case Publish(w, at, fate) =>
      if pc.Publishing? && HasCommand(s, pc.m) then
        At(Append(s, fate, pc.attempt, EventOf(s.bodies[pc.m], pc.index, at, pc.outcome)),
           w, if fate == Delivered then Finishing(pc.m, pc.outcome) else Abandoning(pc.m))
      else s
    case Finish(w, fate) =>
      if pc.Finishing? && HasCommand(s, pc.m) then
        var state := if pc.outcome.RunFailed? then J.Failed else J.Completed;
        var (answer, rows) := J.Apply(s.journal, J.FinishOp(s.bodies[pc.m].commandId, w, state));
        At(if fate == Lost then s else s.(journal := rows), w, if fate == Delivered && answer.ok then Acking(pc.m) else Abandoning(pc.m))
      else s
    case Ack(w, fate) =>
      if pc.Acking? then
        At(if fate == Lost then s else s.(acked := s.acked + {pc.m}), w, if fate == Delivered then Idle else Abandoning(pc.m))
      else s
    case Abandon(w, fate) =>
      if pc.Abandoning? && HasCommand(s, pc.m) then
        At(if fate == Lost then s else s.(journal := J.Apply(s.journal, J.AbandonOp(s.bodies[pc.m].commandId, w)).1), w, Idle)
      else s
    case Crash(w) => At(s, w, Idle)
  }

  function Run(s: Sys, steps: seq<Step>): Sys {
    if steps == [] then s else Next(Run(s, steps[..|steps| - 1]), steps[|steps| - 1])
  }

  function Start(bodies: map<string, Body>): Sys { Sys(bodies, map[], [], {}, {}, map[], 0) }

  // ------------------------------------------------------------------ the invariant

  /** Some entry before position `bound` is event `index` of the attempt. */
  predicate PublishedBefore(stream: seq<Entry>, bound: nat, attempt: nat, index: nat)
    requires bound <= |stream|
  {
    exists i :: 0 <= i < bound && stream[i].attempt == attempt && stream[i].event.index == index
  }

  /** A terminal event of the command is in the stream, RUN_FAILED exactly for a failed command. */
  predicate TerminalInStream(stream: seq<Entry>, commandId: string, failed: bool) {
    exists i :: 0 <= i < |stream| && stream[i].event.commandId == commandId
                && IsTerminal(stream[i].event.payload) && (stream[i].event.payload.RunFailed? <==> failed)
  }

  ghost predicate StreamOk(s: Sys) {
    && (forall i :: 0 <= i < |s.stream| ==> s.stream[i].attempt < s.attempts && s.stream[i].event.index >= 1)
    && (forall i, j :: 0 <= i < j < |s.stream| && s.stream[i].attempt == s.stream[j].attempt ==>
          && s.stream[i].event.index < s.stream[j].event.index
          && !IsTerminal(s.stream[i].event.payload)
          && s.stream[i].event.commandId == s.stream[j].event.commandId
          && s.stream[i].event.caseRef == s.stream[j].event.caseRef
          && s.stream[i].event.threadId == s.stream[j].event.threadId)
    && (forall i :: 0 <= i < |s.stream| ==>
          s.stream[i].event.eventId == EventId(s.stream[i].event.commandId, s.stream[i].event.index))
    && (forall i, k :: 0 <= i < |s.stream| && IsTerminal(s.stream[i].event.payload) && 1 <= k < s.stream[i].event.index ==>
          PublishedBefore(s.stream, i, s.stream[i].attempt, k))
  }

  ghost predicate JournalOk(s: Sys) {
    forall c :: J.Finished(s.journal, c) ==> TerminalInStream(s.stream, c, s.journal[c].state == J.Failed)
  }

  predicate Settled(s: Sys, m: string) {
    m in s.dead || (HasCommand(s, m) && J.Finished(s.journal, s.bodies[m].commandId))
  }

  /** The attempt belongs to this worker: what it has published so far. */
  ghost predicate AttemptOk(s: Sys, m: string, attempt: nat, index: nat, failed: bool) {
    && HasCommand(s, m)
    && attempt < s.attempts
    && (forall i :: 0 <= i < |s.stream| && s.stream[i].attempt == attempt ==>
          && s.stream[i].event.index <= index
          && !IsTerminal(s.stream[i].event.payload)
          && s.stream[i].event.commandId == s.bodies[m].commandId
          && s.stream[i].event.caseRef == s.bodies[m].caseRef
          && s.stream[i].event.threadId == s.bodies[m].threadId)
    && (!failed ==> forall k :: 1 <= k <= index ==> PublishedBefore(s.stream, |s.stream|, attempt, k))
  }

  ghost predicate PcOk(s: Sys, pc: Pc) {
    match pc
    case DeadLettering(m) => m in s.bodies && s.bodies[m].Garbage?
    case DeadAcking(m) => m in s.dead
    case Running(m, attempt, index, failed) => AttemptOk(s, m, attempt, index, failed)
    case Publishing(m, attempt, index, outcome) => index >= 1 && AttemptOk(s, m, attempt, index - 1, false) && IsTerminal(outcome)
    case Finishing(m, outcome) => HasCommand(s, m) && TerminalInStream(s.stream, s.bodies[m].commandId, outcome.RunFailed?)
    case Acking(m) => Settled(s, m)
    case _ => true
  }

  function AttemptOf(pc: Pc): Option<nat> {
    if pc.Running? || pc.Publishing? then Some(pc.attempt) else None
  }

  ghost predicate WorkersOk(s: Sys) {
    && (forall w :: w in s.workers ==> PcOk(s, s.workers[w]))
    && (forall v, w :: v in s.workers && w in s.workers && v != w && AttemptOf(s.workers[v]).Some? ==>
          AttemptOf(s.workers[v]) != AttemptOf(s.workers[w]))
  }

  ghost predicate SysOk(s: Sys) {
    && StreamOk(s)
    && JournalOk(s)
    && WorkersOk(s)
    && (forall m :: m in s.dead ==> m in s.bodies && s.bodies[m].Garbage?)
    && (forall m :: m in s.acked ==> Settled(s, m))
  }

  // ------------------------------------------------------------------ one step

  /** Nothing published, dead-lettered or finished is lost; at most one entry is appended. */
  ghost predicate Grows(s: Sys, later: Sys) {
    && later.bodies == s.bodies
    && s.attempts <= later.attempts
    && s.stream <= later.stream
    && s.dead <= later.dead
    && (forall c :: J.Finished(s.journal, c) ==> J.Finished(later.journal, c))
  }

  lemma SettledStays(s: Sys, later: Sys, m: string)
    requires Settled(s, m) && Grows(s, later)
    ensures Settled(later, m)
  {
  }

  lemma TerminalStays(stream: seq<Entry>, later: seq<Entry>, c: string, failed: bool)
    requires stream <= later && TerminalInStream(stream, c, failed)
    ensures TerminalInStream(later, c, failed)
  {
    var i :| 0 <= i < |stream| && stream[i].event.commandId == c
             && IsTerminal(stream[i].event.payload) && (stream[i].event.payload.RunFailed? <==> failed);
    assert later[i] == stream[i];
  }

  lemma PublishedStays(stream: seq<Entry>, later: seq<Entry>, bound: nat, farther: nat, attempt: nat, k: nat)
    requires stream <= later && bound <= |stream| && bound <= farther <= |later| && PublishedBefore(stream, bound, attempt, k)
    ensures PublishedBefore(later, farther, attempt, k)
  {
    var i :| 0 <= i < bound && stream[i].attempt == attempt && stream[i].event.index == k;
    assert later[i] == stream[i];
  }

  /** Another worker's appended entries do not touch an attempt. */
  lemma AttemptStays(s: Sys, later: Sys, m: string, attempt: nat, index: nat, failed: bool)
    requires AttemptOk(s, m, attempt, index, failed) && Grows(s, later)
    requires forall i :: |s.stream| <= i < |later.stream| ==> later.stream[i].attempt != attempt
    ensures AttemptOk(later, m, attempt, index, failed)
  {
    if !failed {
      forall k | 1 <= k <= index ensures PublishedBefore(later.stream, |later.stream|, attempt, k) {
        PublishedStays(s.stream, later.stream, |s.stream|, |later.stream|, attempt, k);
      }
    }
  }

  lemma PcStays(s: Sys, later: Sys, pc: Pc)
    requires PcOk(s, pc) && Grows(s, later)
    requires forall i :: |s.stream| <= i < |later.stream| ==> Some(later.stream[i].attempt) != AttemptOf(pc)
    ensures PcOk(later, pc)
  {
    match pc
    case Running(m, attempt, index, failed) => AttemptStays(s, later, m, attempt, index, failed);
    case Publishing(m, attempt, index, _) => AttemptStays(s, later, m, attempt, index - 1, false);
    case Finishing(m, outcome) => TerminalStays(s.stream, later.stream, s.bodies[m].commandId, outcome.RunFailed?);
    case Acking(m) => SettledStays(s, later, m);
    case _ =>
  }

  /** One worker moves to a justified position; every other worker's position stays justified. */
  lemma {:induction false} MoveKeepsWorkers(s: Sys, later: Sys, w: string, pc: Pc)
    requires WorkersOk(s) && Grows(s, later)
    requires later.workers == s.workers[w := pc] && PcOk(later, pc)
    requires AttemptOf(pc).Some? ==> AttemptOf(pc) == AttemptOf(PcOf(s, w)) || AttemptOf(pc) == Some(s.attempts)
    requires forall i :: |s.stream| <= i < |later.stream| ==> Some(later.stream[i].attempt) == AttemptOf(PcOf(s, w))
    ensures WorkersOk(later)
  {
    forall v | v in later.workers ensures PcOk(later, later.workers[v]) {
      if v != w { PcStays(s, later, s.workers[v]); }
    }
    assert forall v :: v in s.workers && AttemptOf(s.workers[v]).Some? ==> AttemptOf(s.workers[v]).value < s.attempts;
  }

  lemma JournalGrows(s: Sys, op: J.Op)
    requires JournalOk(s)
    requires op.FinishOp? ==> TerminalInStream(s.stream, op.id, op.state == J.Failed)
    ensures var later := s.(journal := J.Apply(s.journal, op).1);
      JournalOk(later) && (forall c :: J.Finished(s.journal, c) ==> J.Finished(later.journal, c))
  {
  }

  /** A step that leaves the stream alone. */
  lemma {:induction false} QuietStep(s: Sys, later: Sys, w: string, pc: Pc)
    requires SysOk(s) && Grows(s, later) && JournalOk(later)
    requires later.stream == s.stream && later.workers == s.workers[w := pc] && PcOk(later, pc)
    requires AttemptOf(pc).Some? ==> AttemptOf(pc) == AttemptOf(PcOf(s, w)) || AttemptOf(pc) == Some(s.attempts)
    requires forall m :: m in later.dead && m !in s.dead ==> m in s.bodies && s.bodies[m].Garbage?
    requires forall m :: m in later.acked && m !in s.acked ==> Settled(later, m)
    ensures SysOk(later)
  {
    MoveKeepsWorkers(s, later, w, pc);
    forall m | m in later.acked ensures Settled(later, m) {
      if m in s.acked { SettledStays(s, later, m); }
    }
  }

  /** Appending the next event of an attempt; a terminal one only after all its predecessors. */
  lemma AppendKeepsStream(s: Sys, m: string, attempt: nat, index: nat, failed: bool, event: P.Event)
    requires StreamOk(s) && AttemptOk(s, m, attempt, index, failed)
    requires event == EventOf(s.bodies[m], index + 1, event.occurredAt, event.payload)
    requires IsTerminal(event.payload) ==> !failed
    ensures StreamOk(s.(stream := s.stream + [Entry(attempt, event)]))
  {
    var later := s.stream + [Entry(attempt, event)];
    forall i, k | 0 <= i < |later| && IsTerminal(later[i].event.payload) && 1 <= k < later[i].event.index
      ensures PublishedBefore(later, i, later[i].attempt, k)
    {
      if i < |s.stream| {
        assert PublishedBefore(s.stream, i, s.stream[i].attempt, k);
      } else {
        assert PublishedBefore(s.stream, |s.stream|, attempt, k);
      }
      PublishedStays(s.stream, later, i, i, later[i].attempt, k);
    }
  }

  lemma AppendingStep(s: Sys, later: Sys, w: string, pc: Pc, m: string, attempt: nat, index: nat, failed: bool, event: P.Event)
    requires SysOk(s) && AttemptOk(s, m, attempt, index, failed) && AttemptOf(PcOf(s, w)) == Some(attempt)
    requires event == EventOf(s.bodies[m], index + 1, event.occurredAt, event.payload)
    requires IsTerminal(event.payload) ==> !failed
    requires later == At(s.(stream := s.stream + [Entry(attempt, event)]), w, pc) && PcOk(later, pc)
    requires AttemptOf(pc).Some? ==> AttemptOf(pc) == Some(attempt)
    ensures SysOk(later)
  {
    AppendKeepsStream(s, m, attempt, index, failed, event);
    MoveKeepsWorkers(s, later, w, pc);
    forall c | J.Finished(later.journal, c) ensures TerminalInStream(later.stream, c, later.journal[c].state == J.Failed) {
      TerminalStays(s.stream, later.stream, c, s.journal[c].state == J.Failed);
    }
    forall n | n in later.acked ensures Settled(later, n) { SettledStays(s, later, n); }
  }

  lemma ObserveKeeps(s: Sys, step: Step)
    requires SysOk(s) && step.Observe?
    ensures SysOk(Next(s, step))
  {
    var pc := PcOf(s, step.w);
    if pc.Running? && HasCommand(s, pc.m) {
      var later := Next(s, step);
      var next := pc.(index := pc.index + 1, failed := pc.failed || step.fate != Delivered);
      if step.fate == Lost {
        QuietStep(s, later, step.w, next);
      } else {
        var event := EventOf(s.bodies[pc.m], pc.index + 1, step.at, P.NodeObserved(step.phase, step.node, step.memory));
        ObservedAttempt(s, later, pc.m, pc.attempt, pc.index, pc.failed, event, next.failed);
        AppendingStep(s, later, step.w, next, pc.m, pc.attempt, pc.index, pc.failed, event);
      }
    }
  }

  lemma ObservedAttempt(s: Sys, later: Sys, m: string, attempt: nat, index: nat, failed: bool, event: P.Event, nowFailed: bool)
    requires AttemptOk(s, m, attempt, index, failed) && (failed ==> nowFailed)
    requires event == EventOf(s.bodies[m], index + 1, event.occurredAt, event.payload) && !IsTerminal(event.payload)
    requires later.stream == s.stream + [Entry(attempt, event)] && later.bodies == s.bodies && later.attempts == s.attempts
    ensures AttemptOk(later, m, attempt, index + 1, nowFailed)
  {
    if !nowFailed {
      forall k | 1 <= k <= index + 1 ensures PublishedBefore(later.stream, |later.stream|, attempt, k) {
        if k <= index {
          PublishedStays(s.stream, later.stream, |s.stream|, |later.stream|, attempt, k);
        } else {
          assert later.stream[|s.stream|].attempt == attempt && later.stream[|s.stream|].event.index == k;
        }
      }
    }
  }

  lemma PublishKeeps(s: Sys, step: Step)
    requires SysOk(s) && step.Publish?
    ensures SysOk(Next(s, step))
  {
    var pc := PcOf(s, step.w);
    if pc.Publishing? && HasCommand(s, pc.m) {
      var later := Next(s, step);
      var next := if step.fate == Delivered then Finishing(pc.m, pc.outcome) else Abandoning(pc.m);
      if step.fate == Lost {
        QuietStep(s, later, step.w, next);
      } else {
        var event := EventOf(s.bodies[pc.m], pc.index, step.at, pc.outcome);
        assert later.stream[|s.stream|].event == event;
        AppendingStep(s, later, step.w, next, pc.m, pc.attempt, pc.index - 1, false, event);
      }
    }
  }

  lemma {:induction false} ClaimKeeps(s: Sys, step: Step)
    requires SysOk(s) && step.Claim?
    ensures SysOk(Next(s, step))
  {
    var pc := PcOf(s, step.w);
    if pc.Claiming? && HasCommand(s, pc.m) {
      var later := Next(s, step);
      JournalGrows(s, J.ClaimOp(s.bodies[pc.m].commandId, step.w, step.now, step.lease));
      QuietStep(s, later, step.w, later.workers[step.w]);
    }
  }

  lemma {:induction false} FinishKeeps(s: Sys, step: Step)
    requires SysOk(s) && step.Finish?
    ensures SysOk(Next(s, step))
  {
    var pc := PcOf(s, step.w);
    if pc.Finishing? && HasCommand(s, pc.m) {
      var later := Next(s, step);
      JournalGrows(s, J.FinishOp(s.bodies[pc.m].commandId, step.w, if pc.outcome.RunFailed? then J.Failed else J.Completed));
      QuietStep(s, later, step.w, later.workers[step.w]);
    }
  }

  lemma {:induction false} AbandonKeeps(s: Sys, step: Step)
    requires SysOk(s) && step.Abandon?
    ensures SysOk(Next(s, step))
  {
    var pc := PcOf(s, step.w);
    if pc.Abandoning? && HasCommand(s, pc.m) {
      JournalGrows(s, J.AbandonOp(s.bodies[pc.m].commandId, step.w));
      QuietStep(s, Next(s, step), step.w, Idle);
    }
  }

  lemma {:induction false} PlainStepsKeep(s: Sys, step: Step)
    requires SysOk(s)
    requires step.Read? || step.DeadLetter? || step.DeadAck? || step.RuntimeEnds? || step.Ack? || step.Crash?
    ensures SysOk(Next(s, step))
  {
    var later := Next(s, step);
    if later != s {
      assert step.w in later.workers && later.workers == s.workers[step.w := later.workers[step.w]];
      assert PcOk(s, PcOf(s, step.w));
      QuietStep(s, later, step.w, later.workers[step.w]);
    }
  }

  lemma {:induction false} StepKeeps(s: Sys, step: Step)
    requires SysOk(s)
    ensures SysOk(Next(s, step))
  {
    match step
    case Claim(_, _, _) => ClaimKeeps(s, step);
    case Observe(_, _, _, _, _, _) => ObserveKeeps(s, step);
    case Publish(_, _, _) => PublishKeeps(s, step);
    case Finish(_, _) => FinishKeeps(s, step);
    case Abandon(_, _) => AbandonKeeps(s, step);
    case _ => PlainStepsKeep(s, step);
  }

  lemma {:induction false} RunKeeps(bodies: map<string, Body>, steps: seq<Step>)
    ensures SysOk(Run(Start(bodies), steps)) && Run(Start(bodies), steps).bodies == bodies
  {
    if steps != [] {
      RunKeeps(bodies, steps[..|steps| - 1]);
      StepKeeps(Run(Start(bodies), steps[..|steps| - 1]), steps[|steps| - 1]);
    }
  }

  // ------------------------------------------------------------------ main results

  /**
   A message is acknowledged only once it is dead-lettered, which happens to unreadable bodies
   only, or its command is finished in the journal; and a finished command has a terminal event
   in the stream, RUN_FAILED exactly if the journal says FAILED.
   */
  lemma AcknowledgesLast(bodies: map<string, Body>, steps: seq<Step>, m: string)
    requires m in Run(Start(bodies), steps).acked
    ensures var s := Run(Start(bodies), steps);
      && m in bodies
      && (bodies[m].Garbage? ==> m in s.dead)
      && (bodies[m].Command? ==>
            && J.Finished(s.journal, bodies[m].commandId)
            && TerminalInStream(s.stream, bodies[m].commandId, s.journal[bodies[m].commandId].state == J.Failed))
  {
    RunKeeps(bodies, steps);
    assert Settled(Run(Start(bodies), steps), m);
  }

  lemma {:induction false} DigitsDiffer(m: nat, n: nat)
    requires m != n
    ensures Digits(m) != Digits(n)
  {
    if m >= 10 && n >= 10 {
      if m / 10 != n / 10 {
        DigitsDiffer(m / 10, n / 10);
        assert Digits(m)[..|Digits(m)| - 1] == Digits(m / 10);
        assert Digits(n)[..|Digits(n)| - 1] == Digits(n / 10);
      } else {
        assert Digits(m)[|Digits(m)| - 1] != Digits(n)[|Digits(n)| - 1];
      }
    } else if m < 10 && n < 10 {
      assert Digits(m)[0] != Digits(n)[0];
    }
  }

  lemma EventIdsDiffer(commandId: string, i: nat, j: nat)
    requires i != j
    ensures EventId(commandId, i) != EventId(commandId, j)
  {
    var prefix := "event:" + commandId + ":";
    DigitsDiffer(i, j);
    assert EventId(commandId, i)[|prefix|..] == Digits(i);
    assert EventId(commandId, j)[|prefix|..] == Digits(j);
  }

  /** The first n events of an attempt, read off the stream. */
  lemma {:induction false} Collect(s: Sys, t: nat, n: nat) returns (events: seq<P.Event>)
    requires StreamOk(s) && t < |s.stream| && IsTerminal(s.stream[t].event.payload) && n < s.stream[t].event.index
    ensures |events| == n
    ensures forall k :: 0 <= k < n ==> events[k].index == k + 1 && Entry(s.stream[t].attempt, events[k]) in s.stream[..t]
  {
    if n == 0 {
      events := [];
    } else {
      var shorter := Collect(s, t, n - 1);
      assert PublishedBefore(s.stream, t, s.stream[t].attempt, n);
      var i :| 0 <= i < t && s.stream[i].attempt == s.stream[t].attempt && s.stream[i].event.index == n;
      assert s.stream[..t][i] == s.stream[i] == Entry(s.stream[t].attempt, s.stream[i].event);
      events := shorter + [s.stream[i].event];
    }
  }

  /** The events of one attempt, in index order. */
  ghost predicate AttemptEvents(s: Sys, attempt: nat, events: seq<P.Event>) {
    && (forall k :: 0 <= k < |events| ==> Entry(attempt, events[k]) in s.stream)
    && (forall i :: 0 <= i < |s.stream| && s.stream[i].attempt == attempt ==> s.stream[i].event in events)
  }

  ghost predicate IsPlanOf(s: Sys, t: nat, events: seq<P.Event>, authorization: P.Authorization)
    requires t < |s.stream|
  {
    var last := s.stream[t].event;
    && |events| == last.index >= 1 && events[|events| - 1] == last
    && (forall k :: 0 <= k < |events| - 1 ==> events[k].payload.NodeObserved?)
    && AttemptEvents(s, s.stream[t].attempt, events)
    && IP.WellFormed(IP.PlanOf(last, events, authorization))
  }

  lemma PlanOfAttempt(s: Sys, t: nat, authorization: P.Authorization) returns (events: seq<P.Event>)
    requires StreamOk(s) && t < |s.stream| && IsTerminal(s.stream[t].event.payload)
    ensures IsPlanOf(s, t, events, authorization)
  {
    var last := s.stream[t].event;
    var before := Collect(s, t, last.index - 1);
    events := before + [last];
    assert s.stream[t] == Entry(s.stream[t].attempt, last);
    forall k | 0 <= k < |events| ensures Entry(s.stream[t].attempt, events[k]) in s.stream && events[k].index == k + 1 {
      if k < |before| { assert Entry(s.stream[t].attempt, before[k]) in s.stream[..t]; }
    }
    forall i | 0 <= i < |s.stream| && s.stream[i].attempt == s.stream[t].attempt ensures s.stream[i].event in events {
      SameIndexSameEntry(s, t, i, events);
    }
    forall k | 0 <= k < |events| - 1 ensures events[k].payload.NodeObserved? {
      OnlyLastIsTerminal(s, t, events[k]);
    }
    CollectedIsWellFormed(s, t, events, authorization);
  }

  /** An attempt publishes nothing after its terminal event. */
  lemma OnlyLastIsTerminal(s: Sys, t: nat, e: P.Event)
    requires StreamOk(s) && t < |s.stream| && IsTerminal(s.stream[t].event.payload)
    requires Entry(s.stream[t].attempt, e) in s.stream && e != s.stream[t].event
    ensures !IsTerminal(e.payload)
  {
    var a :| 0 <= a < |s.stream| && s.stream[a] == Entry(s.stream[t].attempt, e);
  }

  lemma CollectedIsWellFormed(s: Sys, t: nat, events: seq<P.Event>, authorization: P.Authorization)
    requires StreamOk(s) && t < |s.stream|
    requires forall k :: 0 <= k < |events| ==> events[k].index == k + 1 && Entry(s.stream[t].attempt, events[k]) in s.stream
    ensures var last := s.stream[t].event;
      IP.WellFormed(IP.PlanOf(last, events, authorization))
  {
    var last := s.stream[t].event;
    forall i | 0 <= i < |events|
      ensures events[i].caseRef == last.caseRef && events[i].commandId == last.commandId && events[i].threadId == last.threadId
      ensures events[i].eventId == EventId(last.commandId, i + 1)
    {
      var a :| 0 <= a < |s.stream| && s.stream[a] == Entry(s.stream[t].attempt, events[i]);
    }
    forall i, j | 0 <= i < j < |events| ensures events[i].eventId != events[j].eventId {
      EventIdsDiffer(last.commandId, i + 1, j + 1);
    }
  }

  lemma SameIndexSameEntry(s: Sys, t: nat, i: nat, events: seq<P.Event>)
    requires StreamOk(s) && t < |s.stream| && i < |s.stream| && s.stream[i].attempt == s.stream[t].attempt
    requires IsTerminal(s.stream[t].event.payload)
    requires |events| == s.stream[t].event.index
    requires forall k :: 0 <= k < |events| ==> events[k].index == k + 1 && Entry(s.stream[t].attempt, events[k]) in s.stream
    ensures s.stream[i].event in events
  {
    var index := s.stream[i].event.index;
    assert i <= t;
    var a :| 0 <= a < |s.stream| && s.stream[a] == Entry(s.stream[t].attempt, events[index - 1]);
    assert a == i;
  }

  /**
   If an attempt published a terminal event with index n, then its events in the stream are
   exactly n events with indices 1..n and distinct ids, the terminal one last: a plan for the
   projector, whose gap deferral can therefore always resolve for this attempt.
   */
  lemma AttemptFormsPlan(bodies: map<string, Body>, steps: seq<Step>, t: nat, authorization: P.Authorization)
    requires t < |Run(Start(bodies), steps).stream| && IsTerminal(Run(Start(bodies), steps).stream[t].event.payload)
    ensures exists events :: IsPlanOf(Run(Start(bodies), steps), t, events, authorization)
  {
    RunKeeps(bodies, steps);
    var events := PlanOfAttempt(Run(Start(bodies), steps), t, authorization);
  }
}
