/**
 The two services together: what a run of the command worker
 (apps/agent_service/src/return_agent_service/worker.py) puts into the stream, and what the
 projector of the API service (apps/api/src/return_agent/agent_bridge.py) makes of it.
 */
module Services {
  import opened Common
  import CM = CaseMachine
  import AW = AgentWorker
  import P = Projection
  import PR = ProjectionRuns
  import PS = ProjectionSafety
  import RS = RefundSafety
  import IP = InOrderProjection

  // ------------------------------------------------------------------ an attempt, from the worker to the case

  /** The case shows the first k events in order, or the half-step towards the next; all of them once all are acknowledged. */
  ghost predicate ProjectedInOrder(s: PR.Sys, later: PR.Sys, p: IP.Plan)
    requires p.caseRef in s.db.cases
  {
    && IP.InOrderSoFar(later, p, IP.ViewOf(s.db, p))
    && ((forall i :: 0 <= i < |p.events| ==> p.events[i] in later.acked) ==>
          && IP.Progress(later.db, p) == |p.events|
          && IP.InOrder(IP.ViewOf(s.db, p), p.events, p, later.ledger) == Some(IP.ViewOf(later.db, p)))
  }

  /**
   From end to end: the events that a finished attempt of the worker left in the stream are a
   plan whose projection, under every schedule from a state that has seen none of them, is their
   in-order application.
   */
  lemma {:induction false} AttemptIsProjectedInOrder(bodies: map<string, AW.Body>, work: seq<AW.Step>, t: nat, authorization: P.Authorization,
                                                     s: PR.Sys, steps: seq<PR.Step>)
    requires var stream := AW.Run(AW.Start(bodies), work).stream; t < |stream| && AW.IsTerminal(stream[t].event.payload)
    ensures var worker := AW.Run(AW.Start(bodies), work);
      exists events ::
        && AW.IsPlanOf(worker, t, events, authorization)
        && var p := IP.PlanOf(worker.stream[t].event, events, authorization);
        (IP.Fresh(s, p) && IP.Schedule(s, steps, p) ==> ProjectedInOrder(s, PR.Run(s, steps), p))
  {
    AW.AttemptFormsPlan(bodies, work, t, authorization);
    var worker := AW.Run(AW.Start(bodies), work);
    var events :| AW.IsPlanOf(worker, t, events, authorization);
    var p := IP.PlanOf(worker.stream[t].event, events, authorization);
    if IP.Fresh(s, p) && IP.Schedule(s, steps, p) {
      IP.ProjectionRefinesInOrder(s, steps, p);
      if forall i :: 0 <= i < |p.events| ==> p.events[i] in PR.Run(s, steps).acked {
        IP.AllAcknowledgedMeansAllApplied(s, steps, p);
      }
    }
  }

  // ------------------------------------------------------------------ retries

  /**
   Two entries of any worker run for the same command and index, of one attempt or of two: once
   the first is recorded, the projector takes the second for a duplicate if and only if it has
   the same content, time included, and refuses it otherwise.
   */
  lemma {:induction false} RetryIsDuplicateExactly(bodies: map<string, AW.Body>, work: seq<AW.Step>, i: nat, k: nat,
                                                   steps: seq<PR.Step>, authorization: P.Authorization)
    requires var stream := AW.Run(AW.Start(bodies), work).stream;
      && i < |stream| && k < |stream|
      && stream[k].event.commandId == stream[i].event.commandId && stream[k].event.index == stream[i].event.index
      && PS.Recorded(PR.Run(PR.Empty, steps).db, stream[i].event)
    ensures var stream := AW.Run(AW.Start(bodies), work).stream;
      var db := PR.Run(PR.Empty, steps).db;
      P.ProjectTx(db, stream[k].event, authorization) ==
        P.Tx(if stream[k].event == stream[i].event then P.Duplicate else P.Inapplicable, db)
  {
    AW.RunKeeps(bodies, work);
    RS.RunKeepsSys(steps);
    var stream := AW.Run(AW.Start(bodies), work).stream;
    assert stream[k].event.eventId == stream[i].event.eventId;
    assert PS.RowRecorded(PR.Run(PR.Empty, steps).db, stream[i].event.eventId);
  }

  /** A retry with another content closes the case it names for good, whenever its first rejection comes. */
  lemma {:induction false} RetryFailsClosed(bodies: map<string, AW.Body>, work: seq<AW.Step>, i: nat, k: nat, steps: seq<PR.Step>,
                                            authorization: P.Authorization, between: seq<PR.Step>, messageId: string, more: seq<PR.Step>)
    requires var stream := AW.Run(AW.Start(bodies), work).stream;
      && i < |stream| && k < |stream| && stream[k].event != stream[i].event
      && stream[k].event.commandId == stream[i].event.commandId && stream[k].event.index == stream[i].event.index
      && PS.Recorded(PR.Run(PR.Empty, steps).db, stream[i].event)
      && stream[k].event.caseRef in PR.Run(PR.Empty, steps).db.cases
    requires messageId !in PR.Run(PR.Empty, steps + between).db.rejected
    ensures var e := AW.Run(AW.Start(bodies), work).stream[k].event;
      var later := PR.Run(PR.Empty, steps + between + [PR.RejectMessage(messageId, RS.ReferencesOf(e))] + more);
      e.caseRef in later.db.cases && CM.Terminal(later.db.cases[e.caseRef].status)
  {
    AW.RunKeeps(bodies, work);
    var stream := AW.Run(AW.Start(bodies), work).stream;
    assert stream[k].event.eventId == stream[i].event.eventId;
    RS.ConflictClosesCase(steps, stream[k].event, authorization, between, messageId, more);
  }

  /** A worker publishes its first observation at `first` and crashes; after the lease another attempt observes at `second`. */
  function CrashAndRetry(m: string, w: string, node: string, now: int, lease: nat, first: int, second: int): seq<AW.Step> {
    [AW.Read(w, m), AW.Claim(w, now, lease), AW.Observe(w, P.Enter, node, false, first, AW.Delivered), AW.Crash(w),
     AW.Read(w, m), AW.Claim(w, now + lease, lease), AW.Observe(w, P.Enter, node, false, second, AW.Delivered)]
  }

  lemma RunPrefix(s: AW.Sys, steps: seq<AW.Step>, n: nat)
    requires n < |steps|
    ensures AW.Run(s, steps[..n + 1]) == AW.Next(AW.Run(s, steps[..n]), steps[n])
  {
    assert steps[..n + 1][..n] == steps[..n];
  }

  /** One attempt up to its first observation, from an idle worker that can claim. */
  lemma AttemptObserves(s: AW.Sys, steps: seq<AW.Step>, n: nat, m: string, w: string, node: string, now: int, lease: nat, at: int)
    requires n + 3 <= |steps| && steps[n] == AW.Read(w, m) && steps[n + 1] == AW.Claim(w, now, lease)
    requires steps[n + 2] == AW.Observe(w, P.Enter, node, false, at, AW.Delivered)
    requires var before := AW.Run(s, steps[..n]);
      && AW.PcOf(before, w).Idle? && AW.HasCommand(before, m)
      && AW.J.Apply(before.journal, AW.J.ClaimOp(before.bodies[m].commandId, w, now, lease)).0 == AW.J.ClaimAnswer(AW.J.Claimed)
    ensures var before, after := AW.Run(s, steps[..n]), AW.Run(s, steps[..n + 3]);
      && after.bodies == before.bodies && after.attempts == before.attempts + 1
      && after.journal == AW.J.Apply(before.journal, AW.J.ClaimOp(before.bodies[m].commandId, w, now, lease)).1
      && after.stream == before.stream
           + [AW.Entry(before.attempts, AW.EventOf(before.bodies[m], 1, at, P.NodeObserved(P.Enter, node, false)))]
  {
    RunPrefix(s, steps, n);
    RunPrefix(s, steps, n + 1);
    RunPrefix(s, steps, n + 2);
    Observes(AW.Run(s, steps[..n]), m, w, node, now, lease, at);
  }

  lemma Observes(before: AW.Sys, m: string, w: string, node: string, now: int, lease: nat, at: int)
    requires AW.PcOf(before, w).Idle? && AW.HasCommand(before, m)
    requires AW.J.Apply(before.journal, AW.J.ClaimOp(before.bodies[m].commandId, w, now, lease)).0 == AW.J.ClaimAnswer(AW.J.Claimed)
    ensures var after := AW.Next(AW.Next(AW.Next(before, AW.Read(w, m)), AW.Claim(w, now, lease)),
                                 AW.Observe(w, P.Enter, node, false, at, AW.Delivered));
      && after.bodies == before.bodies && after.attempts == before.attempts + 1
      && after.journal == AW.J.Apply(before.journal, AW.J.ClaimOp(before.bodies[m].commandId, w, now, lease)).1
      && after.stream == before.stream
           + [AW.Entry(before.attempts, AW.EventOf(before.bodies[m], 1, at, P.NodeObserved(P.Enter, node, false)))]
  {
    var read := AW.Next(before, AW.Read(w, m));
    assert AW.PcOf(read, w) == AW.Claiming(m) && read.journal == before.journal;
  }

  /** The retry puts the same id and index into the stream again, with its own time. */
  lemma {:induction false} CrashedAttemptIsRetried(command: AW.Body, m: string, w: string, node: string, now: int, lease: nat, first: int, second: int)
    requires command.Command?
    ensures AW.Run(AW.Start(map[m := command]), CrashAndRetry(m, w, node, now, lease, first, second)).stream ==
      [AW.Entry(0, AW.EventOf(command, 1, first, P.NodeObserved(P.Enter, node, false))),
       AW.Entry(1, AW.EventOf(command, 1, second, P.NodeObserved(P.Enter, node, false)))]
  {
    var s, steps := AW.Start(map[m := command]), CrashAndRetry(m, w, node, now, lease, first, second);
    AttemptIsCrashed(s, command, steps, m, w, node, now, lease, first);
    AttemptObserves(s, steps, 4, m, w, node, now + lease, lease, second);
    assert steps[..7] == steps;
  }

  /** The first attempt and its crash: one entry in the stream, and a lease that has run out. */
  lemma AttemptIsCrashed(s: AW.Sys, command: AW.Body, steps: seq<AW.Step>, m: string, w: string, node: string, now: int, lease: nat, first: int)
    requires command.Command? && s == AW.Start(map[m := command])
    requires |steps| == 7 && steps[0] == AW.Read(w, m) && steps[1] == AW.Claim(w, now, lease) && steps[3] == AW.Crash(w)
    requires steps[2] == AW.Observe(w, P.Enter, node, false, first, AW.Delivered)
    ensures var crashed := AW.Run(s, steps[..4]);
      && AW.PcOf(crashed, w).Idle? && AW.HasCommand(crashed, m) && crashed.bodies[m] == command && crashed.attempts == 1
      && crashed.stream == [AW.Entry(0, AW.EventOf(command, 1, first, P.NodeObserved(P.Enter, node, false)))]
      && AW.J.Apply(crashed.journal, AW.J.ClaimOp(command.commandId, w, now + lease, lease)).0 == AW.J.ClaimAnswer(AW.J.Claimed)
  {
    assert steps[..0] == [];
    AttemptObserves(s, steps, 0, m, w, node, now, lease, first);
    RunPrefix(s, steps, 3);
    LeaseRunsOut(AW.Run(s, steps[..3]), command, m, w, now, lease);
  }

  lemma LeaseRunsOut(s: AW.Sys, command: AW.Body, m: string, w: string, now: int, lease: nat)
    requires command.Command? && s.bodies == map[m := command]
    requires s.journal == map[command.commandId := AW.J.Row(AW.J.Running, Some(w), Some(now + lease))]
    ensures var crashed := AW.Next(s, AW.Crash(w));
      && AW.PcOf(crashed, w).Idle? && AW.HasCommand(crashed, m) && crashed.bodies[m] == command
      && crashed.stream == s.stream && crashed.attempts == s.attempts
      && AW.J.Apply(crashed.journal, AW.J.ClaimOp(command.commandId, w, now + lease, lease)).0 == AW.J.ClaimAnswer(AW.J.Claimed)
  {
  }

  /** consume_event_once: project, and reject what is inapplicable. */
  function Consume(s: PR.Sys, e: P.Event, messageId: string): PR.Sys {
    if P.ProjectTx(s.db, e, P.NotAuthorized).answer == P.Inapplicable then PR.Next(s, PR.RejectMessage(messageId, RS.ReferencesOf(e)))
    else PR.Next(s, PR.Project(e, P.NotAuthorized))
  }

  /**
   Retries are not transparent: for the crashed and retried attempt above, consuming its two
   entries in the order of the stream leaves the case Escalated if and only if the two times
   differ, and Observing otherwise.
   */
  lemma {:induction false} RetryAfterCrashEscalatesExactly(command: AW.Body, m: string, w: string, node: string, now: int, lease: nat,
                                                           first: int, second: int, message: string, messageId: string)
    requires command.Command?
    ensures var stream := AW.Run(AW.Start(map[m := command]), CrashAndRetry(m, w, node, now, lease, first, second)).stream;
      var created := PR.Next(PR.Empty, PR.CreateCase(command.caseRef, command.threadId, false, message, command.commandId, true));
      && |stream| == 2
      && var s := Consume(Consume(created, stream[0].event, messageId), stream[1].event, messageId);
      && command.caseRef in s.db.cases
      && s.db.cases[command.caseRef].status == if first != second then CM.Escalated else CM.Observing
  {
    CrashedAttemptIsRetried(command, m, w, node, now, lease, first, second);
    var e1 := AW.EventOf(command, 1, first, P.NodeObserved(P.Enter, node, false));
    var e2 := AW.EventOf(command, 1, second, P.NodeObserved(P.Enter, node, false));
    var created := PR.Next(PR.Empty, PR.CreateCase(command.caseRef, command.threadId, false, message, command.commandId, true));
    ObservationIsRecorded(created, e1, messageId);
    RepetitionIsDecided(Consume(created, e1, messageId), e1, e2, messageId);
  }

  lemma ObservationIsRecorded(s: PR.Sys, e: P.Event, messageId: string)
    requires e.payload.NodeObserved? && e.index == 1 && e.caseRef in s.db.cases && s.db.cases[e.caseRef].threadId == e.threadId
    requires s.db.processed == map[] && s.db.cursors == map[] && s.db.rejected == map[]
    ensures var later := Consume(s, e, messageId);
      && PS.Recorded(later.db, e) && later.db.rejected == map[]
      && e.caseRef in later.db.cases && later.db.cases[e.caseRef].status == s.db.cases[e.caseRef].status
  {
  }

  lemma RepetitionIsDecided(s: PR.Sys, e: P.Event, other: P.Event, messageId: string)
    requires PS.Recorded(s.db, e) && s.db.rejected == map[] && e.caseRef in s.db.cases && s.db.cases[e.caseRef].status == CM.Observing
    requires other == e.(occurredAt := other.occurredAt)
    ensures var later := Consume(s, other, messageId);
      && e.caseRef in later.db.cases
      && later.db.cases[e.caseRef].status == if other.occurredAt != e.occurredAt then CM.Escalated else CM.Observing
  {
  }
}
