/**
 What one delivery of a command message comes to (run_once and _execute of
 apps/agent_service/src/return_agent_service/worker.py): without a fault the command is finished
 and acknowledged, a finished command is acknowledged without running again, an unreadable
 message is dead-lettered, and a failed attempt leaves the command free for the next one.
 */
module WorkerDelivery {
  import opened Common
  import opened AgentWorker
  import J = Journal
  import P = Projection

  /** What the runtime reports of one node. */
  datatype Seen = Seen(phase: P.Phase, node: string, memory: bool, at: int)

  function Observations(w: string, seen: seq<Seen>): seq<Step> {
    if seen == [] then []
    else
      var last := seen[|seen| - 1];
      Observations(w, seen[..|seen| - 1]) + [Observe(w, last.phase, last.node, last.memory, last.at, Delivered)]
  }

  /** The entries that the observations of an attempt leave: numbered from 1, without gaps. */
  function Observed(attempt: nat, body: Body, seen: seq<Seen>): seq<Entry>
    requires body.Command?
  {
    if seen == [] then []
    else
      var last := seen[|seen| - 1];
      Observed(attempt, body, seen[..|seen| - 1])
        + [Entry(attempt, EventOf(body, |seen|, last.at, P.NodeObserved(last.phase, last.node, last.memory)))]
  }

  /** A delivery without faults: read, claim, observe, publish the outcome, finish, acknowledge. */
  function Delivery(w: string, m: string, now: int, lease: nat, seen: seq<Seen>, outcome: P.EventPayload, at: int): seq<Step> {
    [Read(w, m), Claim(w, now, lease)] + Observations(w, seen) + Ending(w, outcome, at)
  }

  function Ending(w: string, outcome: P.EventPayload, at: int): seq<Step> {
    [RuntimeEnds(w, outcome), Publish(w, at, Delivered), Finish(w, Delivered), Ack(w, Delivered)]
  }

  lemma {:induction false} RunConcat(s: Sys, steps: seq<Step>, more: seq<Step>)
    ensures Run(s, steps + more) == Run(Run(s, steps), more)
  {
    if more == [] {
      assert steps + more == steps;
    } else {
      var init := more[..|more| - 1];
      assert (steps + more)[..|steps + more| - 1] == steps + init;
      RunConcat(s, steps, init);
    }
  }

  lemma RunTwo(s: Sys, a: Step, b: Step)
    ensures Run(s, [a, b]) == Next(Next(s, a), b)
  {
    assert [a, b][..1] == [a] && [a][..0] == [];
    assert Run(s, [a]) == Next(s, a);
  }

  lemma RunFour(s: Sys, a: Step, b: Step, c: Step, d: Step)
    ensures Run(s, [a, b, c, d]) == Next(Next(Next(Next(s, a), b), c), d)
  {
    RunTwo(s, a, b);
    RunTwo(Next(Next(s, a), b), c, d);
    RunConcat(s, [a, b], [c, d]);
    assert [a, b] + [c, d] == [a, b, c, d];
  }

  /** The worker can start on the message: it is idle, the message is a command, and the claim succeeds. */
  predicate CanStart(s: Sys, w: string, m: string, now: int, lease: nat) {
    && PcOf(s, w).Idle? && HasCommand(s, m)
    && J.Apply(s.journal, J.ClaimOp(s.bodies[m].commandId, w, now, lease)).0 == J.ClaimAnswer(J.Claimed)
  }

  lemma Starts(s: Sys, w: string, m: string, now: int, lease: nat)
    requires CanStart(s, w, m, now, lease)
    ensures var later := Next(Next(s, Read(w, m)), Claim(w, now, lease));
      && PcOf(later, w) == Running(m, s.attempts, 0, false)
      && later.bodies == s.bodies && later.stream == s.stream && later.acked == s.acked
      && J.Holds(later.journal, s.bodies[m].commandId, w)
      && later.journal == s.journal[s.bodies[m].commandId := later.journal[s.bodies[m].commandId]]
  {
    var read := Next(s, Read(w, m));
    assert PcOf(read, w) == Claiming(m) && read.journal == s.journal;
  }

  /** One more observation. */
  lemma ObservesOne(s: Sys, w: string, m: string, attempt: nat, index: nat, seen: Seen)
    requires PcOf(s, w) == Running(m, attempt, index, false) && HasCommand(s, m)
    ensures var later := Next(s, Observe(w, seen.phase, seen.node, seen.memory, seen.at, Delivered));
      && PcOf(later, w) == Running(m, attempt, index + 1, false)
      && later.bodies == s.bodies && later.journal == s.journal && later.acked == s.acked
      && later.stream == s.stream
           + [Entry(attempt, EventOf(s.bodies[m], index + 1, seen.at, P.NodeObserved(seen.phase, seen.node, seen.memory)))]
  {
  }

  lemma RunSnoc(s: Sys, steps: seq<Step>, step: Step)
    ensures Run(s, steps + [step]) == Next(Run(s, steps), step)
  {
    assert (steps + [step])[..|steps|] == steps;
  }

  predicate HasObserved(s: Sys, later: Sys, w: string, m: string, attempt: nat, seen: seq<Seen>)
    requires HasCommand(s, m)
  {
    && PcOf(later, w) == Running(m, attempt, |seen|, false)
    && later.bodies == s.bodies && later.journal == s.journal && later.acked == s.acked
    && later.stream == s.stream + Observed(attempt, s.bodies[m], seen)
  }

  lemma {:induction false} Observing(s: Sys, w: string, m: string, attempt: nat, seen: seq<Seen>)
    requires PcOf(s, w) == Running(m, attempt, 0, false) && HasCommand(s, m)
    ensures HasObserved(s, Run(s, Observations(w, seen)), w, m, attempt, seen)
  {
    if seen != [] {
      var init, last := seen[..|seen| - 1], seen[|seen| - 1];
      var before := Run(s, Observations(w, init));
      Observing(s, w, m, attempt, init);
      RunSnoc(s, Observations(w, init), Observe(w, last.phase, last.node, last.memory, last.at, Delivered));
      ObservesOne(before, w, m, attempt, |init|, last);
    }
  }

  /** The first part of an attempt. */
  lemma {:induction false} Observes(s: Sys, w: string, m: string, now: int, lease: nat, seen: seq<Seen>)
    requires CanStart(s, w, m, now, lease)
    ensures var later, id := Run(s, [Read(w, m), Claim(w, now, lease)] + Observations(w, seen)), s.bodies[m].commandId;
      && PcOf(later, w) == Running(m, s.attempts, |seen|, false)
      && later.bodies == s.bodies && later.acked == s.acked
      && later.stream == s.stream + Observed(s.attempts, s.bodies[m], seen)
      && J.Holds(later.journal, id, w) && later.journal == s.journal[id := later.journal[id]]
  {
    RunConcat(s, [Read(w, m), Claim(w, now, lease)], Observations(w, seen));
    RunTwo(s, Read(w, m), Claim(w, now, lease));
    Starts(s, w, m, now, lease);
    Observing(Run(s, [Read(w, m), Claim(w, now, lease)]), w, m, s.attempts, seen);
  }

  /** The end of an attempt: the outcome is published, the command finished, the message acknowledged. */
  lemma Ends(s: Sys, w: string, m: string, attempt: nat, index: nat, outcome: P.EventPayload, at: int)
    requires PcOf(s, w) == Running(m, attempt, index, false) && HasCommand(s, m) && IsTerminal(outcome)
    requires J.Holds(s.journal, s.bodies[m].commandId, w)
    ensures var later := Run(s, Ending(w, outcome, at));
      && PcOf(later, w).Idle? && later.acked == s.acked + {m} && later.bodies == s.bodies
      && later.stream == s.stream + [Entry(attempt, EventOf(s.bodies[m], index + 1, at, outcome))]
      && later.journal == s.journal[s.bodies[m].commandId := J.Row(if outcome.RunFailed? then J.Failed else J.Completed, None, None)]
  {
    RunFour(s, RuntimeEnds(w, outcome), Publish(w, at, Delivered), Finish(w, Delivered), Ack(w, Delivered));
    var ended := Next(s, RuntimeEnds(w, outcome));
    var published := Next(ended, Publish(w, at, Delivered));
    assert PcOf(ended, w) == Publishing(m, attempt, index + 1, outcome);
    assert PcOf(published, w) == Finishing(m, outcome) && published.journal == s.journal;
  }

  /**
   A delivery without faults finishes its command: from any state in which the worker can claim,
   its row ends Failed if the run failed and Completed otherwise, the message is acknowledged, and
   the stream has gained exactly the attempt's observations and its outcome, numbered 1 to n + 1.
   */
  lemma {:induction false} FaultFreeDeliveryFinishes(s: Sys, w: string, m: string, now: int, lease: nat, seen: seq<Seen>,
                                                     outcome: P.EventPayload, at: int)
    requires CanStart(s, w, m, now, lease) && IsTerminal(outcome)
    ensures var later, body := Run(s, Delivery(w, m, now, lease, seen, outcome, at)), s.bodies[m];
      && PcOf(later, w).Idle? && later.acked == s.acked + {m} && later.bodies == s.bodies
      && later.journal == s.journal[body.commandId := J.Row(if outcome.RunFailed? then J.Failed else J.Completed, None, None)]
      && later.stream == s.stream + Observed(s.attempts, body, seen) + [Entry(s.attempts, EventOf(body, |seen| + 1, at, outcome))]
  {
    var start := [Read(w, m), Claim(w, now, lease)] + Observations(w, seen);
    RunConcat(s, start, Ending(w, outcome, at));
    Observes(s, w, m, now, lease, seen);
    Ends(Run(s, start), w, m, s.attempts, |seen|, outcome, at);
  }

  /** A delivery of a command that is finished already is acknowledged, and neither runs nor publishes anything. */
  lemma FinishedIsAcknowledged(s: Sys, w: string, m: string, now: int, lease: nat)
    requires PcOf(s, w).Idle? && HasCommand(s, m) && J.Finished(s.journal, s.bodies[m].commandId)
    ensures var later := Run(s, [Read(w, m), Claim(w, now, lease)] + [Ack(w, Delivered)]);
      && later == s.(acked := s.acked + {m}, workers := later.workers) && PcOf(later, w).Idle?
  {
    RunConcat(s, [Read(w, m), Claim(w, now, lease)], [Ack(w, Delivered)]);
    RunTwo(s, Read(w, m), Claim(w, now, lease));
    var read := Next(s, Read(w, m));
    var claimed := Next(read, Claim(w, now, lease));
    assert PcOf(read, w) == Claiming(m) && PcOf(claimed, w) == Acking(m);
    assert [Ack(w, Delivered)][..0] == [];
  }

  /** An unreadable message is dead-lettered and acknowledged, and touches nothing else. */
  lemma GarbageIsDeadLettered(s: Sys, w: string, m: string)
    requires PcOf(s, w).Idle? && m in s.bodies && s.bodies[m].Garbage?
    ensures var later := Run(s, [Read(w, m), DeadLetter(w, Delivered)] + [DeadAck(w, Delivered)]);
      && later == s.(dead := s.dead + {m}, acked := s.acked + {m}, workers := later.workers) && PcOf(later, w).Idle?
  {
    RunConcat(s, [Read(w, m), DeadLetter(w, Delivered)], [DeadAck(w, Delivered)]);
    RunTwo(s, Read(w, m), DeadLetter(w, Delivered));
    var read := Next(s, Read(w, m));
    assert PcOf(read, w) == DeadLettering(m) && PcOf(Next(read, DeadLetter(w, Delivered)), w) == DeadAcking(m);
    assert [DeadAck(w, Delivered)][..0] == [];
  }

  /** The row of a command whose attempt failed is gone, so that any worker can claim it at any time. */
  predicate FreeAgain(s: Sys, later: Sys, w: string, m: string)
    requires HasCommand(s, m)
  {
    && PcOf(later, w).Idle? && later.acked == s.acked && later.bodies == s.bodies
    && later.journal == s.journal - {s.bodies[m].commandId}
  }

  /** Publishing nothing and giving up: an attempt whose observation or outcome could not be published. */
  lemma FailedAttemptIsAbandoned(s: Sys, w: string, m: string, attempt: nat, index: nat, outcome: P.EventPayload, at: int, fate: Fate)
    requires HasCommand(s, m) && J.Holds(s.journal, s.bodies[m].commandId, w) && fate != Delivered
    requires PcOf(s, w) == Running(m, attempt, index, true) || PcOf(s, w) == Publishing(m, attempt, index, outcome)
    ensures var failed := if PcOf(s, w).Running? then Next(s, RuntimeEnds(w, outcome)) else Next(s, Publish(w, at, fate));
      && FreeAgain(s, Next(failed, Abandon(w, Delivered)), w, m)
      && (fate == Lost || PcOf(s, w).Running? ==> Next(failed, Abandon(w, Delivered)).stream == s.stream)
  {
  }

  lemma FreeAgainIsClaimable(s: Sys, later: Sys, w: string, m: string, other: string, now: int, lease: nat)
    requires HasCommand(s, m) && FreeAgain(s, later, w, m) && PcOf(later, other).Idle?
    ensures CanStart(later, other, m, now, lease)
  {
  }
}
