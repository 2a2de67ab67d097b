/**
 What one pass of the memory enqueue worker without a fault comes to (run_once of
 apps/agent_service/src/return_agent_service/memory_enqueue_worker.py), event by event and
 payment by payment, and why an acknowledged event may have left nothing behind.
 */
module EnqueueRounds {
  import opened Common
  import opened Completion
  import opened MemoryEnqueue

  /** The checkpoint's input is about this event's case, resolution and thread. */
  predicate Matches(event: EventBody, input: Input) {
    && event.Resolved?
    && input.caseRef == event.caseRef && input.finalResolution == event.handoff
    && (input.traceThread.Some? ==> input.traceThread.value == event.threadId)
  }

  /** There is an input for the event, and it matches. */
  predicate Usable(event: EventBody, input: Option<Input>) { input.Some? && Matches(event, input.value) }

  /** The job of an event: its id names the resolution, the rest comes from the event and the input. */
  function JobOf(event: EventBody, input: Input, now: int): Job
    requires event.Resolved?
  {
    Job("memory-v2:" + event.handoff.handoffId, event.commandId, event.caseRef, event.threadId, now, input)
  }

  /** An event that is not a resolution, or has no input of its own, is acknowledged and leaves nothing but its note. */
  lemma UselessEventIsAcknowledged(s: Sys, w: string, m: string, input: Option<Input>, now: int)
    requires PcOf(s, w) == Handling(m) && m in s.events && !Usable(s.events[m], input)
    ensures var later := Next(Next(s, Handle(w, input, now)), AckEvent(w));
      && PcOf(later, w).Idle? && later.ackedEvents == s.ackedEvents + {m}
      && later.rows == s.rows && later.jobs == s.jobs && later.ackedPayments == s.ackedPayments
      && later.skipped == if s.events[m].Resolved? then s.skipped + {m} else s.skipped
  {
  }

  /** The job of a resolution without a v2 refund is published at once, and the event acknowledged. */
  lemma PlainJobIsPublished(s: Sys, w: string, m: string, input: Input, now: int)
    requires PcOf(s, w) == Handling(m) && m in s.events && Matches(s.events[m], input)
    requires !(input.v2 && input.finalResolution.fullRefund)
    ensures var later := Next(Next(Next(s, Handle(w, Some(input), now)), PublishDirect(w)), AckEvent(w));
      && PcOf(later, w).Idle? && later.ackedEvents == s.ackedEvents + {m}
      && later.jobs == s.jobs + [JobOf(s.events[m], input, now)]
      && later.rows == s.rows && later.skipped == s.skipped
  {
  }

  /** The job of a v2 refund is stored as the correction half of its join; a refused half leaves the event unacknowledged. */
  lemma RefundJobIsStored(s: Sys, w: string, m: string, input: Input, now: int)
    requires PcOf(s, w) == Handling(m) && m in s.events && Matches(s.events[m], input)
    requires input.v2 && input.finalResolution.fullRefund && w in s.joined
    ensures var half := CorrectionHalf(JobOf(s.events[m], input, now));
      var (ok, rows) := RecordTx(s.rows, half);
      var later := Next(Next(Next(s, Handle(w, Some(input), now)), Correct(w)), AckEvent(w));
      && PcOf(later, w).Idle? && later.jobs == s.jobs && later.skipped == s.skipped
      && later.rows == (if ok then rows else s.rows)
      && later.ackedEvents == if ok then s.ackedEvents + {m} else s.ackedEvents
  {
    var handled := Next(s, Handle(w, Some(input), now));
    assert PcOf(handled, w) == Correcting(m, JobOf(s.events[m], input, now));
  }

  /** Without a completion store a v2 refund's event stays as it is. */
  lemma RefundWaitsForStore(s: Sys, w: string, m: string, input: Input, now: int)
    requires PcOf(s, w) == Handling(m) && m in s.events && Matches(s.events[m], input)
    requires input.v2 && input.finalResolution.fullRefund && w !in s.joined
    ensures Next(s, Handle(w, Some(input), now)) == At(s, w, Idle)
  {
  }

  /** A payment fact is booked and acknowledged, or, if it is refused or unreadable, left alone. */
  lemma PaymentIsBooked(s: Sys, w: string, m: string)
    requires PcOf(s, w).Idle? && w in s.joined && m in s.payments
    ensures var later := Next(Next(Next(s, ReadCompletion(w, Some(m))), Apply(w)), AckCompletion(w));
      && later.jobs == s.jobs && later.ackedEvents == s.ackedEvents && later.skipped == s.skipped
      && if s.payments[m].PaymentBody? && RecordTx(s.rows, AppliedHalf(s.payments[m].event)).0
         then later.rows == RecordTx(s.rows, AppliedHalf(s.payments[m].event)).1
              && later.ackedPayments == s.ackedPayments + {m} && PcOf(later, w).Picking?
         else later.rows == s.rows && later.ackedPayments == s.ackedPayments && PcOf(later, w).Idle?
  {
    var read := Next(s, ReadCompletion(w, Some(m)));
    assert PcOf(read, w) == Applying(m) && read.rows == s.rows;
  }

  /** A joined row that is offered has its job published, and is offered no more. */
  lemma JoinedJobIsPublished(s: Sys, w: string, ref: string)
    requires PcOf(s, w).Picking? && RowsOk(s.rows) && Ready(s.rows, ref)
    ensures var later := Next(Next(Next(s, Pick(w, Some(ref))), PublishJoined(w)), MarkPublished(w));
      && PcOf(later, w).Idle? && later.jobs == s.jobs + [s.rows[ref].correction.value]
      && later.rows == s.rows[ref := s.rows[ref].(published := true)] && !Ready(later.rows, ref)
      && later.ackedEvents == s.ackedEvents && later.ackedPayments == s.ackedPayments
  {
    assert RowOk(ref, s.rows[ref]);
    var picked := Next(s, Pick(w, Some(ref)));
    assert PcOf(picked, w) == PublishingJoined(s.rows[ref].correction.value) && picked.rows == s.rows;
  }

  /**
   When a worker reads an agent event: at the start of a pass if it has no completion store, and
   otherwise only after it found no joined job to publish; at no other time does reading do anything.
   */
  lemma EventIsReadLast(s: Sys, w: string, m: Option<string>)
    ensures var later := Next(s, ReadEvent(w, m));
      if PcOf(s, w).Reading? || (PcOf(s, w).Idle? && w !in s.joined) then
        && (m.None? ==> later == At(s, w, Idle))
        && (m.Some? && m.value in s.events ==> later == At(s, w, Handling(m.value)))
        && (m.Some? && m.value !in s.events ==> later == s)
      else later == s
    ensures w in s.joined && PcOf(s, w).Idle? ==>
      Next(Next(s, ReadCompletion(w, None)), Pick(w, None)) == At(At(s, w, Picking), w, Reading)
    ensures !(w in s.joined && PcOf(s, w).Idle?) ==> Next(s, ReadCompletion(w, m)) == s
  {
  }

  // ------------------------------------------------------------------ why an event was skipped

  /** The step handled the event without an input that matches it. */
  predicate HandlesUselessly(s: Sys, step: Step, m: string) {
    step.Handle? && PcOf(s, step.w) == Handling(m) && m in s.events && !Usable(s.events[m], step.input)
  }

  lemma SkippingStep(s: Sys, step: Step, m: string)
    requires m in Next(s, step).skipped && m !in s.skipped
    ensures HandlesUselessly(s, step, m)
  {
  }

  /** An event is skipped only by a pass whose checkpoint had no input for it, or one of another case, resolution or thread. */
  lemma {:induction false} SkippedForCause(payments: map<string, CompletionBody>, events: map<string, EventBody>, joined: set<string>,
                                           steps: seq<Step>, m: string)
    requires m in RunSteps(Start(payments, events, joined), steps).skipped
    ensures exists i :: 0 <= i < |steps| && HandlesUselessly(RunSteps(Start(payments, events, joined), steps[..i]), steps[i], m)
  {
    var init, last := steps[..|steps| - 1], steps[|steps| - 1];
    var s := RunSteps(Start(payments, events, joined), init);
    if m in s.skipped {
      SkippedForCause(payments, events, joined, init, m);
      var i :| 0 <= i < |init| && HandlesUselessly(RunSteps(Start(payments, events, joined), init[..i]), init[i], m);
      assert init[..i] == steps[..i] && init[i] == steps[i];
    } else {
      SkippingStep(s, last, m);
    }
  }

  /**
   An acknowledged event that was always handled with its own input has its job: stored in its
   join if it waits for a payment, and sent otherwise.
   */
  lemma AcknowledgedHasJob(payments: map<string, CompletionBody>, events: map<string, EventBody>, joined: set<string>,
                           steps: seq<Step>, m: string)
    requires var s := RunSteps(Start(payments, events, joined), steps); m in s.ackedEvents && m in events && events[m].Resolved?
    requires forall i :: 0 <= i < |steps| ==> !HandlesUselessly(RunSteps(Start(payments, events, joined), steps[..i]), steps[i], m)
    ensures var s := RunSteps(Start(payments, events, joined), steps); MemoryEnqueue.Corrected(s, events[m]) || Sent(s, events[m])
  {
    AcknowledgedMeansDurable(payments, events, joined, steps, m);
    BodiesStay(payments, events, joined, steps);
    if m in RunSteps(Start(payments, events, joined), steps).skipped { SkippedForCause(payments, events, joined, steps, m); }
  }
}
