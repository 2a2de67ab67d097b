/**
 What one delivery of a memory job without a fault does (run_once and _execute of
 apps/agent_service/src/return_agent_service/memory_worker.py): which event it publishes, from
 whatever earlier attempts wrote, and how a failure of the submission is treated.
 */
module MemoryDelivery {
  import opened Common
  import opened MemoryReplay
  import opened MemoryWorker
  import J = Journal

  /** The row of the job, as it is or as the delivery inserts it. */
  function RowOf(rows: Rows, job: Job, promptVersion: string, modelProfile: Option<string>): Row {
    if job.jobId in rows then rows[job.jobId] else Row(job.content, promptVersion, modelProfile, None, None)
  }

  /** The result the event is made of: the stored one, else what the model gives now. */
  function ResultOf(row: Row, output: Option<Output>): Option<Output> { if row.result.Some? then row.result else output }

  /** The event of a job without one: failed without a result, else completed, a candidate with its reference in the store. */
  function NewEvent(refs: map<string, string>, job: Job, row: Row, result: Option<Output>, ref: string, at: int): MemoryEvent {
    match result
    case None => FailedEvent(job.jobId, at, row.promptVersion, "model error")
    case Some(Skip(reason)) => CompletedEvent(job.jobId, at, row.promptVersion, Skip(reason), None)
    case Some(Candidate(c)) => CompletedEvent(job.jobId, at, row.promptVersion, Candidate(c), Some(if c in refs then refs[c] else ref))
  }

  function EventOf(refs: map<string, string>, job: Job, row: Row, output: Option<Output>, ref: string, at: int): MemoryEvent {
    if row.terminalEvent.Some? then row.terminalEvent.value else NewEvent(refs, job, row, ResultOf(row, output), ref, at)
  }

  /** The row afterwards: a job whose event was there already gets no result any more. */
  function RowAfter(row: Row, output: Option<Output>, event: MemoryEvent): Row {
    if row.terminalEvent.Some? then row else row.(result := ResultOf(row, output), terminalEvent := Some(event))
  }

  /** The delivery is under way: nothing is published yet, and the job's row is `row`. */
  predicate UnderWay(s: Sys, now: Sys, w: string, m: string, row: Row)
    requires HasJob(s, m)
  {
    var id := JobOf(s, m).jobId;
    && now.bodies == s.bodies && now.events == s.events && now.acked == s.acked && now.dead == s.dead
    && now.rows == s.rows[id := row] && row.inputHash == JobOf(s, m).content
    && J.Holds(now.journal, id, w) && now.journal == s.journal[id := now.journal[id]]
  }

  predicate CanStart(s: Sys, w: string, m: string, now: int, lease: nat) {
    && HasJob(s, m) && PcOf(s, w).Idle?
    && J.Apply(s.journal, J.ClaimOp(JobOf(s, m).jobId, w, now, lease)).0 == J.ClaimAnswer(J.Claimed)
  }

  lemma Loads(s: Sys, w: string, m: string, now: int, lease: nat, promptVersion: string, modelProfile: Option<string>)
    requires CanStart(s, w, m, now, lease) && Loadable(s.rows, JobOf(s, m), promptVersion, modelProfile)
    ensures var loaded, row := Run(s, Preparation(w, m, now, lease, promptVersion, modelProfile)), RowOf(s.rows, JobOf(s, m), promptVersion, modelProfile);
      && UnderWay(s, loaded, w, m, row) && PcOf(loaded, w) == AfterLoad(m, row)
      && loaded.refs == s.refs && loaded.submitted == s.submitted
  {
    RunThree(s, Read(w, m), Claim(w, now, lease), Load(w, promptVersion, modelProfile, Delivered));
    Claims(s, w, m, now, lease);
    LoadStep(s, Next(Next(s, Read(w, m)), Claim(w, now, lease)), w, m, promptVersion, modelProfile);
  }

  lemma Claims(s: Sys, w: string, m: string, now: int, lease: nat)
    requires CanStart(s, w, m, now, lease)
    ensures var claimed, id := Next(Next(s, Read(w, m)), Claim(w, now, lease)), JobOf(s, m).jobId;
      && PcOf(claimed, w) == Loading(m) && J.Holds(claimed.journal, id, w) && claimed.journal == s.journal[id := claimed.journal[id]]
      && claimed == s.(journal := claimed.journal, workers := claimed.workers)
  {
    var read := Next(s, Read(w, m));
    assert PcOf(read, w) == Claiming(m) && read == s.(workers := read.workers);
  }

  lemma LoadStep(s: Sys, claimed: Sys, w: string, m: string, promptVersion: string, modelProfile: Option<string>)
    requires HasJob(s, m) && Loadable(s.rows, JobOf(s, m), promptVersion, modelProfile)
    requires claimed == s.(journal := claimed.journal, workers := claimed.workers) && PcOf(claimed, w) == Loading(m)
    requires var id := JobOf(s, m).jobId; J.Holds(claimed.journal, id, w) && claimed.journal == s.journal[id := claimed.journal[id]]
    ensures var loaded, row := Next(claimed, Load(w, promptVersion, modelProfile, Delivered)), RowOf(s.rows, JobOf(s, m), promptVersion, modelProfile);
      && UnderWay(s, loaded, w, m, row) && PcOf(loaded, w) == AfterLoad(m, row)
      && loaded.refs == s.refs && loaded.submitted == s.submitted
  {
    var job := JobOf(s, m);
    LoadsExactly(s.rows, job, promptVersion, modelProfile);
    if job.jobId in s.rows { assert s.rows == s.rows[job.jobId := s.rows[job.jobId]]; }
  }

  /** After the model had its turn: the result is stored, or there is none and the failure is to be stored. */
  predicate Distilled(s: Sys, now: Sys, w: string, m: string, row: Row, output: Option<Output>, at: int)
    requires HasJob(s, m)
  {
    && UnderWay(s, now, w, m, if row.terminalEvent.Some? then row else row.(result := ResultOf(row, output)))
    && PcOf(now, w) ==
         if row.terminalEvent.Some? then Publishing(m, row.terminalEvent.value)
         else
           match ResultOf(row, output)
           case Some(result) => Submitting(m, result, row.promptVersion)
           case None => SavingEvent(m, FailedEvent(JobOf(s, m).jobId, at, row.promptVersion, "model error"))
  }

  lemma Distils(s: Sys, now: Sys, w: string, m: string, row: Row, output: Option<Output>, at: int)
    requires HasJob(s, m) && UnderWay(s, now, w, m, row) && PcOf(now, w) == AfterLoad(m, row)
    ensures var later := Run(now, Distillation(w, output, at));
      Distilled(s, later, w, m, row, output, at) && later.refs == now.refs && later.submitted == now.submitted
  {
    RunTwo(now, Distill(w, output, "model error", at), SaveResult(w, Delivered));
    if row.terminalEvent.Some? {
      assert PcOf(now, w).Publishing?;
    } else if row.result.Some? {
      assert PcOf(now, w).Submitting? && row.(result := row.result) == row;
    } else {
      Models(s, now, w, m, row, output, at);
    }
  }

  lemma Models(s: Sys, now: Sys, w: string, m: string, row: Row, output: Option<Output>, at: int)
    requires HasJob(s, m) && UnderWay(s, now, w, m, row) && PcOf(now, w) == Distilling(m, row.promptVersion)
    requires row.terminalEvent.None? && row.result.None?
    ensures var later := Next(Next(now, Distill(w, output, "model error", at)), SaveResult(w, Delivered));
      Distilled(s, later, w, m, row, output, at) && later.refs == now.refs && later.submitted == now.submitted
  {
    var id, distilled := JobOf(s, m).jobId, Next(now, Distill(w, output, "model error", at));
    assert JobOf(now, m) == JobOf(s, m);
    assert distilled == now.(workers := distilled.workers);
    if output.Some? {
      assert PcOf(distilled, w) == SavingResult(m, output.value);
      assert s.rows[id := row][id := row.(result := output)] == s.rows[id := row.(result := output)];
    } else {
      assert row.(result := output) == row;
    }
  }

  /** The candidate of the result reaches the store, once more or for the first time. */
  predicate Sent(s: Sys, now: Sys, m: string, row: Row, output: Option<Output>, ref: string)
    requires HasJob(s, m)
  {
    var result := ResultOf(row, output);
    if row.terminalEvent.None? && result.Some? && result.value.Candidate? then
      var c := result.value.candidate;
      && now.refs == s.refs[c := if c in s.refs then s.refs[c] else ref]
      && now.submitted == s.submitted + [(JobOf(s, m).jobId, c)]
    else now.refs == s.refs && now.submitted == s.submitted
  }

  lemma Submits(s: Sys, now: Sys, w: string, m: string, row: Row, output: Option<Output>, ref: string, at: int)
    requires HasJob(s, m) && Distilled(s, now, w, m, row, output, at) && now.refs == s.refs && now.submitted == s.submitted
    ensures var later := Run(now, Submission(w, ref, at));
      && UnderWay(s, later, w, m, if row.terminalEvent.Some? then row else row.(result := ResultOf(row, output)))
      && Sent(s, later, m, row, output, ref)
      && PcOf(later, w) ==
           if row.terminalEvent.Some? then Publishing(m, row.terminalEvent.value)
           else SavingEvent(m, NewEvent(s.refs, JobOf(s, m), row, ResultOf(row, output), ref, at))
  {
    RunOne(now, Submit(w, ref, at, Accepted));
    var result := ResultOf(row, output);
    if row.terminalEvent.None? && result.Some? {
      assert PcOf(now, w) == Submitting(m, result.value, row.promptVersion);
      assert JobOf(now, m) == JobOf(s, m);
    }
  }

  /** The event is stored, published, and its job finished and acknowledged. */
  lemma Settles(s: Sys, now: Sys, w: string, m: string, row: Row, event: MemoryEvent)
    requires HasJob(s, m) && UnderWay(s, now, w, m, row)
    requires PcOf(now, w) == if row.terminalEvent.Some? then Publishing(m, event) else SavingEvent(m, event)
    requires row.terminalEvent.Some? ==> row.terminalEvent.value == event
    ensures var later, id := Run(now, Settlement(w)), JobOf(s, m).jobId;
      && PcOf(later, w).Idle? && later.acked == s.acked + {m} && later.events == s.events + [event]
      && later.rows == s.rows[id := row.(terminalEvent := Some(event))]
      && later.journal == s.journal[id := J.Row(if event.FailedEvent? then J.Failed else J.Completed, None, None)]
      && later.refs == now.refs && later.submitted == now.submitted && later.bodies == s.bodies && later.dead == s.dead
  {
    RunFour(now, SaveEvent(w, Delivered), Publish(w, Delivered), Finish(w, Delivered), Ack(w, Delivered));
    EventIsSaved(s, now, w, m, row, event);
    EventIsSent(s, Next(now, SaveEvent(w, Delivered)), w, m, row.(terminalEvent := Some(event)), event);
  }

  lemma EventIsSent(s: Sys, saved: Sys, w: string, m: string, row: Row, event: MemoryEvent)
    requires HasJob(s, m) && UnderWay(s, saved, w, m, row) && PcOf(saved, w) == Publishing(m, event)
    ensures var later, id := Next(Next(Next(saved, Publish(w, Delivered)), Finish(w, Delivered)), Ack(w, Delivered)), JobOf(s, m).jobId;
      && PcOf(later, w).Idle? && later.acked == s.acked + {m} && later.events == s.events + [event] && later.rows == s.rows[id := row]
      && later.journal == s.journal[id := J.Row(if event.FailedEvent? then J.Failed else J.Completed, None, None)]
      && later.refs == saved.refs && later.submitted == saved.submitted && later.bodies == s.bodies && later.dead == s.dead
  {
    var id, published := JobOf(s, m).jobId, Next(saved, Publish(w, Delivered));
    assert PcOf(published, w) == Finishing(m, event) && published.journal == saved.journal && JobOf(published, m) == JobOf(s, m);
    Finishes(published, w, m, event);
    assert s.journal[id := saved.journal[id]][id := J.Row(if event.FailedEvent? then J.Failed else J.Completed, None, None)]
        == s.journal[id := J.Row(if event.FailedEvent? then J.Failed else J.Completed, None, None)];
  }

  lemma Finishes(s: Sys, w: string, m: string, event: MemoryEvent)
    requires HasJob(s, m) && PcOf(s, w) == Finishing(m, event) && J.Holds(s.journal, JobOf(s, m).jobId, w)
    ensures var later := Next(Next(s, Finish(w, Delivered)), Ack(w, Delivered));
      && PcOf(later, w).Idle?
      && later == s.(acked := s.acked + {m}, workers := later.workers,
                     journal := s.journal[JobOf(s, m).jobId := J.Row(if event.FailedEvent? then J.Failed else J.Completed, None, None)])
  {
    assert PcOf(Next(s, Finish(w, Delivered)), w) == Acking(m);
  }

  lemma EventIsSaved(s: Sys, now: Sys, w: string, m: string, row: Row, event: MemoryEvent)
    requires HasJob(s, m) && UnderWay(s, now, w, m, row)
    requires PcOf(now, w) == if row.terminalEvent.Some? then Publishing(m, event) else SavingEvent(m, event)
    requires row.terminalEvent.Some? ==> row.terminalEvent.value == event
    ensures var saved := Next(now, SaveEvent(w, Delivered));
      && UnderWay(s, saved, w, m, row.(terminalEvent := Some(event))) && PcOf(saved, w) == Publishing(m, event)
      && saved.refs == now.refs && saved.submitted == now.submitted && saved.journal == now.journal
  {
    var id := JobOf(s, m).jobId;
    if row.terminalEvent.None? {
      assert s.rows[id := row][id := row.(terminalEvent := Some(event))] == s.rows[id := row.(terminalEvent := Some(event))];
    } else {
      assert row.(terminalEvent := Some(event)) == row;
    }
  }

  /**
   A delivery without faults, exactly: the stored event if there is one; else the event of the
   stored result; else what the model gives, stored before it is submitted.  The event is stored
   and published, the job Failed if the event is a failure and Completed otherwise, and the
   message acknowledged.
   */
  lemma DeliveryIsExact(s: Sys, w: string, m: string, now: int, lease: nat, promptVersion: string, modelProfile: Option<string>,
                        output: Option<Output>, ref: string, at: int)
    requires CanStart(s, w, m, now, lease) && Loadable(s.rows, JobOf(s, m), promptVersion, modelProfile)
    ensures var job := JobOf(s, m);
      var row := RowOf(s.rows, job, promptVersion, modelProfile);
      var event := EventOf(s.refs, job, row, output, ref, at);
      var later := Run(s, Delivery(w, m, now, lease, promptVersion, modelProfile, output, ref, at));
      && PcOf(later, w).Idle? && later.acked == s.acked + {m} && later.events == s.events + [event]
      && later.rows == s.rows[job.jobId := RowAfter(row, output, event)]
      && later.journal == s.journal[job.jobId := J.Row(if event.FailedEvent? then J.Failed else J.Completed, None, None)]
      && Sent(s, later, m, row, output, ref)
  {
    var prepare, distil, submit := Preparation(w, m, now, lease, promptVersion, modelProfile), Distillation(w, output, at), Submission(w, ref, at);
    RunConcat(s, prepare, distil);
    RunConcat(s, prepare + distil, submit);
    RunConcat(s, prepare + distil + submit, Settlement(w));
    var row := RowOf(s.rows, JobOf(s, m), promptVersion, modelProfile);
    Loads(s, w, m, now, lease, promptVersion, modelProfile);
    var loaded := Run(s, prepare);
    Distils(s, loaded, w, m, row, output, at);
    var distilled := Run(loaded, distil);
    Submits(s, distilled, w, m, row, output, ref, at);
    var event := EventOf(s.refs, JobOf(s, m), row, output, ref, at);
    Settles(s, Run(distilled, submit), w, m, if row.terminalEvent.Some? then row else row.(result := ResultOf(row, output)), event);
  }

  /** A job that is finished already is acknowledged, and nothing else happens. */
  lemma FinishedIsAcknowledged(s: Sys, w: string, m: string, now: int, lease: nat)
    requires PcOf(s, w).Idle? && HasJob(s, m) && J.Finished(s.journal, JobOf(s, m).jobId)
    ensures var later := Run(s, [Read(w, m), Claim(w, now, lease), Ack(w, Delivered)]);
      later == s.(acked := s.acked + {m}, workers := later.workers) && PcOf(later, w).Idle?
  {
    RunThree(s, Read(w, m), Claim(w, now, lease), Ack(w, Delivered));
    var read := Next(s, Read(w, m));
    assert PcOf(read, w) == Claiming(m) && PcOf(Next(read, Claim(w, now, lease)), w) == Acking(m);
  }

  /** An unreadable message is dead-lettered and acknowledged, and touches nothing else. */
  lemma GarbageIsDeadLettered(s: Sys, w: string, m: string)
    requires PcOf(s, w).Idle? && m in s.bodies && s.bodies[m].Garbage?
    ensures var later := Run(s, [Read(w, m), DeadLetter(w, Delivered), DeadAck(w, Delivered)]);
      later == s.(dead := s.dead + {m}, acked := s.acked + {m}, workers := later.workers) && PcOf(later, w).Idle?
  {
    RunThree(s, Read(w, m), DeadLetter(w, Delivered), DeadAck(w, Delivered));
    var read := Next(s, Read(w, m));
    assert PcOf(read, w) == DeadLettering(m) && PcOf(Next(read, DeadLetter(w, Delivered)), w) == DeadAcking(m);
  }

  /** A transport failure of the submission gives the job up with its result stored, for the next delivery to submit again. */
  lemma TransportFailureIsRetried(s: Sys, w: string, m: string, candidate: string, promptVersion: string, ref: string, at: int, effect: bool)
    requires HasJob(s, m) && PcOf(s, w) == Submitting(m, Candidate(candidate), promptVersion) && J.Holds(s.journal, JobOf(s, m).jobId, w)
    ensures var later := Run(s, [Submit(w, ref, at, Transient(effect)), Abandon(w, Delivered)]);
      && PcOf(later, w).Idle? && later.rows == s.rows && later.events == s.events && later.acked == s.acked
      && later.journal == s.journal - {JobOf(s, m).jobId}
  {
    RunTwo(s, Submit(w, ref, at, Transient(effect)), Abandon(w, Delivered));
    assert PcOf(Next(s, Submit(w, ref, at, Transient(effect))), w) == Abandoning(m);
  }

  /** A refused submission is a failure of the job: its event says so, unless one was stored before. */
  lemma RefusalFailsJob(s: Sys, now: Sys, w: string, m: string, row: Row, candidate: string, ref: string, at: int, effect: bool, error: string)
    requires HasJob(s, m) && UnderWay(s, now, w, m, row) && row.terminalEvent.None?
    requires PcOf(now, w) == Submitting(m, Candidate(candidate), row.promptVersion)
    ensures var event := FailedEvent(JobOf(s, m).jobId, at, row.promptVersion, error);
      var later := Run(Next(now, Submit(w, ref, at, Refused(effect, error))), Settlement(w));
      && later.acked == s.acked + {m} && later.events == s.events + [event]
      && later.rows == s.rows[JobOf(s, m).jobId := row.(terminalEvent := Some(event))]
      && later.journal == s.journal[JobOf(s, m).jobId := J.Row(J.Failed, None, None)]
  {
    var refused := Next(now, Submit(w, ref, at, Refused(effect, error)));
    assert JobOf(now, m) == JobOf(s, m) && UnderWay(s, refused, w, m, row);
    Settles(s, refused, w, m, row, FailedEvent(JobOf(s, m).jobId, at, row.promptVersion, error));
  }
}
