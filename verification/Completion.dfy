/**
 The join of correction input and APPLIED payment facts
 (apps/agent_service/src/return_agent_service/memory_completion.py): one row per resolution,
 two write-once halves that may arrive in either order and any number of times.
 A resolution hash is the resolution itself, or a text that hashes nothing.
 */
module Completion {
  import opened Common

  const AUTHORIZATION := "authorization:"

  datatype Resolution = Resolution(handoffId: string, caseRef: string, fullRefund: bool, content: string)

  datatype Digest = HashOf(resolution: Resolution) | OtherHash(text: string)

  datatype Input = Input(caseRef: string, v2: bool, finalResolution: Resolution, traceThread: Option<string>, content: string)

  datatype Job = Job(jobId: string, sourceCommandId: string, caseRef: string, threadId: string, issuedAt: int, input: Input)

  datatype Applied = Applied(caseRef: string, resolutionRef: string, authorizationRef: string, resolutionHash: Digest, content: string)

  /** A delivery of one half of the join. */
  datatype Half = CorrectionHalf(job: Job) | AppliedHalf(event: Applied)

  datatype Row = Row(caseRef: string, digest: Digest, correction: Option<Job>, applied: Option<Applied>, published: bool)

  type Rows = map<string, Row>

  function RefOf(half: Half): string {
    match half
    case CorrectionHalf(job) => job.input.finalResolution.handoffId
    case AppliedHalf(event) => event.resolutionRef
  }

  function CaseOf(half: Half): string {
    match half
    case CorrectionHalf(job) => job.caseRef
    case AppliedHalf(event) => event.caseRef
  }

  function DigestOf(half: Half): Digest {
    match half
    case CorrectionHalf(job) => HashOf(job.input.finalResolution)
    case AppliedHalf(event) => event.resolutionHash
  }

  /** Jobs are compared without the time they were issued. */
  function Timeless(job: Job): Job { job.(issuedAt := 0) }

  predicate Authorized(half: Half) {
    half.AppliedHalf? ==> half.event.authorizationRef == AUTHORIZATION + half.event.resolutionRef
  }

  /** correction, applied and _record: one transaction; false is a raised ValueError, which rolls back. */
  function RecordTx(rows: Rows, half: Half): (bool, Rows) {
    var ref := RefOf(half);
    var row := if ref in rows then rows[ref] else Row(CaseOf(half), DigestOf(half), None, None, false);
    if !Authorized(half) || row.caseRef != CaseOf(half) || row.digest != DigestOf(half) then (false, rows)
    else
      match half
      case CorrectionHalf(job) =>
        if row.correction.Some? then (Timeless(row.correction.value) == Timeless(job), rows)
        else (true, rows[ref := row.(correction := Some(job))])
      case AppliedHalf(event) =>
        if row.applied.Some? then (row.applied.value == event, rows)
        else (true, rows[ref := row.(applied := Some(event))])
  }

  /** published: an update by key, without effect on a missing row. */
  function MarkTx(rows: Rows, ref: string): Rows {
    if ref in rows then rows[ref := rows[ref].(published := true)] else rows
  }

  /** The rows next_job selects from. */
  predicate Ready(rows: Rows, ref: string) {
    ref in rows && !rows[ref].published && rows[ref].correction.Some? && rows[ref].applied.Some?
  }

  /** Both halves of a row are about the row's resolution, and the payment fact names its authorization. */
  predicate RowOk(ref: string, row: Row) {
    && (row.correction.Some? ==>
          var half := CorrectionHalf(row.correction.value);
          RefOf(half) == ref && CaseOf(half) == row.caseRef && DigestOf(half) == row.digest)
    && (row.applied.Some? ==>
          var half := AppliedHalf(row.applied.value);
          RefOf(half) == ref && CaseOf(half) == row.caseRef && DigestOf(half) == row.digest && Authorized(half))
  }

  predicate RowsOk(rows: Rows) {
    forall ref :: ref in rows ==> RowOk(ref, rows[ref])
  }

  /** Rows are never deleted, their halves never change and a published row stays published. */
  predicate Preserves(rows: Rows, later: Rows) {
    forall ref :: ref in rows ==>
      && ref in later
      && later[ref].caseRef == rows[ref].caseRef && later[ref].digest == rows[ref].digest
      && (rows[ref].correction.Some? ==> later[ref].correction == rows[ref].correction)
      && (rows[ref].applied.Some? ==> later[ref].applied == rows[ref].applied)
      && (rows[ref].published ==> later[ref].published)
  }

  /** An accepted delivery is in its row, up to the time of issue; every other row is as before. */
  lemma {:induction false} RecordKeepsRows(rows: Rows, half: Half)
    requires RowsOk(rows)
    ensures var (ok, later) := RecordTx(rows, half);
      && RowsOk(later) && Preserves(rows, later)
      && (!ok ==> later == rows)
      && (forall ref :: ref != RefOf(half) ==> (ref in later <==> ref in rows) && (ref in rows ==> later[ref] == rows[ref]))
      && (forall ref :: ref in later ==> (later[ref].published <==> ref in rows && rows[ref].published))
      && (ok && half.CorrectionHalf? ==>
            && RefOf(half) in later && later[RefOf(half)].correction.Some?
            && Timeless(later[RefOf(half)].correction.value) == Timeless(half.job))
      && (ok && half.AppliedHalf? ==> RefOf(half) in later && later[RefOf(half)].applied == Some(half.event))
  {
    var (ok, later) := RecordTx(rows, half);
    forall ref | ref in later
      ensures RowOk(ref, later[ref])
    {
      if ref in rows { assert RowOk(ref, rows[ref]); }
    }
  }

  /** The row the delivery is bound to, if there is one, is of its case and its resolution. */
  predicate BoundTo(rows: Rows, half: Half) {
    RefOf(half) in rows ==> rows[RefOf(half)].caseRef == CaseOf(half) && rows[RefOf(half)].digest == DigestOf(half)
  }

  /** The half is not stored yet, or stored with this content, a correction up to its time of issue. */
  predicate NewOrSame(rows: Rows, half: Half) {
    RefOf(half) in rows ==>
      var row := rows[RefOf(half)];
      match half
      case CorrectionHalf(job) => row.correction.Some? ==> row.correction.value.(issuedAt := job.issuedAt) == job
      case AppliedHalf(event) => row.applied.Some? ==> row.applied.value == event
  }

  /** Which deliveries are accepted, exactly; a half that is stored stays the one that came first. */
  lemma RecordAcceptsExactly(rows: Rows, half: Half)
    ensures var (ok, later) := RecordTx(rows, half);
      && (ok <==>
            && (half.AppliedHalf? ==> half.event.authorizationRef == "authorization:" + half.event.resolutionRef)
            && BoundTo(rows, half) && NewOrSame(rows, half))
      && (ok ==>
            && RefOf(half) in later && later == rows[RefOf(half) := later[RefOf(half)]]
            && var was, now := (if RefOf(half) in rows then rows[RefOf(half)] else Row(CaseOf(half), DigestOf(half), None, None, false)), later[RefOf(half)];
            && now == was.(correction := now.correction, applied := now.applied)
            && now.correction == (if was.correction.None? && half.CorrectionHalf? then Some(half.job) else was.correction)
            && now.applied == (if half.AppliedHalf? then Some(half.event) else was.applied))
  {
  }

  // ------------------------------------------------------------------ any order, any repetition

  datatype Op = Deliver(half: Half) | Mark(ref: string)

  function Apply(rows: Rows, op: Op): Rows {
    match op
    case Deliver(half) => RecordTx(rows, half).1
    case Mark(ref) => MarkTx(rows, ref)
  }

  function Run(ops: seq<Op>): Rows {
    if ops == [] then map[] else Apply(Run(ops[..|ops| - 1]), ops[|ops| - 1])
  }

  predicate DeliversTo(op: Op, ref: string) { op.Deliver? && RefOf(op.half) == ref }

  predicate Delivered(ops: seq<Op>, ref: string) { exists i :: 0 <= i < |ops| && DeliversTo(ops[i], ref) }

  predicate Corrects(op: Op, ref: string) { DeliversTo(op, ref) && op.half.CorrectionHalf? }

  predicate Corrected(ops: seq<Op>, ref: string) { exists i :: 0 <= i < |ops| && Corrects(ops[i], ref) }

  predicate Pays(op: Op, ref: string) { DeliversTo(op, ref) && op.half.AppliedHalf? }

  predicate Paid(ops: seq<Op>, ref: string) { exists i :: 0 <= i < |ops| && Pays(ops[i], ref) }

  /** The row was marked after it came into being. */
  predicate Marked(ops: seq<Op>, ref: string) {
    exists k :: 0 <= k < |ops| && ops[k] == Mark(ref) && Delivered(ops[..k], ref)
  }

  /** The two halves belong together. */
  predicate Pair(job: Job, event: Applied) {
    && RefOf(CorrectionHalf(job)) == event.resolutionRef
    && job.caseRef == event.caseRef
    && HashOf(job.input.finalResolution) == event.resolutionHash
    && Authorized(AppliedHalf(event))
  }

  predicate Fits(op: Op, job: Job, event: Applied) {
    DeliversTo(op, event.resolutionRef) ==>
      match op.half
      case CorrectionHalf(other) => Timeless(other) == Timeless(job)
      case AppliedHalf(other) => other == event
  }

  /** Every delivery to the resolution is one of the two halves; deliveries to other resolutions are arbitrary. */
  predicate Matching(ops: seq<Op>, job: Job, event: Applied) {
    forall i :: 0 <= i < |ops| ==> Fits(ops[i], job, event)
  }

  /** The state of the row is a function of what was delivered, not of the order or the number of deliveries. */
  predicate Joined(rows: Rows, ops: seq<Op>, job: Job, event: Applied) {
    var ref := event.resolutionRef;
    && (ref in rows <==> Delivered(ops, ref))
    && (ref in rows ==>
          && rows[ref].caseRef == event.caseRef
          && rows[ref].digest == event.resolutionHash
          && (rows[ref].correction.Some? <==> Corrected(ops, ref))
          && (rows[ref].correction.Some? ==> Timeless(rows[ref].correction.value) == Timeless(job))
          && rows[ref].applied == (if Paid(ops, ref) then Some(event) else None)
          && (rows[ref].published <==> Marked(ops, ref)))
  }

  lemma Prefixes(ops: seq<Op>, op: Op, ref: string)
    ensures Delivered(ops + [op], ref) <==> Delivered(ops, ref) || DeliversTo(op, ref)
    ensures Corrected(ops + [op], ref) <==> Corrected(ops, ref) || Corrects(op, ref)
    ensures Paid(ops + [op], ref) <==> Paid(ops, ref) || Pays(op, ref)
    ensures Marked(ops + [op], ref) <==> Marked(ops, ref) || (op == Mark(ref) && Delivered(ops, ref))
  {
    var all := ops + [op];
    assert all[|ops|] == op;
    assert forall i :: 0 <= i < |ops| ==> all[i] == ops[i];
    assert forall k :: 0 <= k <= |ops| ==> all[..k] == ops[..k];
    assert ops[..|ops|] == ops;
  }

  lemma JoinStep(rows: Rows, ops: seq<Op>, op: Op, job: Job, event: Applied)
    requires Pair(job, event) && Fits(op, job, event) && Joined(rows, ops, job, event)
    ensures Joined(Apply(rows, op), ops + [op], job, event)
  {
    var ref := event.resolutionRef;
    Prefixes(ops, op, ref);
    if !DeliversTo(op, ref) {
      if op.Deliver? {
        var later := RecordTx(rows, op.half).1;
        assert ref in later <==> ref in rows;
        assert ref in rows ==> later[ref] == rows[ref];
      }
    } else if op.half.CorrectionHalf? {
      assert !Pays(op, ref) && Corrects(op, ref);
    } else {
      assert Pays(op, ref) && !Corrects(op, ref);
    }
  }

  lemma {:induction false} JoinDependsOnDeliveries(ops: seq<Op>, job: Job, event: Applied)
    requires Pair(job, event) && Matching(ops, job, event)
    ensures Joined(Run(ops), ops, job, event)
  {
    if ops != [] {
      var init, op := ops[..|ops| - 1], ops[|ops| - 1];
      assert Matching(init, job, event);
      assert Fits(op, job, event);
      JoinDependsOnDeliveries(init, job, event);
      assert ops == init + [op];
      JoinStep(Run(init), init, op, job, event);
    }
  }

  /** Two schedules of the same two halves leave the same row up to the time of issue. */
  lemma SchedulesConverge(ops: seq<Op>, others: seq<Op>, job: Job, event: Applied)
    requires Pair(job, event) && Matching(ops, job, event) && Matching(others, job, event)
    requires var ref := event.resolutionRef; Corrected(ops, ref) && Paid(ops, ref) && Corrected(others, ref) && Paid(others, ref)
    ensures var ref, here, there := event.resolutionRef, Run(ops), Run(others);
      && ref in here && ref in there
      && here[ref].correction.Some? && there[ref].correction.Some?
      && Timeless(here[ref].correction.value) == Timeless(there[ref].correction.value)
      && here[ref].(correction := None, published := false) == there[ref].(correction := None, published := false)
  {
    JoinDependsOnDeliveries(ops, job, event);
    JoinDependsOnDeliveries(others, job, event);
  }

  /** A job is offered exactly when both halves were delivered and the row was not marked since. */
  lemma OfferedExactlyWhenJoined(ops: seq<Op>, job: Job, event: Applied)
    requires Pair(job, event) && Matching(ops, job, event)
    ensures var ref := event.resolutionRef;
      Ready(Run(ops), ref) <==> Corrected(ops, ref) && Paid(ops, ref) && !Marked(ops, ref)
  {
    JoinDependsOnDeliveries(ops, job, event);
    var ref := event.resolutionRef;
    if Corrected(ops, ref) {
      var i :| 0 <= i < |ops| && Corrects(ops[i], ref);
      assert DeliversTo(ops[i], ref);
    }
  }

  // ------------------------------------------------------------------ the store

  /** Order of resolution references, by code points. */
  predicate Before(a: string, b: string)
    decreases |a|
  {
    if a == [] || b == [] then a == [] && b != [] else a[0] < b[0] || (a[0] == b[0] && Before(a[1..], b[1..]))
  }

  lemma {:induction false} BeforeIsTotal(a: string, b: string)
    ensures Before(a, b) || Before(b, a) || a == b
    decreases |a|
  {
    if a != [] && b != [] && a[0] == b[0] {
      BeforeIsTotal(a[1..], b[1..]);
      assert a == [a[0]] + a[1..] && b == [b[0]] + b[1..];
    }
  }

  lemma {:induction false} BeforeIsTransitive(a: string, b: string, c: string)
    requires Before(a, b) && Before(b, c)
    ensures Before(a, c)
    decreases |a|
  {
    if a != [] && a[0] == b[0] == c[0] {
      BeforeIsTransitive(a[1..], b[1..], c[1..]);
    }
  }

  /** `ref` is the ready row that next_job's ordering puts first. */
  ghost predicate First(rows: Rows, ref: string) {
    Ready(rows, ref) && forall other :: Ready(rows, other) && other != ref ==> Before(ref, other)
  }

  class MemoryCompletionStore {
    var rows: Rows

    constructor ()
      ensures rows == map[]
    {
      rows := map[];
    }

    method Correction(job: Job) returns (ok: bool)
      modifies this
      ensures (ok, rows) == RecordTx(old(rows), CorrectionHalf(job))
    {
      ok := Record(CorrectionHalf(job));
    }

    method Applied(event: Applied) returns (ok: bool)
      modifies this
      ensures (ok, rows) == RecordTx(old(rows), AppliedHalf(event))
    {
      if event.authorizationRef != AUTHORIZATION + event.resolutionRef {
        return false;
      }
      ok := Record(AppliedHalf(event));
    }

    method Record(half: Half) returns (ok: bool)
      requires Authorized(half)
      modifies this
      ensures (ok, rows) == RecordTx(old(rows), half)
    {
      var before, ref := rows, RefOf(half);
      if ref !in rows {
        rows := rows[ref := Row(CaseOf(half), DigestOf(half), None, None, false)];
      }
      var row := rows[ref];
      if row.caseRef != CaseOf(half) || row.digest != DigestOf(half) {
        rows := before;
        return false;
      }
      match half {
        case CorrectionHalf(job) =>
          if row.correction.Some? {
            return Timeless(row.correction.value) == Timeless(job);
          }
          rows := rows[ref := row.(correction := Some(job))];
        case AppliedHalf(event) =>
          if row.applied.Some? {
            return row.applied.value == event;
          }
          rows := rows[ref := row.(applied := Some(event))];
      }
      assert rows == before[ref := rows[ref]];
      return true;
    }

    /** next_job */
    method NextJob() returns (job: Option<Job>)
      ensures job.None? <==> forall ref :: !Ready(rows, ref)
      ensures job.Some? ==> exists ref :: First(rows, ref) && rows[ref].correction == job
    {
      var left := rows.Keys;
      var best: Option<string> := None;
      while left != {}
        invariant left <= rows.Keys
        invariant best.None? ==> forall ref :: Ready(rows, ref) ==> ref in left
        invariant best.Some? ==>
          && Ready(rows, best.value)
          && forall ref :: Ready(rows, ref) && ref != best.value && ref !in left ==> Before(best.value, ref)
        decreases left
      {
        var ref :| ref in left;
        left := left - {ref};
        if Ready(rows, ref) {
          if best.None? {
            best := Some(ref);
          } else if Before(ref, best.value) {
            Smaller(rows, left, ref, best.value);
            best := Some(ref);
          } else {
            BeforeIsTotal(ref, best.value);
          }
        }
      }
      if best.None? {
        return None;
      }
      assert First(rows, best.value);
      return rows[best.value].correction;
    }

    static lemma Smaller(rows: Rows, left: set<string>, ref: string, best: string)
      requires Before(ref, best)
      requires forall other :: Ready(rows, other) && other != best && other != ref && other !in left ==> Before(best, other)
      ensures forall other :: Ready(rows, other) && other != ref && other !in left ==> Before(ref, other)
    {
      forall other | Ready(rows, other) && other != ref && other !in left
        ensures Before(ref, other)
      {
        if other != best { BeforeIsTransitive(ref, best, other); }
      }
    }

    method Published(job: Job)
      modifies this
      ensures rows == MarkTx(old(rows), job.input.finalResolution.handoffId)
    {
      var ref := job.input.finalResolution.handoffId;
      if ref in rows {
        rows := rows[ref := rows[ref].(published := true)];
      }
    }
  }
}
