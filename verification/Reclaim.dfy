/**
 Reading the event stream (apps/api/src/return_agent/agent_bridge.py, _read_event and
 _reclaim_event): new entries, and a rotating cursor over the pending ones so that a message
 deferred forever does not starve the others.  XAUTOCLAIM is a contract.
 */
module Reclaim {
  import opened Common

  /** A stream id, milliseconds and sequence number; `ZERO` is the id 0-0. */
  datatype Id = Id(ms: nat, seqno: nat)

  const ZERO := Id(0, 0)

  predicate Less(a: Id, b: Id) { a.ms < b.ms || (a.ms == b.ms && a.seqno < b.seqno) }

  /** _stream_id_after */
  function After(id: Id): Id { Id(id.ms, id.seqno + 1) }

  /** XAUTOCLAIM with count 1: it raises, gives no reply, or gives a next id and at most one entry. */
  datatype Answer = Raised | NoReply | Claimed(next: Id, message: Option<Id>)

  /** One call: the pending entries, those idle for long enough, and the answer. */
  datatype Call = Call(pending: set<Id>, eligible: set<Id>, answer: Answer)

  /**
   The contract of XAUTOCLAIM.  It claims the first eligible entry at or after the start.  Without
   one it has reached the end (0-0), or given up after some pending entries and names where to go
   on.  A next id beyond a claimed entry skips no eligible one; a next id that is not beyond it is
   tolerated, as the code does.
   */
  predicate Honest(call: Call, start: Id) {
    && call.eligible <= call.pending
    && (call.answer.Claimed? ==>
          match call.answer.message
          case Some(m) =>
            && m in call.eligible && !Less(m, start)
            && (forall e :: e in call.eligible && Less(e, m) ==> Less(e, start))
            && (forall e :: e in call.eligible && Less(m, e) ==> !Less(e, call.answer.next))
          case None =>
            && (forall e :: e in call.eligible && !Less(e, start) ==> call.answer.next != ZERO && !Less(e, call.answer.next))
            && (call.answer.next != ZERO ==>
                  Less(start, call.answer.next) && exists e :: e in call.pending && !Less(e, start) && Less(e, call.answer.next)))
  }

  /** _reclaim_event: the cursor after the answer. */
  function Advance(cursor: Id, answer: Answer): Id {
    match answer
    case Claimed(next, Some(m)) => if next == ZERO || !Less(m, next) then After(m) else next
    case Claimed(next, None) => next
    case _ => cursor
  }

  predicate Wraps(answer: Answer) { answer == Claimed(ZERO, None) }

  predicate Gives(call: Call, x: Id) { call.answer.Claimed? && call.answer.message == Some(x) }

  /** Between wraps the cursor moves strictly forward, past what was claimed and past nothing else that was eligible. */
  lemma {:induction false} CursorAdvances(call: Call, cursor: Id)
    requires Honest(call, cursor) && call.answer.Claimed?
    ensures var next := Advance(cursor, call.answer);
      && (next == ZERO <==> Wraps(call.answer))
      && (next != ZERO ==> Less(cursor, next))
      && (forall e :: e in call.eligible && !Less(e, cursor) && !Gives(call, e) ==> next != ZERO && !Less(e, next))
      && (forall e :: Gives(call, e) ==> !Less(e, cursor) && Less(e, next))
  {
  }

  /** The answer's next id is taken as it is, unless it is not beyond the claimed entry: then the id right after that one is. */
  lemma CursorTakesAnswer(cursor: Id, next: Id, message: Option<Id>)
    ensures var later := Advance(cursor, Claimed(next, message));
      && (message.None? || (next != ZERO && Less(message.value, next)) ==> later == next)
      && (message.Some? && !(next != ZERO && Less(message.value, next)) ==>
            Less(message.value, later) && forall id :: Less(message.value, id) ==> !Less(id, later))
  {
  }

  // ------------------------------------------------------------------ sweeps

  function CursorAfter(cursor: Id, calls: seq<Call>): Id {
    if calls == [] then cursor else Advance(CursorAfter(cursor, calls[..|calls| - 1]), calls[|calls| - 1].answer)
  }

  predicate AllHonest(cursor: Id, calls: seq<Call>) {
    calls == [] ||
    (AllHonest(cursor, calls[..|calls| - 1]) && Honest(calls[|calls| - 1], CursorAfter(cursor, calls[..|calls| - 1])))
  }

  /** How many of the calls give `x`. */
  function Given(calls: seq<Call>, x: Id): nat {
    if calls == [] then 0 else Given(calls[..|calls| - 1], x) + if Gives(calls[|calls| - 1], x) then 1 else 0
  }

  predicate NoWrap(calls: seq<Call>) {
    forall i :: 0 <= i < |calls| ==> !Wraps(calls[i].answer)
  }

  /** The entry is eligible at every call up to the one that gives it. */
  predicate EligibleUntilGiven(calls: seq<Call>, x: Id) {
    forall i :: 0 <= i < |calls| && Given(calls[..i], x) == 0 ==> x in calls[i].eligible
  }

  lemma {:induction false} SweepProgress(calls: seq<Call>, x: Id)
    requires AllHonest(ZERO, calls) && NoWrap(calls) && EligibleUntilGiven(calls, x)
    ensures if Given(calls, x) == 0 then !Less(x, CursorAfter(ZERO, calls)) else Given(calls, x) == 1 && Less(x, CursorAfter(ZERO, calls))
  {
    if calls != [] {
      var init, call := calls[..|calls| - 1], calls[|calls| - 1];
      assert forall i :: 0 <= i < |init| ==> init[i] == calls[i] && init[..i] == calls[..i];
      SweepProgress(init, x);
      assert !Wraps(call.answer);
      if call.answer.Claimed? { CursorAdvances(call, CursorAfter(ZERO, init)); }
    }
  }

  /** A sweep from 0-0 back to 0-0 gives every entry that stays eligible exactly once, whatever is deferred. */
  lemma SweepGivesOnce(calls: seq<Call>, last: Call, x: Id)
    requires AllHonest(ZERO, calls + [last]) && NoWrap(calls) && Wraps(last.answer)
    requires EligibleUntilGiven(calls + [last], x)
    ensures Given(calls + [last], x) == 1
  {
    var all := calls + [last];
    assert all[..|all| - 1] == calls && all[|all| - 1] == last;
    assert forall i :: 0 <= i < |calls| ==> all[i] == calls[i] && all[..i] == calls[..i];
    SweepProgress(calls, x);
    CursorAdvances(last, CursorAfter(ZERO, calls));
  }

  // ------------------------------------------------------------------ a bound on waiting

  function From(pool: set<Id>, start: Id): set<Id> { set p | p in pool && !Less(p, start) }

  function Before(pool: set<Id>, x: Id): set<Id> { set p | p in pool && Less(p, x) }

  function Between(pool: set<Id>, start: Id, x: Id): set<Id> { set p | p in pool && !Less(p, start) && Less(p, x) }

  /** How many more answers can come before `x`. */
  function Distance(pool: set<Id>, cursor: Id, x: Id): nat {
    if !Less(x, cursor) then |Between(pool, cursor, x)| else |From(pool, cursor)| + 1 + |Before(pool, x)|
  }

  function Answered(calls: seq<Call>): nat {
    if calls == [] then 0 else Answered(calls[..|calls| - 1]) + if calls[|calls| - 1].answer.Claimed? then 1 else 0
  }

  lemma Smaller(a: set<Id>, b: set<Id>, p: Id)
    requires a <= b && p in b && p !in a
    ensures |a| < |b|
  {
    assert a <= b - {p};
    SubsetSize(a, b - {p});
  }

  lemma SubsetSize(a: set<Id>, b: set<Id>)
    requires a <= b
    ensures |a| <= |b|
  {
    assert b == a + (b - a);
  }

  /** The pending entry that an answer leaves behind. */
  lemma LeftBehind(call: Call, cursor: Id)
    requires Honest(call, cursor) && call.answer.Claimed? && !Wraps(call.answer)
    ensures exists q :: q in call.pending && !Less(q, cursor) && Less(q, Advance(cursor, call.answer))
  {
    if call.answer.message.Some? {
      var m := call.answer.message.value;
      assert m in call.pending && !Less(m, cursor) && Less(m, Advance(cursor, call.answer));
    } else {
      var e :| e in call.pending && !Less(e, cursor) && Less(e, call.answer.next);
      assert Less(e, Advance(cursor, call.answer));
    }
  }

  /** Every answer that does not give the waiting entry brings it closer. */
  lemma AnswerShortensDistance(call: Call, cursor: Id, x: Id, pool: set<Id>)
    requires Honest(call, cursor) && call.answer.Claimed? && call.pending <= pool
    requires x in call.eligible && !Gives(call, x)
    ensures Distance(pool, Advance(cursor, call.answer), x) < Distance(pool, cursor, x)
  {
    var next := Advance(cursor, call.answer);
    CursorAdvances(call, cursor);
    if Wraps(call.answer) {
      assert Between(pool, next, x) == Before(pool, x);
    } else {
      LeftBehind(call, cursor);
      var q :| q in call.pending && !Less(q, cursor) && Less(q, next);
      if Less(x, cursor) {
        Smaller(From(pool, next), From(pool, cursor), q);
      } else {
        assert Less(q, x) by {
          assert !Less(x, next);
        }
        Smaller(Between(pool, next, x), Between(pool, cursor, x), q);
      }
    }
  }

  predicate WaitsIn(calls: seq<Call>, x: Id, pool: set<Id>) {
    forall i :: 0 <= i < |calls| ==> calls[i].pending <= pool && x in calls[i].eligible && !Gives(calls[i], x)
  }

  lemma {:induction false} WaitingIsBounded(cursor: Id, calls: seq<Call>, x: Id, pool: set<Id>)
    requires AllHonest(cursor, calls) && WaitsIn(calls, x, pool)
    ensures Answered(calls) + Distance(pool, CursorAfter(cursor, calls), x) <= Distance(pool, cursor, x)
  {
    if calls != [] {
      var init, call := calls[..|calls| - 1], calls[|calls| - 1];
      WaitingIsBounded(cursor, init, x, pool);
      assert WaitsIn(calls, x, pool) ==> call == calls[|calls| - 1];
      if call.answer.Claimed? { AnswerShortensDistance(call, CursorAfter(cursor, init), x, pool); }
    }
  }

  /**
   Wherever the cursor stands, an entry that stays eligible is given after at most as many other
   answers as there are pending entries, however many of those are deferred forever.
   */
  lemma NoEntryStarves(cursor: Id, calls: seq<Call>, x: Id, pool: set<Id>)
    requires AllHonest(cursor, calls) && x in pool && WaitsIn(calls, x, pool)
    ensures Answered(calls) <= |pool|
  {
    WaitingIsBounded(cursor, calls, x, pool);
    if Less(x, cursor) {
      var later, earlier := From(pool, cursor), Before(pool, x);
      assert later !! earlier && later + earlier <= pool - {x};
      assert |later + earlier| == |later| + |earlier|;
      SubsetSize(later + earlier, pool - {x});
    } else {
      SubsetSize(Between(pool, cursor, x), pool);
    }
  }

  // ------------------------------------------------------------------ reading

  datatype Fresh = ReadRaised | NewEntry(id: Id) | NothingNew

  datatype Outcome = Error | Message(id: Id) | Nothing

  /** The fields _event_reclaim_cursor and _event_reads_since_reclaim. */
  datatype Reader = Reader(cursor: Id, since: nat)

  /** The answers one _read_event may get: a due reclaim, the new entries, and the reclaim it falls back to. */
  datatype Read = Read(due: Call, latest: Fresh, fallback: Call)

  function OutcomeOf(answer: Answer): Outcome {
    match answer
    case Raised => Error
    case Claimed(_, Some(m)) => Message(m)
    case _ => Nothing
  }

  function FreshTx(reader: Reader, attempts: seq<Call>, read: Read): (Outcome, Reader, seq<Call>) {
    match read.latest
    case ReadRaised => (Error, reader, attempts)
    case NewEntry(id) => (Message(id), reader, attempts)
    case NothingNew =>
      (OutcomeOf(read.fallback.answer), reader.(cursor := Advance(reader.cursor, read.fallback.answer)), attempts + [read.fallback])
  }

  /** _read_event: its outcome, the new fields, and the reclaims it attempted. */
  function ReadTx(reader: Reader, every: nat, read: Read): (Outcome, Reader, seq<Call>) {
    if reader.since + 1 >= every then
      var due := Reader(Advance(reader.cursor, read.due.answer), 0);
      if OutcomeOf(read.due.answer) != Nothing then (OutcomeOf(read.due.answer), due, [read.due])
      else FreshTx(due, [read.due], read)
    else FreshTx(Reader(reader.cursor, reader.since + 1), [], read)
  }

  function ReaderAfter(reader: Reader, every: nat, history: seq<Read>): Reader {
    if history == [] then reader else ReadTx(ReaderAfter(reader, every, history[..|history| - 1]), every, history[|history| - 1]).1
  }

  function Attempts(reader: Reader, every: nat, history: seq<Read>): seq<Call> {
    if history == [] then []
    else
      var init, read := history[..|history| - 1], history[|history| - 1];
      Attempts(reader, every, init) + ReadTx(ReaderAfter(reader, every, init), every, read).2
  }

  lemma CursorConcat(cursor: Id, calls: seq<Call>, more: seq<Call>)
    ensures CursorAfter(cursor, calls + more) == CursorAfter(CursorAfter(cursor, calls), more)
    decreases |more|
  {
    if more == [] {
      assert calls + more == calls;
    } else {
      assert (calls + more)[..|calls + more| - 1] == calls + more[..|more| - 1];
      CursorConcat(cursor, calls, more[..|more| - 1]);
    }
  }

  /** A reclaim is due on the read that completes the period. */
  predicate Due(reader: Reader, every: nat) { reader.since + 1 >= every }

  /**
   What one read gives: the entry of a due reclaim if it claims one, else the new entry if there
   is one, else what the fallback reclaim claims; so reading never passes a new entry by.
   */
  lemma ReadGives(reader: Reader, every: nat, read: Read)
    ensures var (outcome, later, calls) := ReadTx(reader, every, read);
      && (Due(reader, every) && OutcomeOf(read.due.answer) != Nothing ==> outcome == OutcomeOf(read.due.answer) && calls == [read.due])
      && (!(Due(reader, every) && OutcomeOf(read.due.answer) != Nothing) ==>
            var before := if Due(reader, every) then [read.due] else [];
            && (read.latest.ReadRaised? ==> outcome == Error && calls == before)
            && (read.latest.NewEntry? ==> outcome == Message(read.latest.id) && calls == before)
            && (read.latest.NothingNew? ==> outcome == OutcomeOf(read.fallback.answer) && calls == before + [read.fallback]))
      && later.since == if Due(reader, every) then 0 else reader.since + 1
  {
  }

  /** A reclaim that claims an entry gives that entry; it fails only if the call does. */
  lemma ReclaimGives(answer: Answer)
    ensures OutcomeOf(answer) == Error <==> answer.Raised?
    ensures forall id :: OutcomeOf(answer) == Message(id) <==> answer.Claimed? && answer.message == Some(id)
  {
  }

  /** The cursor a reader holds is the one its attempts have moved. */
  lemma {:induction false} ReaderFollowsAttempts(reader: Reader, every: nat, history: seq<Read>)
    ensures ReaderAfter(reader, every, history).cursor == CursorAfter(reader.cursor, Attempts(reader, every, history))
  {
    if history != [] {
      var init, read := history[..|history| - 1], history[|history| - 1];
      ReaderFollowsAttempts(reader, every, init);
      var mid := ReaderAfter(reader, every, init);
      var more := ReadTx(mid, every, read).2;
      CursorConcat(reader.cursor, Attempts(reader, every, init), more);
      OneReadFollows(mid, every, read);
    }
  }

  lemma OneReadFollows(reader: Reader, every: nat, read: Read)
    ensures ReadTx(reader, every, read).1.cursor == CursorAfter(reader.cursor, ReadTx(reader, every, read).2)
  {
    assert [read.due][..0] == [] && [read.fallback][..0] == [];
    assert [read.due, read.fallback][..1] == [read.due];
    assert [read.due] + [read.fallback] == [read.due, read.fallback];
    assert [] + [read.fallback] == [read.fallback];
    assert CursorAfter(reader.cursor, [read.due]) == Advance(reader.cursor, read.due.answer);
    assert CursorAfter(reader.cursor, [read.fallback]) == Advance(reader.cursor, read.fallback.answer);
    assert CursorAfter(reader.cursor, [read.due, read.fallback])
        == Advance(CursorAfter(reader.cursor, [read.due]), read.fallback.answer);
  }

  /** n reads attempt at least n / every reclaims: new traffic and failures never hold the rotation up. */
  lemma {:induction false} ReclaimsKeepPace(reader: Reader, every: nat, history: seq<Read>)
    requires every > 0 && reader.since < every
    ensures ReaderAfter(reader, every, history).since < every
    ensures |history| + reader.since <= |Attempts(reader, every, history)| * every + ReaderAfter(reader, every, history).since
  {
    if history != [] {
      var init, read := history[..|history| - 1], history[|history| - 1];
      ReclaimsKeepPace(reader, every, init);
      var mid := ReaderAfter(reader, every, init);
      ReadKeepsPace(mid, every, read);
      Distribute(|Attempts(reader, every, init)|, |ReadTx(mid, every, read).2|, every);
    }
  }

  lemma ReadKeepsPace(reader: Reader, every: nat, read: Read)
    requires every > 0 && reader.since < every
    ensures var (_, later, calls) := ReadTx(reader, every, read);
      later.since < every && (later.since == reader.since + 1 || (|calls| >= 1 && reader.since + 1 == every && later.since == 0))
  {
  }

  lemma Distribute(a: nat, b: nat, every: nat)
    ensures (a + b) * every == a * every + b * every && b * every >= 0 && (b >= 1 ==> b * every >= every)
  {
    if b >= 1 { assert b * every == (b - 1) * every + every && (b - 1) * every >= 0; }
  }

  /** In any window of `every` consecutive reads at least one reclaim is attempted. */
  lemma ReclaimInEveryWindow(reader: Reader, every: nat, earlier: seq<Read>, window: seq<Read>)
    requires every > 0 && reader.since < every && |window| == every
    ensures Attempts(ReaderAfter(reader, every, earlier), every, window) != []
  {
    ReclaimsKeepPace(reader, every, earlier);
    ReclaimsKeepPace(ReaderAfter(reader, every, earlier), every, window);
  }

  lemma WaitingReadsAreFew(reader: Reader, every: nat, history: seq<Read>, x: Id, pool: set<Id>)
    requires every > 0 && reader.since < every && x in pool
    requires var calls := Attempts(reader, every, history);
      AllHonest(reader.cursor, calls) && Answered(calls) == |calls| && WaitsIn(calls, x, pool)
    ensures |history| < (|pool| + 1) * every
  {
    var calls := Attempts(reader, every, history);
    NoEntryStarves(reader.cursor, calls, x, pool);
    ReclaimsKeepPace(reader, every, history);
    Distribute(|calls|, |pool| - |calls|, every);
    Distribute(|pool|, 1, every);
  }

  /**
   The two together: if reclaims answer honestly, an entry that stays eligible is given within
   (pending entries + 1) * every reads.
   */
  lemma GivenWithinReads(reader: Reader, every: nat, history: seq<Read>, x: Id, pool: set<Id>)
    requires every > 0 && reader.since < every && x in pool
    requires var calls := Attempts(reader, every, history);
      && AllHonest(reader.cursor, calls) && Answered(calls) == |calls|
      && forall i :: 0 <= i < |calls| ==> calls[i].pending <= pool && x in calls[i].eligible
    requires |history| >= (|pool| + 1) * every
    ensures var calls := Attempts(reader, every, history); exists i :: 0 <= i < |calls| && Gives(calls[i], x)
  {
    var calls := Attempts(reader, every, history);
    if forall i :: 0 <= i < |calls| ==> !Gives(calls[i], x) {
      assert WaitsIn(calls, x, pool);
      WaitingReadsAreFew(reader, every, history, x, pool);
      assert false;
    }
  }

  // ------------------------------------------------------------------ the consumer's fields

  class EventReader {
    var cursor: Id
    var readsSinceReclaim: nat
    const reclaimEvery: nat

    constructor (every: nat)
      requires every > 0
      ensures Snapshot() == Reader(ZERO, 0) && reclaimEvery == every
    {
      cursor := ZERO;
      readsSinceReclaim := 0;
      reclaimEvery := every;
    }

    function Snapshot(): Reader
      reads this
    {
      Reader(cursor, readsSinceReclaim)
    }

    /** _reclaim_event */
    method ReclaimEvent(answer: Answer) returns (outcome: Outcome)
      modifies this`cursor
      ensures outcome == OutcomeOf(answer) && cursor == Advance(old(cursor), answer)
    {
      match answer {
        case Raised => return Error;
        case NoReply => return Nothing;
        case Claimed(reply, message) =>
          var next := reply;
          if message.Some? {
            if next == ZERO || !Less(message.value, next) {
              next := After(message.value);
            }
          }
          cursor := next;
          if message.Some? {
            return Message(message.value);
          }
          return Nothing;
      }
    }

    /** _read_event */
    method ReadEvent(read: Read) returns (outcome: Outcome, attempts: seq<Call>)
      modifies this
      ensures (outcome, Snapshot(), attempts) == ReadTx(old(Snapshot()), reclaimEvery, read)
    {
      attempts := [];
      readsSinceReclaim := readsSinceReclaim + 1;
      if readsSinceReclaim >= reclaimEvery {
        readsSinceReclaim := 0;
        attempts := [read.due];
        outcome := ReclaimEvent(read.due.answer);
        if outcome != Nothing {
          return;
        }
      }
      match read.latest {
        case ReadRaised => outcome := Error;
        case NewEntry(id) => outcome := Message(id);
        case NothingNew =>
          attempts := attempts + [read.fallback];
          outcome := ReclaimEvent(read.fallback.answer);
      }
    }
  }
}
