/**
 The activity log of a case (apps/api/src/return_agent/activities.py): numbered appends with one
 narration per node summary, and paging by sequence number.  An append is one transaction that
 locks the case.
 */
module Activity {
  import opened Common

  datatype Payload = Summary(facts: string, extras: string) | Narration(source: string, text: string) | Other(content: string)

  /** `correlation` stands for run, scope, job, node, operation, attempt and parent operation. */
  datatype Emission = Emission(eventId: string, caseRef: string, correlation: string, occurredAt: int, payload: Payload)

  datatype Event = Event(emission: Emission, seqno: nat)

  /** A row of the narration outbox: the summary to narrate, its facts only, and the event that answered it. */
  datatype Job = Job(source: Emission, result: Option<string>)

  /** `log` holds the activity records of all cases in the order they were appended. */
  datatype Store = Store(cases: set<string>, log: seq<Event>, outbox: map<string, Job>)

  /** An event, a LookupError or a ValueError. */
  datatype Answer = Stored(event: Event) | UnknownCase | Refused

  function Find(log: seq<Event>, id: string): Option<Event> {
    if log == [] then None else if log[|log| - 1].emission.eventId == id then Some(log[|log| - 1]) else Find(log[..|log| - 1], id)
  }

  /** The largest sequence number of the case, or 0. */
  function Highest(log: seq<Event>, caseRef: string): nat {
    if log == [] then 0
    else
      var rest, last := Highest(log[..|log| - 1], caseRef), log[|log| - 1];
      if last.emission.caseRef == caseRef && last.seqno > rest then last.seqno else rest
  }

  function FactsOnly(emission: Emission): Emission
    requires emission.payload.Summary?
  {
    emission.(payload := Summary(emission.payload.facts, ""))
  }

  predicate Correlated(job: Job, emission: Emission) {
    job.source.caseRef == emission.caseRef && job.source.correlation == emission.correlation
  }

  function Insert(s: Store, emission: Emission): Store {
    var event := Event(emission, Highest(s.log, emission.caseRef) + 1);
    var log := s.log + [event];
    match emission.payload
    case Summary(_, _) => s.(log := log, outbox := s.outbox[emission.eventId := Job(FactsOnly(emission), None)])
    case Narration(source, _) =>
      s.(log := log, outbox := if source in s.outbox then s.outbox[source := s.outbox[source].(result := Some(emission.eventId))] else s.outbox)
    case Other(_) => s.(log := log)
  }

  /** append */
  function AppendTx(s: Store, emission: Emission): (Answer, Store) {
    var existing := Find(s.log, emission.eventId);
    if emission.caseRef !in s.cases then (UnknownCase, s)
    else if existing.Some? then (if existing.value.emission == emission then Stored(existing.value) else Refused, s)
    else if emission.payload.Narration? && (emission.payload.source !in s.outbox || !Correlated(s.outbox[emission.payload.source], emission))
    then (Refused, s)
    else if emission.payload.Narration? && s.outbox[emission.payload.source].result.Some? then
      var result := Find(s.log, s.outbox[emission.payload.source].result.value);
      (if result.Some? then Stored(result.value) else Refused, s)
    else (Stored(Event(emission, Highest(s.log, emission.caseRef) + 1)), Insert(s, emission))
  }

  function Run(s: Store, emissions: seq<Emission>): Store {
    if emissions == [] then s else AppendTx(Run(s, emissions[..|emissions| - 1]), emissions[|emissions| - 1]).1
  }

  function Start(cases: set<string>): Store { Store(cases, [], map[]) }

  // ------------------------------------------------------------------ the invariant

  /** The events of one case, in the order they were appended. */
  function CaseLog(log: seq<Event>, caseRef: string): seq<Event> {
    if log == [] then []
    else
      var init, last := CaseLog(log[..|log| - 1], caseRef), log[|log| - 1];
      if last.emission.caseRef == caseRef then init + [last] else init
  }

  predicate Numbered(events: seq<Event>) { forall k :: 0 <= k < |events| ==> events[k].seqno == k + 1 }

  ghost predicate CasesNumbered(log: seq<Event>) { forall caseRef :: Numbered(CaseLog(log, caseRef)) }

  predicate IdsDiffer(log: seq<Event>) {
    forall i, k :: 0 <= i < k < |log| ==> log[i].emission.eventId != log[k].emission.eventId
  }

  /** An outbox row belongs to a stored summary, and what it names as its result narrates it. */
  predicate JobOk(s: Store, source: string)
    requires source in s.outbox
  {
    && var summary := Find(s.log, source);
    && summary.Some? && summary.value.emission.payload.Summary? && s.outbox[source].source == FactsOnly(summary.value.emission)
    && (s.outbox[source].result.Some? ==>
          var result := Find(s.log, s.outbox[source].result.value);
          result.Some? && result.value.emission.payload.Narration? && result.value.emission.payload.source == source)
  }

  predicate JobsOk(s: Store) { forall source :: source in s.outbox ==> JobOk(s, source) }

  /** A stored narration is the result of its job. */
  predicate NarrationOk(s: Store, emission: Emission) {
    emission.payload.Narration? ==>
      emission.payload.source in s.outbox && s.outbox[emission.payload.source].result == Some(emission.eventId)
  }

  predicate NarrationsOk(s: Store) { forall k :: 0 <= k < |s.log| ==> NarrationOk(s, s.log[k].emission) }

  /** A stored summary has its job. */
  predicate SummaryOk(s: Store, emission: Emission) { emission.payload.Summary? ==> emission.eventId in s.outbox }

  predicate SummariesOk(s: Store) { forall k :: 0 <= k < |s.log| ==> SummaryOk(s, s.log[k].emission) }

  ghost predicate StoreOk(s: Store) {
    CasesNumbered(s.log) && IdsDiffer(s.log) && JobsOk(s) && NarrationsOk(s) && SummariesOk(s)
  }

  predicate Grows(s: Store, later: Store) { later.cases == s.cases && s.log <= later.log }

  lemma {:induction false} FindIs(log: seq<Event>, id: string)
    ensures Find(log, id).Some? <==> exists k :: 0 <= k < |log| && log[k].emission.eventId == id
    ensures Find(log, id).Some? ==> Find(log, id).value in log && Find(log, id).value.emission.eventId == id
  {
    if log != [] {
      var init := log[..|log| - 1];
      FindIs(init, id);
      if log[|log| - 1].emission.eventId != id {
        if k :| 0 <= k < |log| && log[k].emission.eventId == id { assert init[k].emission.eventId == id; }
      }
    }
  }

  lemma {:induction false} FindStays(log: seq<Event>, later: seq<Event>, id: string)
    requires log <= later && IdsDiffer(later) && Find(log, id).Some?
    ensures Find(later, id) == Find(log, id)
  {
    if |log| < |later| {
      FindStays(log, later[..|later| - 1], id);
      FindIs(log, id);
      var k :| 0 <= k < |log| && log[k].emission.eventId == id;
      assert later[k] == log[k] && later[|later| - 1].emission.eventId != id;
    } else {
      assert log == later;
    }
  }

  lemma {:induction false} HighestIsLength(log: seq<Event>, caseRef: string)
    requires Numbered(CaseLog(log, caseRef))
    ensures Highest(log, caseRef) == |CaseLog(log, caseRef)|
  {
    if log != [] {
      var init, last, all := CaseLog(log[..|log| - 1], caseRef), log[|log| - 1], CaseLog(log, caseRef);
      if last.emission.caseRef == caseRef {
        assert all[|init|] == last;
        assert forall k :: 0 <= k < |init| ==> init[k] == all[k];
      }
      HighestIsLength(log[..|log| - 1], caseRef);
    }
  }

  lemma InsertKeepsNumbers(s: Store, emission: Emission)
    requires CasesNumbered(s.log)
    ensures CasesNumbered(Insert(s, emission).log)
  {
    var event := Event(emission, Highest(s.log, emission.caseRef) + 1);
    var log := s.log + [event];
    assert log[..|log| - 1] == s.log && Insert(s, emission).log == log;
    HighestIsLength(s.log, emission.caseRef);
    forall caseRef
      ensures Numbered(CaseLog(log, caseRef))
    {
      assert Numbered(CaseLog(s.log, caseRef));
    }
  }

  lemma InsertKeepsIds(s: Store, emission: Emission)
    requires IdsDiffer(s.log) && Find(s.log, emission.eventId).None?
    ensures IdsDiffer(Insert(s, emission).log)
    ensures forall id :: Find(s.log, id).Some? ==> Find(Insert(s, emission).log, id) == Find(s.log, id)
    ensures Find(Insert(s, emission).log, emission.eventId) == Some(Event(emission, Highest(s.log, emission.caseRef) + 1))
  {
    FindIs(s.log, emission.eventId);
    var later := Insert(s, emission).log;
    assert later[..|later| - 1] == s.log;
    forall id | Find(s.log, id).Some?
      ensures Find(later, id) == Find(s.log, id)
    {
      FindStays(s.log, later, id);
    }
  }

  lemma InsertKeepsJobs(s: Store, emission: Emission)
    requires StoreOk(s) && Find(s.log, emission.eventId).None?
    requires emission.payload.Narration? ==> emission.payload.source in s.outbox && s.outbox[emission.payload.source].result.None?
    ensures JobsOk(Insert(s, emission))
  {
    InsertKeepsIds(s, emission);
    var later := Insert(s, emission);
    forall source | source in later.outbox
      ensures JobOk(later, source)
    {
      if source in s.outbox { assert JobOk(s, source); }
    }
  }

  lemma InsertKeepsRecords(s: Store, emission: Emission)
    requires StoreOk(s) && Find(s.log, emission.eventId).None?
    requires emission.payload.Narration? ==> emission.payload.source in s.outbox && s.outbox[emission.payload.source].result.None?
    ensures NarrationsOk(Insert(s, emission)) && SummariesOk(Insert(s, emission))
  {
    var later := Insert(s, emission);
    assert emission.eventId in s.outbox ==> JobOk(s, emission.eventId);
    forall k | 0 <= k < |later.log|
      ensures NarrationOk(later, later.log[k].emission) && SummaryOk(later, later.log[k].emission)
    {
      if k < |s.log| { assert later.log[k] == s.log[k] && NarrationOk(s, s.log[k].emission) && SummaryOk(s, s.log[k].emission); }
    }
  }

  lemma AppendKeeps(s: Store, emission: Emission)
    requires StoreOk(s)
    ensures StoreOk(AppendTx(s, emission).1) && Grows(s, AppendTx(s, emission).1)
  {
    if AppendTx(s, emission).1 != s {
      InsertKeepsNumbers(s, emission);
      InsertKeepsIds(s, emission);
      InsertKeepsJobs(s, emission);
      InsertKeepsRecords(s, emission);
    }
  }

  lemma {:induction false} RunKeeps(s: Store, emissions: seq<Emission>)
    requires StoreOk(s)
    ensures StoreOk(Run(s, emissions)) && Grows(s, Run(s, emissions))
  {
    if emissions != [] {
      RunKeeps(s, emissions[..|emissions| - 1]);
      AppendKeeps(Run(s, emissions[..|emissions| - 1]), emissions[|emissions| - 1]);
    }
  }

  // ------------------------------------------------------------------ main results: appending

  /** Whatever is appended, the numbers of a case are 1..n in append order. */
  lemma NumbersAreContiguous(cases: set<string>, emissions: seq<Emission>, caseRef: string, k: nat)
    requires k < |CaseLog(Run(Start(cases), emissions).log, caseRef)|
    ensures CaseLog(Run(Start(cases), emissions).log, caseRef)[k].seqno == k + 1
  {
    RunKeeps(Start(cases), emissions);
    assert Numbered(CaseLog(Run(Start(cases), emissions).log, caseRef));
  }

  /** Appending a stored emission again, at any later time, changes nothing and answers the same event; other content is refused. */
  lemma AppendIsIdempotent(cases: set<string>, emissions: seq<Emission>, emission: Emission, more: seq<Emission>, again: Emission)
    requires var (answer, _) := AppendTx(Run(Start(cases), emissions), emission); answer.Stored? && answer.event.emission == emission
    requires again.eventId == emission.eventId && again.caseRef in cases
    ensures var (answer, later) := AppendTx(Run(Start(cases), emissions), emission);
      AppendTx(Run(later, more), again) == (if again == emission then answer else Refused, Run(later, more))
  {
    RunKeeps(Start(cases), emissions);
    var s := Run(Start(cases), emissions);
    var (answer, later) := AppendTx(s, emission);
    AppendKeeps(s, emission);
    RunKeeps(later, more);
    if Find(s.log, emission.eventId).None? && later != s { InsertKeepsIds(s, emission); }
    AppendedIsFound(s, emission);
    FindStays(later.log, Run(later, more).log, emission.eventId);
  }

  lemma AppendedIsFound(s: Store, emission: Emission)
    requires StoreOk(s) && AppendTx(s, emission).0.Stored? && AppendTx(s, emission).0.event.emission == emission
    ensures Find(AppendTx(s, emission).1.log, emission.eventId) == Some(AppendTx(s, emission).0.event)
  {
    if Find(s.log, emission.eventId).None? {
      if AppendTx(s, emission).1 == s {
        var id := s.outbox[emission.payload.source].result.value;
        FindIs(s.log, id);
      } else {
        InsertKeepsIds(s, emission);
      }
    }
  }

  /** A summary is narrated at most once. */
  lemma OneNarrationPerSummary(cases: set<string>, emissions: seq<Emission>, i: nat, k: nat)
    requires var log := Run(Start(cases), emissions).log;
      && i < |log| && k < |log| && log[i].emission.payload.Narration? && log[k].emission.payload.Narration?
      && log[i].emission.payload.source == log[k].emission.payload.source
    ensures i == k
  {
    RunKeeps(Start(cases), emissions);
    var s := Run(Start(cases), emissions);
    assert NarrationOk(s, s.log[i].emission) && NarrationOk(s, s.log[k].emission);
  }

  /** A narration names a stored summary of the same correlation. */
  predicate Narratable(s: Store, emission: Emission) {
    emission.payload.Narration? ==>
      && emission.payload.source in s.outbox
      && s.outbox[emission.payload.source].source.caseRef == emission.caseRef
      && s.outbox[emission.payload.source].source.correlation == emission.correlation
  }

  predicate Narrated(s: Store, source: string) { source in s.outbox && s.outbox[source].result.Some? }

  /**
   What an append stores, exactly: an emission of a known case under a new id, that is no
   narration or the first one of a fitting summary, gets the case's next number; nothing else
   changes the store.
   */
  lemma AppendStoresExactly(cases: set<string>, emissions: seq<Emission>, emission: Emission)
    ensures var s := Run(Start(cases), emissions);
      var (answer, later) := AppendTx(s, emission);
      var isNew := Find(s.log, emission.eventId).None? && Narratable(s, emission);
      && (answer == UnknownCase <==> emission.caseRef !in cases)
      && (later != s <==>
            emission.caseRef in cases && isNew && (emission.payload.Narration? ==> !Narrated(s, emission.payload.source)))
      && (later != s ==>
            && answer == Stored(Event(emission, |CaseLog(s.log, emission.caseRef)| + 1))
            && later.log == s.log + [answer.event] && later.cases == s.cases
            && later.outbox ==
                 match emission.payload
                 case Summary(facts, _) => s.outbox[emission.eventId := Job(emission.(payload := Summary(facts, "")), None)]
                 case Narration(source, _) => s.outbox[source := Job(s.outbox[source].source, Some(emission.eventId))]
                 case Other(_) => s.outbox)
      && (emission.caseRef in cases && Find(s.log, emission.eventId).None? && !Narratable(s, emission) ==> answer == Refused)
  {
    RunKeeps(Start(cases), emissions);
    var s := Run(Start(cases), emissions);
    assert Numbered(CaseLog(s.log, emission.caseRef));
    HighestIsLength(s.log, emission.caseRef);
    assert AppendTx(s, emission).1 != s ==> AppendTx(s, emission).1.log == s.log + [Event(emission, Highest(s.log, emission.caseRef) + 1)];
  }

  /** A second narration of a summary, under any id and with any text, is answered with the first one's event and stored nowhere. */
  lemma SecondNarrationAnswersFirst(cases: set<string>, emissions: seq<Emission>, first: Emission, more: seq<Emission>, second: Emission)
    requires first.payload.Narration? && second.payload.Narration? && second.payload.source == first.payload.source
    requires var (answer, later) := AppendTx(Run(Start(cases), emissions), first);
      && answer.Stored? && answer.event.emission == first
      && Find(Run(later, more).log, second.eventId).None? && Narratable(Run(later, more), second) && second.caseRef in cases
    ensures var (answer, later) := AppendTx(Run(Start(cases), emissions), first);
      AppendTx(Run(later, more), second) == (answer, Run(later, more))
  {
    RunKeeps(Start(cases), emissions);
    var s := Run(Start(cases), emissions);
    var (answer, later) := AppendTx(s, first);
    AppendKeeps(s, first);
    RunKeeps(later, more);
    var now := Run(later, more);
    AppendedIsFound(s, first);
    FindStays(later.log, now.log, first.eventId);
    FindIs(now.log, first.eventId);
    var k :| 0 <= k < |now.log| && now.log[k].emission.eventId == first.eventId;
    FoundIsStored(now, answer.event);
    assert NarrationOk(now, first);
  }

  lemma FoundIsStored(s: Store, event: Event)
    requires StoreOk(s) && Find(s.log, event.emission.eventId) == Some(event)
    ensures NarrationOk(s, event.emission)
  {
    FindIs(s.log, event.emission.eventId);
    var k :| 0 <= k < |s.log| && s.log[k] == event;
    assert NarrationOk(s, s.log[k].emission);
  }

  // ------------------------------------------------------------------ main results: paging

  datatype Page = Page(events: seq<Event>, next: nat, more: bool)

  /** The events of the case with a larger number. */
  function Beyond(events: seq<Event>, after: nat): seq<Event> {
    if events == [] then []
    else
      var init, last := Beyond(events[..|events| - 1], after), events[|events| - 1];
      if last.seqno > after then init + [last] else init
  }

  function Take<T>(s: seq<T>, n: nat): seq<T> { if n < |s| then s[..n] else s }

  /** page: one event more than asked for tells whether there are more. */
  function PageOf(log: seq<Event>, caseRef: string, after: nat, limit: nat): Page {
    var rows := Take(Beyond(CaseLog(log, caseRef), after), limit + 1);
    var events := Take(rows, limit);
    Page(events, if events != [] then events[|events| - 1].seqno else after, |rows| > limit)
  }

  lemma {:induction false} BeyondDrops(events: seq<Event>, after: nat)
    requires Numbered(events)
    ensures Beyond(events, after) == if after < |events| then events[after..] else []
  {
    if events != [] {
      assert Numbered(events[..|events| - 1]);
      BeyondDrops(events[..|events| - 1], after);
      if after < |events| {
        assert events[after..] == events[..|events| - 1][after..] + [events[|events| - 1]];
      }
    }
  }

  /** A page is the slice of the case's log after the cursor. */
  lemma PageIsSlice(log: seq<Event>, caseRef: string, after: nat, limit: nat)
    requires Numbered(CaseLog(log, caseRef)) && after <= |CaseLog(log, caseRef)|
    ensures var events, page := CaseLog(log, caseRef), PageOf(log, caseRef, after, limit);
      var end := if after + limit < |events| then after + limit else |events|;
      page.events == events[after..end] && page.next == end && page.more == (end < |events|)
  {
    var events := CaseLog(log, caseRef);
    BeyondDrops(events, after);
    var rest := events[after..];
    assert Beyond(events, after) == rest;
    TakeTwice(rest, limit);
    if limit < |rest| {
      assert rest[..limit] == events[after..after + limit];
    } else {
      assert rest == events[after..|events|];
    }
  }

  lemma TakeTwice<T>(s: seq<T>, n: nat)
    ensures Take(Take(s, n + 1), n) == if n < |s| then s[..n] else s
    ensures |Take(s, n + 1)| > n <==> |s| > n
  {
    if n + 1 < |s| { assert s[..n + 1][..n] == s[..n]; }
  }

  /** A read: what was appended before it, and how many events it asks for. */
  datatype Visit = Visit(appended: seq<Emission>, limit: nat)

  /** stream_activities and repeated page requests: the events delivered so far and the cursor. */
  datatype Walk = Walk(store: Store, delivered: seq<Event>, cursor: nat, more: bool)

  function WalkOn(walk: Walk, caseRef: string, visit: Visit): Walk {
    var store := Run(walk.store, visit.appended);
    var page := PageOf(store.log, caseRef, walk.cursor, visit.limit);
    Walk(store, walk.delivered + page.events, page.next, page.more)
  }

  function WalkAll(walk: Walk, caseRef: string, visits: seq<Visit>): Walk {
    if visits == [] then walk else WalkOn(WalkAll(walk, caseRef, visits[..|visits| - 1]), caseRef, visits[|visits| - 1])
  }

  lemma {:induction false} CaseLogGrows(log: seq<Event>, later: seq<Event>, caseRef: string)
    requires log <= later
    ensures CaseLog(log, caseRef) <= CaseLog(later, caseRef)
  {
    if |log| < |later| { CaseLogGrows(log, later[..|later| - 1], caseRef); } else { assert log == later; }
  }

  predicate WalkOk(walk: Walk, caseRef: string) {
    var events := CaseLog(walk.store.log, caseRef);
    walk.cursor <= |events| && walk.delivered == events[..walk.cursor] && (walk.more <==> walk.cursor < |events|)
  }

  lemma PageExtends(log: seq<Event>, caseRef: string, delivered: seq<Event>, cursor: nat, limit: nat)
    requires Numbered(CaseLog(log, caseRef)) && cursor <= |CaseLog(log, caseRef)| && delivered == CaseLog(log, caseRef)[..cursor]
    ensures var events, page := CaseLog(log, caseRef), PageOf(log, caseRef, cursor, limit);
      && page.next <= |events| && delivered + page.events == events[..page.next]
      && (page.more <==> page.next < |events|)
      && (limit > 0 && cursor < |events| ==> cursor < page.next)
  {
    PageIsSlice(log, caseRef, cursor, limit);
    var events, page := CaseLog(log, caseRef), PageOf(log, caseRef, cursor, limit);
    assert events[..cursor] + events[cursor..page.next] == events[..page.next];
  }

  lemma WalkOnKeeps(walk: Walk, caseRef: string, visit: Visit)
    requires StoreOk(walk.store) && walk.cursor <= |CaseLog(walk.store.log, caseRef)|
    requires walk.delivered == CaseLog(walk.store.log, caseRef)[..walk.cursor]
    ensures StoreOk(WalkOn(walk, caseRef, visit).store) && WalkOk(WalkOn(walk, caseRef, visit), caseRef)
    ensures visit.limit > 0 && walk.cursor < |CaseLog(Run(walk.store, visit.appended).log, caseRef)| ==>
      walk.cursor < WalkOn(walk, caseRef, visit).cursor
  {
    RunKeeps(walk.store, visit.appended);
    var store := Run(walk.store, visit.appended);
    CaseLogGrows(walk.store.log, store.log, caseRef);
    assert Numbered(CaseLog(store.log, caseRef));
    PageExtends(store.log, caseRef, walk.delivered, walk.cursor, visit.limit);
  }

  lemma {:induction false} WalkAllKeeps(walk: Walk, caseRef: string, visits: seq<Visit>)
    requires StoreOk(walk.store) && WalkOk(walk, caseRef)
    ensures StoreOk(WalkAll(walk, caseRef, visits).store) && WalkOk(WalkAll(walk, caseRef, visits), caseRef)
  {
    if visits != [] {
      WalkAllKeeps(walk, caseRef, visits[..|visits| - 1]);
      WalkOnKeeps(WalkAll(walk, caseRef, visits[..|visits| - 1]), caseRef, visits[|visits| - 1]);
    }
  }

  /**
   Reading page after page from cursor 0, with any limits and while others append, delivers the
   case's log once and in order, and says that there is more exactly while events remain.
   */
  lemma WalkDeliversLogOnce(cases: set<string>, caseRef: string, visits: seq<Visit>)
    requires visits != []
    ensures var walk := WalkAll(Walk(Start(cases), [], 0, false), caseRef, visits);
      var events := CaseLog(walk.store.log, caseRef);
      && walk.cursor <= |events| && walk.delivered == events[..walk.cursor]
      && (walk.more <==> walk.cursor < |events|)
      && (!walk.more ==> walk.delivered == events)
  {
    WalkAllKeeps(Walk(Start(cases), [], 0, false), caseRef, visits);
    var walk := WalkAll(Walk(Start(cases), [], 0, false), caseRef, visits);
    assert CaseLog(walk.store.log, caseRef)[..|CaseLog(walk.store.log, caseRef)|] == CaseLog(walk.store.log, caseRef);
  }

  /** A page with a positive limit makes progress as long as events remain. */
  lemma PagesMakeProgress(cases: set<string>, caseRef: string, visits: seq<Visit>, visit: Visit)
    requires visit.limit > 0
    requires var walk := WalkAll(Walk(Start(cases), [], 0, false), caseRef, visits);
      walk.cursor < |CaseLog(Run(walk.store, visit.appended).log, caseRef)|
    ensures var walk := WalkAll(Walk(Start(cases), [], 0, false), caseRef, visits);
      walk.cursor < WalkOn(walk, caseRef, visit).cursor
  {
    WalkAllKeeps(Walk(Start(cases), [], 0, false), caseRef, visits);
    WalkOnKeeps(WalkAll(Walk(Start(cases), [], 0, false), caseRef, visits), caseRef, visit);
  }

  // ------------------------------------------------------------------ the repository

  class ActivityRepository {
    const cases: set<string>
    var log: seq<Event>
    var outbox: map<string, Job>

    constructor (known: set<string>)
      ensures Snapshot() == Start(known)
    {
      cases := known;
      log := [];
      outbox := map[];
    }

    function Snapshot(): Store
      reads this
    {
      Store(cases, log, outbox)
    }

    method FindRecord(id: string) returns (event: Option<Event>)
      ensures event == Find(log, id)
    {
      var i := |log|;
      assert log[..i] == log;
      while i > 0
        invariant 0 <= i <= |log|
        invariant Find(log, id) == Find(log[..i], id)
      {
        assert log[..i][..i - 1] == log[..i - 1];
        i := i - 1;
        if log[i].emission.eventId == id {
          return Some(log[i]);
        }
      }
      return None;
    }

    method Append(emission: Emission) returns (answer: Answer)
      modifies this
      ensures (answer, Snapshot()) == AppendTx(old(Snapshot()), emission)
    {
      if emission.caseRef !in cases {
        return UnknownCase;
      }
      var existing := FindRecord(emission.eventId);
      if existing.Some? {
        if existing.value.emission != emission {
          return Refused;
        }
        return Stored(existing.value);
      }
      if emission.payload.Narration? {
        if emission.payload.source !in outbox || !Correlated(outbox[emission.payload.source], emission) {
          return Refused;
        }
        if outbox[emission.payload.source].result.Some? {
          var result := FindRecord(outbox[emission.payload.source].result.value);
          if result.None? {
            return Refused;
          }
          return Stored(result.value);
        }
      }
      var event := Event(emission, Highest(log, emission.caseRef) + 1);
      log := log + [event];
      match emission.payload {
        case Summary(_, _) => outbox := outbox[emission.eventId := Job(FactsOnly(emission), None)];
        case Narration(source, _) => outbox := outbox[source := outbox[source].(result := Some(emission.eventId))];
        case Other(_) =>
      }
      return Stored(event);
    }
  }
}
