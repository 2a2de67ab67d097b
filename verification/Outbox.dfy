/**
 The command outbox (apps/api/src/return_agent/agent_bridge.py): rows leased with a fresh token,
 appended to the command stream, then marked published by the holder of the token.  Any number of
 dispatchers interleave and crash between a row's claim, the append and the record; dispatchers
 may share an owner name.
 */
module Outbox {
  import opened Common

  datatype Row = Row(payload: string, createdAt: int, publishedAt: Option<int>, claimedBy: Option<string>,
                     claimedUntil: Option<int>, leaseToken: Option<nat>, attempts: nat)

  type Rows = map<string, Row>

  predicate Claimable(row: Row, now: int) {
    row.publishedAt.None? && (row.claimedUntil.None? || row.claimedUntil.value <= now)
  }

  predicate Candidate(rows: Rows, id: string, locked: set<string>, now: int) {
    id in rows && id !in locked && Claimable(rows[id], now)
  }

  /** The row the claim query selects: an oldest claimable one among those no other transaction has locked. */
  ghost predicate Oldest(rows: Rows, id: string, locked: set<string>, now: int) {
    && Candidate(rows, id, locked, now)
    && forall other :: Candidate(rows, other, locked, now) ==> rows[id].createdAt <= rows[other].createdAt
  }

  function ClaimTx(rows: Rows, id: string, owner: string, token: nat, now: int, lease: nat): Rows
    requires id in rows
  {
    rows[id := rows[id].(claimedBy := Some(owner), claimedUntil := Some(now + lease), leaseToken := Some(token))]
  }

  predicate Holds(rows: Rows, id: string, owner: string, token: nat) {
    id in rows && rows[id].publishedAt.None? && rows[id].claimedBy == Some(owner) && rows[id].leaseToken == Some(token)
  }

  /** _record_publish_success with a time, _record_publish_failure without. */
  function RecordTx(rows: Rows, id: string, owner: string, token: nat, publishedAt: Option<int>): Rows {
    if Holds(rows, id, owner, token) then
      var row := rows[id];
      rows[id := Row(row.payload, row.createdAt, publishedAt, None, None, None, row.attempts + 1)]
    else rows
  }

  // ------------------------------------------------------------------ the dispatchers

  datatype Pc =
    | Idle
    | Appending(id: string, payload: string, token: nat)
    | Succeeding(id: string, token: nat)
    | Failing(id: string, token: nat)

  /** `tokens` counts the lease tokens drawn so far: a drawn token is a new one. */
  datatype Sys = Sys(rows: Rows, stream: seq<(string, string)>, tokens: nat, owners: map<string, string>, workers: map<string, Pc>)

  /** xadd: appended, failed, or failed although appended. */
  datatype Fate = Appended | Lost | Ambiguous

  datatype Step =
    | Enqueue(id: string, payload: string, now: int)
    | Claim(w: string, id: string, locked: set<string>, now: int, lease: nat)
    | Append(w: string, fate: Fate)
    | RecordSuccess(w: string, now: int)
    | RecordFailure(w: string)
    | Crash(w: string)

  function PcOf(s: Sys, w: string): Pc { if w in s.workers then s.workers[w] else Idle }

  function OwnerOf(s: Sys, w: string): string { if w in s.owners then s.owners[w] else w }

  function At(s: Sys, w: string, pc: Pc): Sys { s.(workers := s.workers[w := pc]) }

  /** dispatch_outbox_once; a step that does not fit the dispatcher's position does nothing. */
  ghost function Next(s: Sys, step: Step): Sys {
    match step
    case Enqueue(id, payload, now) =>
      if id in s.rows then s else s.(rows := s.rows[id := Row(payload, now, None, None, None, None, 0)])
    case Claim(w, id, locked, now, lease) =>
      if PcOf(s, w).Idle? && Oldest(s.rows, id, locked, now) then
        At(s.(rows := ClaimTx(s.rows, id, OwnerOf(s, w), s.tokens, now, lease), tokens := s.tokens + 1), w,
           Appending(id, s.rows[id].payload, s.tokens))
      else s
    case Append(w, fate) =>
      var pc := PcOf(s, w);
      if pc.Appending? then
        At(if fate == Lost then s else s.(stream := s.stream + [(pc.id, pc.payload)]), w,
           if fate == Appended then Succeeding(pc.id, pc.token) else Failing(pc.id, pc.token))
      else s
    case RecordSuccess(w, now) =>
      var pc := PcOf(s, w);
      if pc.Succeeding? then At(s.(rows := RecordTx(s.rows, pc.id, OwnerOf(s, w), pc.token, Some(now))), w, Idle) else s
    case RecordFailure(w) =>
      var pc := PcOf(s, w);
      if pc.Failing? then At(s.(rows := RecordTx(s.rows, pc.id, OwnerOf(s, w), pc.token, None)), w, Idle) else s
    case Crash(w) => At(s, w, Idle)
  }

  ghost function Run(s: Sys, steps: seq<Step>): Sys {
    if steps == [] then s else Next(Run(s, steps[..|steps| - 1]), steps[|steps| - 1])
  }

  function Start(owners: map<string, string>): Sys { Sys(map[], [], 0, owners, map[]) }

  // ------------------------------------------------------------------ the invariant

  /** A row is leased completely or not at all, never after publication, and with a drawn token. */
  predicate RowOk(s: Sys, id: string, row: Row) {
    && (row.claimedBy.Some? <==> row.leaseToken.Some?) && (row.claimedUntil.Some? <==> row.leaseToken.Some?)
    && (row.leaseToken.Some? ==> row.publishedAt.None? && row.leaseToken.value < s.tokens)
    && (row.publishedAt.Some? ==> (id, row.payload) in s.stream && row.attempts > 0)
  }

  predicate RowsOk(s: Sys) {
    forall id :: id in s.rows ==> RowOk(s, id, s.rows[id])
  }

  predicate EntryOk(s: Sys, entry: (string, string)) {
    entry.0 in s.rows && s.rows[entry.0].payload == entry.1
  }

  predicate StreamOk(s: Sys) {
    forall i :: 0 <= i < |s.stream| ==> EntryOk(s, s.stream[i])
  }

  /** A dispatcher's token was drawn for the row it works on, and it records success only after the append. */
  predicate PcOk(s: Sys, w: string, pc: Pc) {
    !pc.Idle? ==>
      && pc.token < s.tokens && pc.id in s.rows
      && (s.rows[pc.id].leaseToken == Some(pc.token) ==> s.rows[pc.id].claimedBy == Some(OwnerOf(s, w)))
      && (pc.Appending? ==> pc.payload == s.rows[pc.id].payload)
      && (pc.Succeeding? ==> (pc.id, s.rows[pc.id].payload) in s.stream)
  }

  predicate WorkersOk(s: Sys) {
    forall w :: w in s.workers ==> PcOk(s, w, s.workers[w])
  }

  /** No two dispatchers have the same token. */
  predicate Apart(s: Sys, w: string, v: string) {
    PcOf(s, w).Idle? || PcOf(s, v).Idle? || PcOf(s, w).token != PcOf(s, v).token
  }

  predicate TokensDiffer(s: Sys) {
    forall w, v :: w in s.workers && v in s.workers && w != v ==> Apart(s, w, v)
  }

  predicate SysOk(s: Sys) { RowsOk(s) && StreamOk(s) && WorkersOk(s) && TokensDiffer(s) }

  /** Rows stay, published rows stay exactly as they are, and the stream only grows. */
  predicate Preserves(s: Sys, later: Sys) {
    && later.owners == s.owners
    && s.stream <= later.stream
    && forall id :: id in s.rows ==> RowKept(s, later, id)
  }

  predicate RowKept(s: Sys, later: Sys, id: string)
    requires id in s.rows
  {
    && id in later.rows
    && later.rows[id].payload == s.rows[id].payload && later.rows[id].createdAt == s.rows[id].createdAt
    && s.rows[id].attempts <= later.rows[id].attempts
    && (s.rows[id].publishedAt.Some? ==> later.rows[id] == s.rows[id])
  }

  lemma EnqueueKeeps(s: Sys, id: string, payload: string, now: int)
    requires SysOk(s) && id !in s.rows
    ensures var later := Next(s, Enqueue(id, payload, now)); SysOk(later) && Preserves(s, later)
  {
    var later := Next(s, Enqueue(id, payload, now));
    assert RowsOk(later) by {
      forall other | other in later.rows
        ensures RowOk(later, other, later.rows[other])
      {
        if other in s.rows { assert RowOk(s, other, s.rows[other]); }
      }
    }
    assert StreamOk(later) by {
      forall i | 0 <= i < |later.stream|
        ensures EntryOk(later, later.stream[i])
      {
        assert EntryOk(s, s.stream[i]);
      }
    }
    assert WorkersOk(later) by {
      forall w | w in later.workers
        ensures PcOk(later, w, later.workers[w])
      {
        assert PcOk(s, w, s.workers[w]);
      }
    }
    assert TokensDiffer(later) by {
      forall w, v | w in later.workers && v in later.workers && w != v
        ensures Apart(later, w, v)
      {
        assert Apart(s, w, v);
      }
    }
  }

  lemma {:induction false} ClaimKeeps(s: Sys, w: string, id: string, locked: set<string>, now: int, lease: nat)
    requires SysOk(s) && PcOf(s, w).Idle? && Oldest(s.rows, id, locked, now)
    ensures var later := Next(s, Claim(w, id, locked, now, lease)); SysOk(later) && Preserves(s, later)
  {
    var later := Next(s, Claim(w, id, locked, now, lease));
    assert RowsOk(later) by {
      forall other | other in later.rows
        ensures RowOk(later, other, later.rows[other])
      {
        assert RowOk(s, other, s.rows[other]);
      }
    }
    assert StreamOk(later) by {
      forall i | 0 <= i < |later.stream|
        ensures EntryOk(later, later.stream[i])
      {
        assert EntryOk(s, s.stream[i]);
      }
    }
    assert WorkersOk(later) by {
      forall v | v in later.workers
        ensures PcOk(later, v, later.workers[v])
      {
        if v != w { assert PcOk(s, v, s.workers[v]); }
      }
    }
    assert TokensDiffer(later) by {
      forall u, v | u in later.workers && v in later.workers && u != v
        ensures Apart(later, u, v)
      {
        if u != w && v != w { assert Apart(s, u, v); }
        if u != w { assert PcOk(s, u, s.workers[u]); }
        if v != w { assert PcOk(s, v, s.workers[v]); }
      }
    }
  }

  /** A step that moves a dispatcher on, possibly appending its row. */
  lemma {:induction false} MoveKeeps(s: Sys, w: string, pc: Pc, entries: seq<(string, string)>)
    requires SysOk(s)
    requires forall i :: 0 <= i < |entries| ==> EntryOk(s, entries[i])
    requires pc.Idle? || (!PcOf(s, w).Idle? && pc.token == PcOf(s, w).token)
    requires var later := At(s.(stream := s.stream + entries), w, pc); PcOk(later, w, pc)
    ensures var later := At(s.(stream := s.stream + entries), w, pc); SysOk(later) && Preserves(s, later)
  {
    var later := At(s.(stream := s.stream + entries), w, pc);
    assert RowsOk(later) by {
      forall id | id in later.rows
        ensures RowOk(later, id, later.rows[id])
      {
        assert RowOk(s, id, s.rows[id]);
      }
    }
    assert StreamOk(later) by {
      forall i | 0 <= i < |later.stream|
        ensures EntryOk(later, later.stream[i])
      {
        if i < |s.stream| { assert EntryOk(s, s.stream[i]); } else { assert EntryOk(s, entries[i - |s.stream|]); }
      }
    }
    assert WorkersOk(later) by {
      forall v | v in later.workers
        ensures PcOk(later, v, later.workers[v])
      {
        if v != w { assert PcOk(s, v, s.workers[v]); }
      }
    }
    assert TokensDiffer(later) by {
      forall u, v | u in later.workers && v in later.workers && u != v
        ensures Apart(later, u, v)
      {
        if u in s.workers && v in s.workers { assert Apart(s, u, v); }
      }
    }
  }

  /** Recording the outcome of an append. */
  lemma {:induction false} RecordKeeps(s: Sys, w: string, publishedAt: Option<int>)
    requires SysOk(s) && (if publishedAt.Some? then PcOf(s, w).Succeeding? else PcOf(s, w).Failing?)
    ensures var pc := PcOf(s, w);
      var later := At(s.(rows := RecordTx(s.rows, pc.id, OwnerOf(s, w), pc.token, publishedAt)), w, Idle);
      SysOk(later) && Preserves(s, later)
  {
    var pc := PcOf(s, w);
    assert PcOk(s, w, s.workers[w]);
    var later := At(s.(rows := RecordTx(s.rows, pc.id, OwnerOf(s, w), pc.token, publishedAt)), w, Idle);
    assert RowsOk(later) by {
      forall id | id in later.rows
        ensures RowOk(later, id, later.rows[id])
      {
        assert RowOk(s, id, s.rows[id]);
      }
    }
    assert StreamOk(later) by {
      forall i | 0 <= i < |later.stream|
        ensures EntryOk(later, later.stream[i])
      {
        assert EntryOk(s, s.stream[i]);
      }
    }
    assert WorkersOk(later) by {
      forall v | v in later.workers
        ensures PcOk(later, v, later.workers[v])
      {
        if v != w { assert PcOk(s, v, s.workers[v]); }
      }
    }
    assert TokensDiffer(later) by {
      forall u, v | u in later.workers && v in later.workers && u != v
        ensures Apart(later, u, v)
      {
        assert Apart(s, u, v);
      }
    }
  }

  lemma {:induction false} NextKeeps(s: Sys, step: Step)
    requires SysOk(s)
    ensures SysOk(Next(s, step)) && Preserves(s, Next(s, step))
  {
    if Next(s, step) != s {
      match step {
        case Enqueue(id, payload, now) => EnqueueKeeps(s, id, payload, now);
        case Claim(w, id, locked, now, lease) => ClaimKeeps(s, w, id, locked, now, lease);
        case Append(w, fate) =>
          var pc := PcOf(s, w);
          assert PcOk(s, w, s.workers[w]);
          var entries := if fate == Lost then [] else [(pc.id, pc.payload)];
          assert s.stream + [] == s.stream;
          MoveKeeps(s, w, if fate == Appended then Succeeding(pc.id, pc.token) else Failing(pc.id, pc.token), entries);
        case RecordSuccess(w, now) => RecordKeeps(s, w, Some(now));
        case RecordFailure(w) => RecordKeeps(s, w, None);
        case Crash(w) =>
          assert s.stream + [] == s.stream;
          MoveKeeps(s, w, Idle, []);
      }
    }
  }

  lemma {:induction false} RunKeeps(s: Sys, steps: seq<Step>)
    requires SysOk(s)
    ensures SysOk(Run(s, steps)) && Preserves(s, Run(s, steps))
  {
    if steps != [] {
      var mid := Run(s, steps[..|steps| - 1]);
      RunKeeps(s, steps[..|steps| - 1]);
      NextKeeps(mid, steps[|steps| - 1]);
      assert forall id :: id in s.rows ==> RowKept(s, mid, id) && RowKept(mid, Run(s, steps), id);
    }
  }

  // ------------------------------------------------------------------ main results

  /** What the stream carries is an outbox row's payload, and a published row was appended before. */
  lemma PublishedWasAppended(owners: map<string, string>, steps: seq<Step>)
    ensures var s := Run(Start(owners), steps);
      && (forall id :: id in s.rows && s.rows[id].publishedAt.Some? ==> (id, s.rows[id].payload) in s.stream)
      && (forall i :: 0 <= i < |s.stream| ==> s.stream[i].0 in s.rows && s.rows[s.stream[i].0].payload == s.stream[i].1)
  {
    RunKeeps(Start(owners), steps);
    var s := Run(Start(owners), steps);
    forall id | id in s.rows && s.rows[id].publishedAt.Some?
      ensures (id, s.rows[id].payload) in s.stream
    {
      assert RowOk(s, id, s.rows[id]);
    }
    forall i | 0 <= i < |s.stream|
      ensures s.stream[i].0 in s.rows && s.rows[s.stream[i].0].payload == s.stream[i].1
    {
      assert EntryOk(s, s.stream[i]);
    }
  }

  /** Published once: no later step changes, claims or publishes the row again. */
  lemma {:induction false} PublishedOnce(owners: map<string, string>, steps: seq<Step>, more: seq<Step>, id: string)
    requires var s := Run(Start(owners), steps); id in s.rows && s.rows[id].publishedAt.Some?
    ensures var s, later := Run(Start(owners), steps), Run(Run(Start(owners), steps), more);
      id in later.rows && later.rows[id] == s.rows[id]
  {
    RunKeeps(Start(owners), steps);
    RunKeeps(Run(Start(owners), steps), more);
    assert RowKept(Run(Start(owners), steps), Run(Run(Start(owners), steps), more), id);
  }

  /** The dispatcher's lease on the row is the current one. */
  predicate Leases(s: Sys, w: string, id: string) {
    !PcOf(s, w).Idle? && PcOf(s, w).id == id && id in s.rows && s.rows[id].leaseToken == Some(PcOf(s, w).token)
  }

  /**
   While a dispatcher leases a row, only the expiry of that lease lets any other step touch the
   row: whatever another dispatcher records for it has no effect, even under the same owner name.
   */
  lemma StaleLeaseIsFenced(owners: map<string, string>, steps: seq<Step>, step: Step, w: string, id: string)
    requires var s := Run(Start(owners), steps); Leases(s, w, id)
    requires !step.Enqueue? ==> step.w != w
    requires step.Claim? ==> var s := Run(Start(owners), steps); s.rows[id].claimedUntil.Some? ==> step.now < s.rows[id].claimedUntil.value
    ensures var s := Run(Start(owners), steps);
      && id in Next(s, step).rows && Next(s, step).rows[id] == s.rows[id]
      && Leases(Next(s, step), w, id)
  {
    RunKeeps(Start(owners), steps);
    var s := Run(Start(owners), steps);
    assert RowOk(s, id, s.rows[id]);
    if (step.RecordSuccess? || step.RecordFailure?) && !PcOf(s, step.w).Idle? {
      assert Apart(s, step.w, w);
    }
  }

  /** The holder's own success record does publish the row. */
  lemma HolderPublishes(owners: map<string, string>, steps: seq<Step>, w: string, id: string, now: int)
    requires var s := Run(Start(owners), steps); Leases(s, w, id) && PcOf(s, w).Succeeding?
    ensures var s := Run(Start(owners), steps);
      Next(s, RecordSuccess(w, now)).rows[id] == Row(s.rows[id].payload, s.rows[id].createdAt, Some(now), None, None, None, s.rows[id].attempts + 1)
  {
    RunKeeps(Start(owners), steps);
    var s := Run(Start(owners), steps);
    assert RowOk(s, id, s.rows[id]) && PcOk(s, w, s.workers[w]);
  }

  /** The row is released: one attempt older, without lease, and claimable at once; nothing else has changed. */
  predicate Released(s: Sys, later: Sys, w: string, id: string, now: int)
    requires id in s.rows
  {
    var row := s.rows[id];
    && later.rows == s.rows[id := Row(row.payload, row.createdAt, None, None, None, None, row.attempts + 1)]
    && later.stream == s.stream && PcOf(later, w).Idle? && Candidate(later.rows, id, {}, now)
  }

  /** The holder's failure record releases the row: it is claimable again at once, one attempt older and otherwise as enqueued. */
  lemma HolderReleases(owners: map<string, string>, steps: seq<Step>, w: string, id: string, now: int)
    requires var s := Run(Start(owners), steps); Leases(s, w, id) && PcOf(s, w).Failing?
    ensures var s := Run(Start(owners), steps); Released(s, Next(s, RecordFailure(w)), w, id, now)
  {
    RunKeeps(Start(owners), steps);
    FailureReleases(Run(Start(owners), steps), w, id, now);
  }

  lemma FailureReleases(s: Sys, w: string, id: string, now: int)
    requires RowsOk(s) && WorkersOk(s) && Leases(s, w, id) && PcOf(s, w).Failing?
    ensures Released(s, Next(s, RecordFailure(w)), w, id, now)
  {
    assert RowOk(s, id, s.rows[id]) && PcOk(s, w, s.workers[w]);
  }

  /** A claim leases the selected row, and only it, until the end of the lease, with a token that no row and no other dispatcher has. */
  lemma ClaimLeases(owners: map<string, string>, steps: seq<Step>, w: string, id: string, locked: set<string>, now: int, lease: nat)
    requires var s := Run(Start(owners), steps); PcOf(s, w).Idle? && Oldest(s.rows, id, locked, now)
    ensures var s := Run(Start(owners), steps);
      var later := Next(s, Claim(w, id, locked, now, lease));
      && Leases(later, w, id) && PcOf(later, w).Appending? && PcOf(later, w).payload == s.rows[id].payload
      && later.rows[id].claimedUntil == Some(now + lease) && later.rows[id].claimedBy == Some(OwnerOf(s, w))
      && later.rows[id].publishedAt.None? && later.rows[id].attempts == s.rows[id].attempts
      && (forall other :: other in s.rows && other != id ==>
            other in later.rows && later.rows[other] == s.rows[other] && s.rows[other].leaseToken != Some(PcOf(later, w).token))
      && (forall v :: v in s.workers && v != w && !PcOf(s, v).Idle? ==> PcOf(s, v).token != PcOf(later, w).token)
      && (forall time :: now <= time < now + lease ==> !Candidate(later.rows, id, {}, time))
  {
    RunKeeps(Start(owners), steps);
    var s := Run(Start(owners), steps);
    forall other | other in s.rows ensures s.rows[other].leaseToken != Some(s.tokens) { assert RowOk(s, other, s.rows[other]); }
    forall v | v in s.workers && v != w && !PcOf(s, v).Idle? ensures PcOf(s, v).token != s.tokens { assert PcOk(s, v, s.workers[v]); }
  }

  /** A new command is there, unpublished, and claimable at once; an old one stays as it is. */
  lemma EnqueuedIsClaimable(s: Sys, id: string, payload: string, now: int)
    ensures var later := Next(s, Enqueue(id, payload, now));
      && id in later.rows && later == s.(rows := s.rows[id := later.rows[id]])
      && (id in s.rows ==> later.rows[id] == s.rows[id])
      && (id !in s.rows ==>
            && later.rows[id].payload == payload && later.rows[id].createdAt == now && later.rows[id].attempts == 0
            && later.rows[id].publishedAt.None? && forall time :: Candidate(later.rows, id, {}, time))
  {
    if id in s.rows { assert s.rows[id := s.rows[id]] == s.rows; }
  }

  /** What is sent is the row's payload; a failure of the call leads to a failure record, whether or not the entry was appended. */
  lemma AppendSends(s: Sys, w: string, fate: Fate)
    requires PcOf(s, w).Appending?
    ensures var pc, later := PcOf(s, w), Next(s, Append(w, fate));
      && later.rows == s.rows
      && later.stream == (if fate == Lost then s.stream else s.stream + [(pc.id, pc.payload)])
      && PcOf(later, w) == if fate == Appended then Succeeding(pc.id, pc.token) else Failing(pc.id, pc.token)
  {
  }

  // ------------------------------------------------------------------ every row can be published

  predicate LeasesExpired(s: Sys, now: int) {
    forall id :: id in s.rows && s.rows[id].claimedUntil.Some? ==> s.rows[id].claimedUntil.value <= now
  }

  function Unpublished(s: Sys): set<string> { set id | id in s.rows && s.rows[id].publishedAt.None? }

  lemma {:induction false} OldestOf(rows: Rows, ids: set<string>)
    requires ids != {} && ids <= rows.Keys
    ensures exists id :: id in ids && forall other :: other in ids ==> rows[id].createdAt <= rows[other].createdAt
    decreases ids
  {
    var first :| first in ids;
    if ids != {first} {
      OldestOf(rows, ids - {first});
      var next :| next in ids - {first} && forall other :: other in ids - {first} ==> rows[next].createdAt <= rows[other].createdAt;
      var least := if rows[first].createdAt <= rows[next].createdAt then first else next;
      assert forall other :: other in ids ==> other == first || other in ids - {first};
      assert least in ids && forall other :: other in ids ==> rows[least].createdAt <= rows[other].createdAt;
    } else {
      assert forall other :: other in ids ==> other == first;
    }
  }

  /** The steps of one undisturbed round of a dispatcher. */
  function Round(w: string, id: string, now: int, lease: nat): seq<Step> {
    [Crash(w), Claim(w, id, {}, now, lease), Append(w, Appended), RecordSuccess(w, now)]
  }

  ghost function AfterRound(s: Sys, w: string, id: string, now: int, lease: nat): Sys {
    Next(Next(Next(Next(s, Crash(w)), Claim(w, id, {}, now, lease)), Append(w, Appended)), RecordSuccess(w, now))
  }

  function PublishedRow(row: Row, now: int): Row {
    Row(row.payload, row.createdAt, Some(now), None, None, None, row.attempts + 1)
  }

  /** The claimed row, and no other, is appended and published. */
  lemma RoundPublishes(s: Sys, w: string, id: string, now: int, lease: nat)
    requires Oldest(s.rows, id, {}, now)
    ensures var later := AfterRound(s, w, id, now, lease);
      later.rows == s.rows[id := PublishedRow(s.rows[id], now)] && later.stream == s.stream + [(id, s.rows[id].payload)]
  {
    var s2 := Next(Next(s, Crash(w)), Claim(w, id, {}, now, lease));
    assert s2.rows == ClaimTx(s.rows, id, OwnerOf(s, w), s.tokens, now, lease);
    var s3 := Next(s2, Append(w, Appended));
    assert s3.rows == s2.rows && PcOf(s3, w) == Succeeding(id, s.tokens);
    assert Holds(s3.rows, id, OwnerOf(s, w), s.tokens);
  }

  lemma RunConcat(s: Sys, steps: seq<Step>, more: seq<Step>)
    ensures Run(s, steps + more) == Run(Run(s, steps), more)
    decreases |more|
  {
    if more == [] {
      assert steps + more == steps;
    } else {
      var init := more[..|more| - 1];
      assert (steps + more)[..|steps + more| - 1] == steps + init;
      RunConcat(s, steps, init);
    }
  }

  lemma RoundRuns(s: Sys, w: string, id: string, now: int, lease: nat)
    ensures Run(s, Round(w, id, now, lease)) == AfterRound(s, w, id, now, lease)
  {
    var steps := Round(w, id, now, lease);
    assert steps[..3][..2] == steps[..2] && steps[..2][..1] == steps[..1] && steps[..1][..0] == [];
    assert Run(s, steps[..1]) == Next(s, steps[0]);
    assert Run(s, steps[..2]) == Next(Run(s, steps[..1]), steps[1]);
    assert Run(s, steps[..3]) == Next(Run(s, steps[..2]), steps[2]);
  }

  /** Round after round of one dispatcher, at one time. */
  function Rounds(w: string, ids: seq<string>, now: int, lease: nat): seq<Step> {
    if ids == [] then [] else Round(w, ids[0], now, lease) + Rounds(w, ids[1..], now, lease)
  }

  function Entries(rows: Rows, ids: seq<string>): seq<(string, string)>
    requires forall id :: id in ids ==> id in rows
  {
    if ids == [] then [] else [(ids[0], rows[ids[0]].payload)] + Entries(rows, ids[1..])
  }

  /** The unpublished rows, each once, oldest first. */
  ghost predicate OldestFirst(s: Sys, ids: seq<string>) {
    && (forall id :: id in ids <==> id in Unpublished(s))
    && (forall i, k :: 0 <= i < k < |ids| ==> InTurn(s.rows, ids[i], ids[k]))
  }

  predicate InTurn(rows: Rows, id: string, other: string) {
    id != other && id in rows && other in rows && rows[id].createdAt <= rows[other].createdAt
  }

  /** Exactly the listed rows were published at `now`, in this order; every other row is as before. */
  ghost predicate Drained(s: Sys, later: Sys, ids: seq<string>, now: int)
    requires OldestFirst(s, ids)
  {
    && later.rows.Keys == s.rows.Keys
    && (forall id :: id in s.rows ==> later.rows[id] == if id in ids then PublishedRow(s.rows[id], now) else s.rows[id])
    && later.stream == s.stream + Entries(s.rows, ids)
  }

  ghost predicate DrainsBy(s: Sys, w: string, ids: seq<string>, now: int, lease: nat) {
    OldestFirst(s, ids) && Drained(s, Run(s, Rounds(w, ids, now, lease)), ids, now)
  }

  lemma {:induction false} EntriesOfOthers(rows: Rows, ids: seq<string>, id: string, row: Row)
    requires (forall other :: other in ids ==> other in rows) && id !in ids
    ensures Entries(rows[id := row], ids) == Entries(rows, ids)
  {
    if ids != [] { EntriesOfOthers(rows, ids[1..], id, row); }
  }

  /** The oldest row in front of the others. */
  lemma ListGrows(s: Sys, mid: Sys, id: string, rest: seq<string>, now: int)
    requires Oldest(s.rows, id, {}, now) && LeasesExpired(s, now)
    requires mid.rows == s.rows[id := PublishedRow(s.rows[id], now)] && OldestFirst(mid, rest)
    ensures OldestFirst(s, [id] + rest)
  {
    var ids := [id] + rest;
    assert Unpublished(mid) == Unpublished(s) - {id};
    forall i, k | 0 <= i < k < |ids|
      ensures InTurn(s.rows, ids[i], ids[k])
    {
      assert ids[k] == rest[k - 1] && rest[k - 1] in rest && rest[k - 1] in Unpublished(mid);
      if i == 0 {
        assert Candidate(s.rows, ids[k], {}, now);
      } else {
        assert ids[i] == rest[i - 1] && rest[i - 1] in rest && InTurn(mid.rows, rest[i - 1], rest[k - 1]);
      }
    }
  }

  lemma DrainedInParts(s: Sys, mid: Sys, later: Sys, id: string, rest: seq<string>, now: int)
    requires Oldest(s.rows, id, {}, now) && OldestFirst(s, [id] + rest) && OldestFirst(mid, rest) && id !in rest
    requires mid.rows == s.rows[id := PublishedRow(s.rows[id], now)] && mid.stream == s.stream + [(id, s.rows[id].payload)]
    requires Drained(mid, later, rest, now)
    ensures Drained(s, later, [id] + rest, now)
  {
    EntriesOfOthers(s.rows, rest, id, PublishedRow(s.rows[id], now));
    assert ([id] + rest)[1..] == rest;
    assert s.stream + [(id, s.rows[id].payload)] + Entries(s.rows, rest) == s.stream + ([(id, s.rows[id].payload)] + Entries(s.rows, rest));
  }

  lemma SomeOldest(s: Sys, now: int)
    requires LeasesExpired(s, now) && Unpublished(s) != {}
    ensures exists id :: Oldest(s.rows, id, {}, now)
  {
    OldestOf(s.rows, Unpublished(s));
    var id :| id in Unpublished(s) && forall other :: other in Unpublished(s) ==> s.rows[id].createdAt <= s.rows[other].createdAt;
    assert forall other :: Candidate(s.rows, other, {}, now) ==> other in Unpublished(s);
    assert Oldest(s.rows, id, {}, now);
  }

  lemma {:induction false} Drains(s: Sys, w: string, now: int, lease: nat)
    requires LeasesExpired(s, now)
    ensures exists ids :: DrainsBy(s, w, ids, now, lease)
    decreases Unpublished(s)
  {
    if Unpublished(s) == {} {
      assert s.stream + [] == s.stream;
      assert DrainsBy(s, w, [], now, lease);
    } else {
      SomeOldest(s, now);
      var id :| Oldest(s.rows, id, {}, now);
      var mid := Run(s, Round(w, id, now, lease));
      RoundPublishes(s, w, id, now, lease);
      RoundRuns(s, w, id, now, lease);
      assert Unpublished(mid) == Unpublished(s) - {id} && id in Unpublished(s);
      Drains(mid, w, now, lease);
      var rest :| DrainsBy(mid, w, rest, now, lease);
      FirstRound(s, w, id, rest, now, lease);
    }
  }

  /** A round for the oldest row, and then the rounds that drain what is left. */
  lemma FirstRound(s: Sys, w: string, id: string, rest: seq<string>, now: int, lease: nat)
    requires LeasesExpired(s, now) && Oldest(s.rows, id, {}, now)
    requires DrainsBy(Run(s, Round(w, id, now, lease)), w, rest, now, lease)
    ensures DrainsBy(s, w, [id] + rest, now, lease)
  {
    var mid := Run(s, Round(w, id, now, lease));
    RoundPublishes(s, w, id, now, lease);
    RoundRuns(s, w, id, now, lease);
    ListGrows(s, mid, id, rest, now);
    assert id !in Unpublished(mid);
    DrainedInParts(s, mid, Run(mid, Rounds(w, rest, now, lease)), id, rest, now);
    assert ([id] + rest)[1..] == rest;
    RunConcat(s, Round(w, id, now, lease), Rounds(w, rest, now, lease));
  }

  /**
   Whatever happened before, once the leases have run out, the rounds of one dispatcher alone
   publish every remaining row at that time, each once and oldest first, and append exactly their
   payloads in that order: no crash or stale lease withholds a row for good.
   */
  lemma EveryRowCanBePublished(owners: map<string, string>, steps: seq<Step>, w: string, now: int, lease: nat)
    requires LeasesExpired(Run(Start(owners), steps), now)
    ensures var s := Run(Start(owners), steps);
      exists ids :: DrainsBy(s, w, ids, now, lease) && Unpublished(Run(s, Rounds(w, ids, now, lease))) == {}
  {
    var s := Run(Start(owners), steps);
    Drains(s, w, now, lease);
    var ids :| DrainsBy(s, w, ids, now, lease);
    assert forall id :: id in s.rows && s.rows[id].publishedAt.None? ==> id in Unpublished(s);
    assert Unpublished(Run(s, Rounds(w, ids, now, lease))) == {};
  }

  /** The step leased the row for as long as the row says. */
  predicate LeasedBy(step: Step, id: string, row: Row) {
    step.Claim? && step.id == id && row.claimedUntil == Some(step.now + step.lease)
  }

  lemma ClaimsSetLeases(s: Sys, step: Step, id: string)
    requires id in Next(s, step).rows && Next(s, step).rows[id].claimedUntil.Some?
    requires id in s.rows ==> s.rows[id].claimedUntil != Next(s, step).rows[id].claimedUntil
    ensures LeasedBy(step, id, Next(s, step).rows[id])
  {
  }

  lemma PublishedStays(s: Sys, step: Step, id: string)
    requires id in s.rows && s.rows[id].publishedAt.Some?
    ensures id in Next(s, step).rows && Next(s, step).rows[id].publishedAt.Some?
  {
  }

  /**
   Every unpublished row is claimable at all times from the end of its lease on, which some claim
   of this very row set; a row without a lease is claimable at any time.
   */
  lemma {:induction false} UnpublishedBecomesClaimable(owners: map<string, string>, steps: seq<Step>, id: string, now: int)
    requires id in Unpublished(Run(Start(owners), steps))
    ensures var row := Run(Start(owners), steps).rows[id];
      && (Candidate(Run(Start(owners), steps).rows, id, {}, now) <==> row.claimedUntil.None? || row.claimedUntil.value <= now)
      && (row.claimedUntil.Some? ==> exists i :: 0 <= i < |steps| && LeasedBy(steps[i], id, row))
  {
    if steps != [] {
      var init, last := steps[..|steps| - 1], steps[|steps| - 1];
      var s, later := Run(Start(owners), init), Run(Start(owners), steps);
      if id in s.rows && later.rows[id].claimedUntil == s.rows[id].claimedUntil {
        if s.rows[id].publishedAt.Some? { PublishedStays(s, last, id); }
        UnpublishedBecomesClaimable(owners, init, id, now);
        if later.rows[id].claimedUntil.Some? {
          var i :| 0 <= i < |init| && LeasedBy(init[i], id, s.rows[id]);
          assert LeasedBy(steps[i], id, later.rows[id]);
        }
      } else if later.rows[id].claimedUntil.Some? {
        ClaimsSetLeases(s, last, id);
        assert LeasedBy(steps[|steps| - 1], id, later.rows[id]);
      }
    }
  }

  // ------------------------------------------------------------------ the table

  class OutboxTable {
    var rows: Rows

    constructor ()
      ensures rows == map[]
    {
      rows := map[];
    }

    /** The query of _claim_next_outbox_command. */
    method SelectNext(locked: set<string>, now: int) returns (id: Option<string>)
      ensures id.None? <==> forall other :: !Candidate(rows, other, locked, now)
      ensures id.Some? ==> Oldest(rows, id.value, locked, now)
    {
      var left := rows.Keys;
      id := None;
      while left != {}
        invariant left <= rows.Keys
        invariant id.None? ==> forall other :: Candidate(rows, other, locked, now) ==> other in left
        invariant id.Some? ==>
          && Candidate(rows, id.value, locked, now)
          && forall other :: Candidate(rows, other, locked, now) && other !in left ==> rows[id.value].createdAt <= rows[other].createdAt
        decreases left
      {
        var next :| next in left;
        left := left - {next};
        if Candidate(rows, next, locked, now) && (id.None? || rows[next].createdAt < rows[id.value].createdAt) {
          id := Some(next);
        }
      }
    }

    method ClaimNext(owner: string, token: nat, locked: set<string>, now: int, lease: nat) returns (claim: Option<(string, string)>)
      modifies this
      ensures claim.None? ==> rows == old(rows) && forall other :: !Candidate(rows, other, locked, now)
      ensures claim.Some? ==>
        && Oldest(old(rows), claim.value.0, locked, now)
        && claim.value.1 == old(rows)[claim.value.0].payload
        && rows == ClaimTx(old(rows), claim.value.0, owner, token, now, lease)
    {
      var id := SelectNext(locked, now);
      if id.None? {
        return None;
      }
      var row := rows[id.value];
      rows := rows[id.value := row.(claimedBy := Some(owner), claimedUntil := Some(now + lease), leaseToken := Some(token))];
      return Some((id.value, row.payload));
    }

    method RecordPublishSuccess(id: string, owner: string, token: nat, now: int)
      modifies this
      ensures rows == RecordTx(old(rows), id, owner, token, Some(now))
    {
      if id !in rows || rows[id].publishedAt.Some? || rows[id].claimedBy != Some(owner) || rows[id].leaseToken != Some(token) {
        return;
      }
      var row := rows[id];
      rows := rows[id := row.(attempts := row.attempts + 1, publishedAt := Some(now), claimedBy := None, claimedUntil := None, leaseToken := None)];
    }

    method RecordPublishFailure(id: string, owner: string, token: nat)
      modifies this
      ensures rows == RecordTx(old(rows), id, owner, token, None)
    {
      if id !in rows || rows[id].publishedAt.Some? || rows[id].claimedBy != Some(owner) || rows[id].leaseToken != Some(token) {
        return;
      }
      var row := rows[id];
      rows := rows[id := row.(attempts := row.attempts + 1, claimedBy := None, claimedUntil := None, leaseToken := None)];
    }
  }
}
