/**
 Command idempotency (apps/agent_service/src/return_agent_service/journal.py): the durable,
 lease-based journal shared by all owners, and the in-memory journal it refines for one owner.
 Each operation is one atomic transaction; `now` is the clock the operation reads.
 */
module Journal {
  import opened Common

  datatype Claim = Claimed | Busy | AlreadyTerminal

  datatype State = Running | Completed | Failed

  datatype Row = Row(state: State, claimedBy: Option<string>, claimedUntil: Option<int>)

  type Rows = map<string, Row>

  datatype Op =
    | ClaimOp(id: string, owner: string, now: int, lease: nat)
    | FinishOp(id: string, owner: string, state: State)
    | AbandonOp(id: string, owner: string)

  /** The answer of an operation: a claim, or whether a finish succeeded (it raises otherwise). */
  datatype Answer = ClaimAnswer(claim: Claim) | FinishAnswer(ok: bool) | AbandonAnswer

  /** PostgresCommandJournal */
  function Apply(rows: Rows, op: Op): (Answer, Rows) {
    match op
    case ClaimOp(id, owner, now, lease) =>
      if id !in rows then (ClaimAnswer(Claimed), rows[id := Row(Running, Some(owner), Some(now + lease))])
      else if rows[id].state != Running then (ClaimAnswer(AlreadyTerminal), rows)
      else if rows[id].claimedUntil.Some? && rows[id].claimedUntil.value > now then (ClaimAnswer(Busy), rows)
      else (ClaimAnswer(Claimed), rows[id := rows[id].(claimedBy := Some(owner), claimedUntil := Some(now + lease))])
    case FinishOp(id, owner, state) =>
      if Holds(rows, id, owner) then (FinishAnswer(true), rows[id := Row(state, None, None)]) else (FinishAnswer(false), rows)
    case AbandonOp(id, owner) =>
      (AbandonAnswer, if Holds(rows, id, owner) then rows - {id} else rows)
  }

  predicate Holds(rows: Rows, id: string, owner: string) {
    id in rows && rows[id].state == Running && rows[id].claimedBy == Some(owner)
  }

  predicate Finished(rows: Rows, id: string) {
    id in rows && rows[id].state != Running
  }

  /** InMemoryCommandJournal: owners and clocks play no part. */
  function ApplyInMemory(states: map<string, State>, op: Op): (Answer, map<string, State>) {
    match op
    case ClaimOp(id, _, _, _) =>
      if id in states && states[id] != Running then (ClaimAnswer(AlreadyTerminal), states)
      else if id in states then (ClaimAnswer(Busy), states)
      else (ClaimAnswer(Claimed), states[id := Running])
    case FinishOp(id, _, state) =>
      if id in states && states[id] == Running then (FinishAnswer(true), states[id := state]) else (FinishAnswer(false), states)
    case AbandonOp(id, _) =>
      (AbandonAnswer, if id in states && states[id] == Running then states - {id} else states)
  }

  function Run(rows: Rows, ops: seq<Op>): Rows {
    if ops == [] then rows else Apply(Run(rows, ops[..|ops| - 1]), ops[|ops| - 1]).1
  }

  function Answers(rows: Rows, ops: seq<Op>): seq<Answer> {
    if ops == [] then [] else Answers(rows, ops[..|ops| - 1]) + [Apply(Run(rows, ops[..|ops| - 1]), ops[|ops| - 1]).0]
  }

  function RunInMemory(states: map<string, State>, ops: seq<Op>): map<string, State> {
    if ops == [] then states else ApplyInMemory(RunInMemory(states, ops[..|ops| - 1]), ops[|ops| - 1]).1
  }

  function AnswersInMemory(states: map<string, State>, ops: seq<Op>): seq<Answer> {
    if ops == [] then []
    else AnswersInMemory(states, ops[..|ops| - 1]) + [ApplyInMemory(RunInMemory(states, ops[..|ops| - 1]), ops[|ops| - 1]).0]
  }

  /** finish is only ever called with a terminal state. */
  predicate TerminalFinishes(ops: seq<Op>) {
    forall i :: 0 <= i < |ops| ==> ops[i].FinishOp? ==> ops[i].state != Running
  }

  // ------------------------------------------------------------------ safety over every run

  /** How many finishes of one command succeed in a run. */
  function Finishes(rows: Rows, ops: seq<Op>, id: string): nat {
    if ops == [] then 0
    else
      var before := Run(rows, ops[..|ops| - 1]);
      var op := ops[|ops| - 1];
      Finishes(rows, ops[..|ops| - 1], id) + if op.FinishOp? && op.id == id && Apply(before, op).0 == FinishAnswer(true) then 1 else 0
  }

  /** A finished command keeps its row for good. */
  lemma {:induction false} FinishedIsAbsorbing(rows: Rows, ops: seq<Op>, id: string)
    requires Finished(rows, id)
    ensures id in Run(rows, ops) && Run(rows, ops)[id] == rows[id]
  {
    if ops != [] {
      FinishedIsAbsorbing(rows, ops[..|ops| - 1], id);
    }
  }

  /** Over all owners, a command finishes successfully at most once: exactly if it ends up finished. */
  lemma {:induction false} FinishesAtMostOnce(ops: seq<Op>, id: string)
    requires TerminalFinishes(ops)
    ensures Finishes(map[], ops, id) == if Finished(Run(map[], ops), id) then 1 else 0
  {
    if ops != [] {
      FinishesAtMostOnce(ops[..|ops| - 1], id);
    }
  }

  /**
   While an owner's lease lasts nobody else can change its row, and once another owner has
   taken the command over, the former owner can neither finish nor delete it: whatever the other
   owners do before the lease ends, the row stays exactly as its holder left it.
   */
  lemma {:induction false} LeaseIsExclusive(rows: Rows, ops: seq<Op>, id: string, holder: string)
    requires Holds(rows, id, holder) && rows[id].claimedUntil.Some?
    requires forall i :: 0 <= i < |ops| && ops[i].id == id ==>
               && (ops[i].ClaimOp? ==> ops[i].now < rows[id].claimedUntil.value)
               && (!ops[i].ClaimOp? ==> ops[i].owner != holder)
    ensures id in Run(rows, ops) && Run(rows, ops)[id] == rows[id]
    ensures forall i :: 0 <= i < |ops| && ops[i].id == id ==>
              |Answers(rows, ops)| == |ops| &&
              (ops[i].FinishOp? ==> Answers(rows, ops)[i] == FinishAnswer(false)) &&
              (ops[i].ClaimOp? ==> Answers(rows, ops)[i] == ClaimAnswer(Busy))
  {
    if ops != [] {
      LeaseIsExclusive(rows, ops[..|ops| - 1], id, holder);
      AnswersLength(rows, ops[..|ops| - 1]);
    }
  }

  lemma {:induction false} AnswersLength(rows: Rows, ops: seq<Op>)
    ensures |Answers(rows, ops)| == |ops|
  {
    if ops != [] {
      AnswersLength(rows, ops[..|ops| - 1]);
    }
  }

  /** A claim succeeds exactly on a fresh command or an expired lease, and the claimant then holds it. */
  lemma {:induction false} ClaimSucceedsExactly(rows: Rows, id: string, owner: string, now: int, lease: nat)
    requires id in rows && rows[id].state == Running ==> rows[id].claimedUntil.Some?
    ensures var (answer, later) := Apply(rows, ClaimOp(id, owner, now, lease));
      && (answer == ClaimAnswer(Claimed) <==> id !in rows || (rows[id].state == Running && rows[id].claimedUntil.value <= now))
      && (answer == ClaimAnswer(Claimed) ==> Holds(later, id, owner) && later[id].claimedUntil == Some(now + lease))
      && (answer != ClaimAnswer(Claimed) ==> later == rows)
  {
    assert rows[id := Row(Running, Some(owner), Some(now + lease))][id] == Row(Running, Some(owner), Some(now + lease));
  }

  /** A finish succeeds exactly for the holder of a running command, whose row then has its state and no lease. */
  lemma FinishSucceedsExactly(rows: Rows, id: string, owner: string, state: State)
    ensures var (answer, later) := Apply(rows, FinishOp(id, owner, state));
      && (answer == FinishAnswer(true) <==> Holds(rows, id, owner))
      && (answer != FinishAnswer(true) ==> answer == FinishAnswer(false) && later == rows)
      && (answer == FinishAnswer(true) ==>
            && id in later && later[id].state == state && later[id].claimedBy.None? && later[id].claimedUntil.None?
            && later == rows[id := later[id]])
  {
  }

  /** What a command's holder abandons, anybody can claim at once; nobody else's abandon changes anything. */
  lemma AbandonFrees(rows: Rows, id: string, owner: string, next: string, now: int, lease: nat)
    ensures var later := Apply(rows, AbandonOp(id, owner)).1;
      && (!Holds(rows, id, owner) ==> later == rows)
      && (Holds(rows, id, owner) ==>
            && id !in later && (forall other :: other in rows && other != id ==> other in later && later[other] == rows[other])
            && Apply(later, ClaimOp(id, next, now, lease)).0 == ClaimAnswer(Claimed))
  {
  }

  // ------------------------------------------------------------------ refinement of the in-memory journal

  predicate Abstracts(rows: Rows, states: map<string, State>, owner: string) {
    && rows.Keys == states.Keys
    && (forall id :: id in rows ==>
          && rows[id].state == states[id]
          && (states[id] == Running ==> rows[id].claimedBy == Some(owner) && rows[id].claimedUntil.Some?))
  }

  /** The claim meets a lease that has run out. */
  predicate Expired(rows: Rows, op: Op) {
    op.ClaimOp? && op.id in rows && rows[op.id].state == Running && rows[op.id].claimedUntil.Some? && rows[op.id].claimedUntil.value <= op.now
  }

  /** One owner's operations answer alike exactly when they meet no expired lease. */
  lemma {:induction false} AnswersAgreeExactly(rows: Rows, states: map<string, State>, op: Op, owner: string)
    requires Abstracts(rows, states, owner) && op.owner == owner
    requires op.FinishOp? ==> op.state != Running
    ensures Apply(rows, op).0 == ApplyInMemory(states, op).0 <==> !Expired(rows, op)
    ensures !Expired(rows, op) ==> Abstracts(Apply(rows, op).1, ApplyInMemory(states, op).1, owner)
  {
    assert (rows - {op.id}).Keys == rows.Keys - {op.id} && (states - {op.id}).Keys == states.Keys - {op.id};
  }

  predicate NeverExpired(rows: Rows, ops: seq<Op>) {
    ops == [] || (NeverExpired(rows, ops[..|ops| - 1]) && !Expired(Run(rows, ops[..|ops| - 1]), ops[|ops| - 1]))
  }

  /** For one owner the durable journal answers a sequence as the in-memory one if and only if no claim meets an expired lease. */
  lemma {:induction false} RefinesInMemory(ops: seq<Op>, owner: string)
    requires forall i :: 0 <= i < |ops| ==> ops[i].owner == owner
    requires TerminalFinishes(ops)
    ensures Answers(map[], ops) == AnswersInMemory(map[], ops) <==> NeverExpired(map[], ops)
    ensures NeverExpired(map[], ops) ==> Abstracts(Run(map[], ops), RunInMemory(map[], ops), owner)
  {
    if ops != [] {
      var init, last := ops[..|ops| - 1], ops[|ops| - 1];
      RefinesInMemory(init, owner);
      LastAnswers(init, last);
      assert init + [last] == ops;
      if NeverExpired(map[], init) {
        AnswersAgreeExactly(Run(map[], init), RunInMemory(map[], init), last, owner);
      }
    }
  }

  /** Two sequences of answers agree exactly when they do up to the last operation and on it. */
  lemma LastAnswers(init: seq<Op>, last: Op)
    ensures Answers(map[], init + [last]) == AnswersInMemory(map[], init + [last]) <==>
      && Answers(map[], init) == AnswersInMemory(map[], init)
      && Apply(Run(map[], init), last).0 == ApplyInMemory(RunInMemory(map[], init), last).0
  {
    assert (init + [last])[..|init|] == init;
    var a, b := Answers(map[], init), AnswersInMemory(map[], init);
    var x, y := Apply(Run(map[], init), last).0, ApplyInMemory(RunInMemory(map[], init), last).0;
    assert a + [x] == b + [y] <==> a == b && x == y by {
      if a + [x] == b + [y] {
        assert (a + [x])[..|a|] == a && (b + [y])[..|b|] == b;
        assert (a + [x])[|a|] == x && (b + [y])[|b|] == y;
      }
    }
  }

  // ------------------------------------------------------------------ the journals as objects

  class PostgresCommandJournal {
    var rows: Rows

    constructor ()
      ensures rows == map[]
    {
      rows := map[];
    }

    method Claim(id: string, owner: string, now: int, lease: nat) returns (claim: Claim)
      modifies this
      ensures (ClaimAnswer(claim), rows) == Apply(old(rows), ClaimOp(id, owner, now, lease))
    {
      if id !in rows {
        rows := rows[id := Row(Running, Some(owner), Some(now + lease))];
        return Claimed;
      }
      var row := rows[id];
      if row.state == Completed || row.state == Failed {
        return AlreadyTerminal;
      }
      if row.claimedUntil.Some? && row.claimedUntil.value > now {
        return Busy;
      }
      rows := rows[id := row.(claimedBy := Some(owner), claimedUntil := Some(now + lease))];
      return Claimed;
    }

    method Finish(id: string, owner: string, state: State) returns (ok: bool)
      modifies this
      ensures (FinishAnswer(ok), rows) == Apply(old(rows), FinishOp(id, owner, state))
    {
      if id in rows && rows[id].state == Running && rows[id].claimedBy == Some(owner) {
        rows := rows[id := Row(state, None, None)];
        return true;
      }
      return false;
    }

    method Abandon(id: string, owner: string)
      modifies this
      ensures (AbandonAnswer, rows) == Apply(old(rows), AbandonOp(id, owner))
    {
      if id in rows && rows[id].state == Running && rows[id].claimedBy == Some(owner) {
        rows := rows - {id};
      }
    }
  }

  class InMemoryCommandJournal {
    var states: map<string, State>

    constructor ()
      ensures states == map[]
    {
      states := map[];
    }

    method Claim(id: string) returns (claim: Claim)
      modifies this
      ensures forall owner, now, lease :: (ClaimAnswer(claim), states) == ApplyInMemory(old(states), ClaimOp(id, owner, now, lease))
    {
      if id in states {
        if states[id] == Running {
          return Busy;
        }
        return AlreadyTerminal;
      }
      states := states[id := Running];
      return Claimed;
    }

    method Finish(id: string, state: State) returns (ok: bool)
      modifies this
      ensures forall owner :: (FinishAnswer(ok), states) == ApplyInMemory(old(states), FinishOp(id, owner, state))
    {
      if id !in states || states[id] != Running {
        return false;
      }
      states := states[id := state];
      return true;
    }

    method Abandon(id: string)
      modifies this
      ensures forall owner :: (AbandonAnswer, states) == ApplyInMemory(old(states), AbandonOp(id, owner))
    {
      if id in states && states[id] == Running {
        states := states - {id};
      }
    }
  }
}
