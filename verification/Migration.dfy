/**
 The reservation migration (apps/api/alembic/versions/0007_refund_item_reservations.py): a
 preflight over the legacy executions and their ledger, and the rows that the upgrade inserts.
 A payload hash is the payload it was made from.
 */
module Migration {
  import opened Common

  datatype State = InProgress | Succeeded | Rejected

  /** An element of the JSON list line_item_ids. */
  datatype Element = Text(text: string) | NotText

  datatype Scope = NotAList | Items(elements: seq<Element>)

  /** `Malformed` stands for every payload on which the lookups of the preflight raise. */
  datatype Payload =
    | Malformed(raw: string)
    | Request(handoffId: string, caseRef: string, blocked: Option<bool>, action: string, scope: Scope, rest: string)

  datatype Execution = Execution(ref: string, handoffId: string, caseRef: string, orderRef: Option<string>, state: State,
                                 payload: Payload, payloadHash: Payload)

  datatype LedgerRow = LedgerRow(execution: string, order: string, item: string)

  datatype Reservation = Reservation(order: string, item: string, execution: string)

  type Key = (string, string)

  predicate IsSpace(c: char) { c in {' ', '\t', '\n', '\r'} || c == (11 as char) || c == (12 as char) }

  predicate Blank(s: string) { forall k :: 0 <= k < |s| ==> IsSpace(s[k]) }

  predicate Reserves(row: Execution) { row.state == InProgress || row.state == Succeeded }

  predicate TextsOk(elements: seq<Element>) {
    && (forall k :: 0 <= k < |elements| ==> elements[k].Text? && !Blank(elements[k].text))
    && forall j, k :: 0 <= j < k < |elements| ==> elements[j] != elements[k]
  }

  /** A request whose stored hash, references and item list are sound. */
  predicate RequestOk(row: Execution) {
    && row.payloadHash == row.payload
    && row.payload.Request?
    && row.payload.handoffId == row.handoffId && row.payload.caseRef == row.caseRef
    && row.payload.blocked == Some(false) && row.payload.action == "FULL_REFUND"
    && row.orderRef.Some? && !Blank(row.orderRef.value)
    && row.payload.scope.Items? && row.payload.scope.elements != []
    && TextsOk(row.payload.scope.elements)
  }

  const WHITE_SPACE := {' ', '\t', '\n', '\r', 11 as char, 12 as char}

  /** The text has something besides white space. */
  predicate Named(text: string) { exists k :: 0 <= k < |text| && text[k] !in WHITE_SPACE }

  /** Texts that name something, each different. */
  predicate NamesOnce(elements: seq<Element>) {
    && (forall e :: e in elements ==> e.Text? && Named(e.text))
    && forall j, k :: 0 <= j < |elements| && 0 <= k < |elements| && elements[j] == elements[k] ==> j == k
  }

  /**
   Which requests are sound, exactly: the payload that was hashed, for this handoff and this case,
   of an unblocked full refund, on a named order, of some items, each named once.
   */
  lemma RequestIsExact(row: Execution)
    ensures RequestOk(row) <==>
      && row.orderRef.Some? && Named(row.orderRef.value) && row.payload == row.payloadHash
      && match row.payload
         case Malformed(_) => false
         case Request(handoffId, caseRef, blocked, action, scope, _) =>
           && (handoffId, caseRef, blocked, action) == (row.handoffId, row.caseRef, Some(false), "FULL_REFUND")
           && scope.Items? && |scope.elements| > 0 && NamesOnce(scope.elements)
  {
    if row.payload.Request? && row.payload.scope.Items? { NamesAreTexts(row.payload.scope.elements); }
    if row.orderRef.Some? { NamedIs(row.orderRef.value); }
  }

  lemma NamedIs(text: string)
    ensures Named(text) <==> !Blank(text)
  {
  }

  lemma NamesAreTexts(elements: seq<Element>)
    ensures NamesOnce(elements) <==> TextsOk(elements)
  {
    forall k | 0 <= k < |elements| && elements[k].Text? ensures Named(elements[k].text) <==> !Blank(elements[k].text) {
      NamedIs(elements[k].text);
    }
    assert forall k :: 0 <= k < |elements| ==> elements[k] in elements;
  }

  predicate RequestsOk(rows: seq<Execution>) { forall i :: 0 <= i < |rows| ==> Reserves(rows[i]) ==> RequestOk(rows[i]) }

  /** Item `a` of execution `i` takes a reservation. */
  predicate Slot(rows: seq<Execution>, i: int, a: int) {
    0 <= i < |rows| && Reserves(rows[i]) && RequestOk(rows[i]) && 0 <= a < |rows[i].payload.scope.elements|
  }

  function ItemAt(rows: seq<Execution>, i: int, a: int): string
    requires Slot(rows, i, a)
  {
    rows[i].payload.scope.elements[a].text
  }

  function KeyAt(rows: seq<Execution>, i: int, a: int): Key
    requires Slot(rows, i, a)
  {
    (rows[i].orderRef.value, ItemAt(rows, i, a))
  }

  /** No two slots claim the same item of the same order. */
  predicate Apart(rows: seq<Execution>, i: int, a: int, j: int, b: int) {
    Slot(rows, i, a) && Slot(rows, j, b) && KeyAt(rows, i, a) == KeyAt(rows, j, b) ==> i == j && a == b
  }

  ghost predicate NoOverlap(rows: seq<Execution>) {
    forall i, a, j, b :: Apart(rows, i, a, j, b)
  }

  predicate LedgerSlot(rows: seq<Execution>, i: int, a: int) { Slot(rows, i, a) && rows[i].state == Succeeded }

  function LedgerAt(rows: seq<Execution>, i: int, a: int): LedgerRow
    requires Slot(rows, i, a)
  {
    LedgerRow(rows[i].ref, rows[i].orderRef.value, ItemAt(rows, i, a))
  }

  ghost predicate InExpectedLedger(rows: seq<Execution>, entry: LedgerRow) {
    exists i, a :: LedgerSlot(rows, i, a) && LedgerAt(rows, i, a) == entry
  }

  /** What the preflight accepts. */
  ghost predicate Acceptable(rows: seq<Execution>, ledger: set<LedgerRow>) {
    && RequestsOk(rows)
    && NoOverlap(rows)
    && forall entry :: entry in ledger <==> InExpectedLedger(rows, entry)
  }

  // ------------------------------------------------------------------ the preflight

  /** The slots seen when `n` executions are done and `m` items of the next one. */
  predicate Seen(rows: seq<Execution>, n: nat, m: nat, i: int, a: int) {
    Slot(rows, i, a) && (i < n || (i == n && a < m))
  }

  ghost predicate OwnersOk(rows: seq<Execution>, n: nat, m: nat, owners: map<Key, string>) {
    && (forall i, a :: Seen(rows, n, m, i, a) ==> KeyAt(rows, i, a) in owners)
    && (forall key :: key in owners ==> exists i, a :: Seen(rows, n, m, i, a) && KeyAt(rows, i, a) == key)
  }

  ghost predicate SeenApart(rows: seq<Execution>, n: nat, m: nat) {
    forall i, a, j, b :: Seen(rows, n, m, i, a) && Seen(rows, n, m, j, b) ==> Apart(rows, i, a, j, b)
  }

  ghost predicate ExpectedOk(rows: seq<Execution>, n: nat, m: nat, expected: set<LedgerRow>) {
    && (forall i, a :: Seen(rows, n, m, i, a) && rows[i].state == Succeeded ==> LedgerAt(rows, i, a) in expected)
    && (forall entry :: entry in expected ==>
          exists i, a :: Seen(rows, n, m, i, a) && rows[i].state == Succeeded && LedgerAt(rows, i, a) == entry)
  }

  ghost predicate Tracked(rows: seq<Execution>, n: nat, m: nat, owners: map<Key, string>, expected: set<LedgerRow>) {
    OwnersOk(rows, n, m, owners) && SeenApart(rows, n, m) && ExpectedOk(rows, n, m, expected)
  }

  lemma TrackOne(rows: seq<Execution>, n: nat, m: nat, owners: map<Key, string>, expected: set<LedgerRow>)
    requires Tracked(rows, n, m, owners, expected) && Slot(rows, n, m) && KeyAt(rows, n, m) !in owners
    ensures Tracked(rows, n, m + 1, owners[KeyAt(rows, n, m) := rows[n].ref],
                    if rows[n].state == Succeeded then expected + {LedgerAt(rows, n, m)} else expected)
  {
    TrackOwner(rows, n, m, owners);
    TrackLedger(rows, n, m, expected);
  }

  lemma TrackOwner(rows: seq<Execution>, n: nat, m: nat, owners: map<Key, string>)
    requires OwnersOk(rows, n, m, owners) && SeenApart(rows, n, m) && Slot(rows, n, m) && KeyAt(rows, n, m) !in owners
    ensures OwnersOk(rows, n, m + 1, owners[KeyAt(rows, n, m) := rows[n].ref]) && SeenApart(rows, n, m + 1)
  {
    var later := owners[KeyAt(rows, n, m) := rows[n].ref];
    forall i, a | Seen(rows, n, m + 1, i, a)
      ensures KeyAt(rows, i, a) in later
    {
      if !Seen(rows, n, m, i, a) { assert i == n && a == m; }
    }
    forall key | key in later
      ensures exists i, a :: Seen(rows, n, m + 1, i, a) && KeyAt(rows, i, a) == key
    {
      if key == KeyAt(rows, n, m) {
        assert Seen(rows, n, m + 1, n, m);
      } else {
        var i, a :| Seen(rows, n, m, i, a) && KeyAt(rows, i, a) == key;
        assert Seen(rows, n, m + 1, i, a);
      }
    }
    forall i, a, j, b | Seen(rows, n, m + 1, i, a) && Seen(rows, n, m + 1, j, b)
      ensures Apart(rows, i, a, j, b)
    {
      if Seen(rows, n, m, i, a) && Seen(rows, n, m, j, b) { assert Apart(rows, i, a, j, b); }
    }
  }

  lemma TrackLedger(rows: seq<Execution>, n: nat, m: nat, expected: set<LedgerRow>)
    requires ExpectedOk(rows, n, m, expected) && Slot(rows, n, m)
    ensures ExpectedOk(rows, n, m + 1, if rows[n].state == Succeeded then expected + {LedgerAt(rows, n, m)} else expected)
  {
    var later := if rows[n].state == Succeeded then expected + {LedgerAt(rows, n, m)} else expected;
    forall i, a | Seen(rows, n, m + 1, i, a) && rows[i].state == Succeeded
      ensures LedgerAt(rows, i, a) in later
    {
      if !Seen(rows, n, m, i, a) { assert i == n && a == m; }
    }
    forall entry | entry in later
      ensures exists i, a :: Seen(rows, n, m + 1, i, a) && rows[i].state == Succeeded && LedgerAt(rows, i, a) == entry
    {
      if entry in expected {
        var i, a :| Seen(rows, n, m, i, a) && rows[i].state == Succeeded && LedgerAt(rows, i, a) == entry;
        assert Seen(rows, n, m + 1, i, a);
      } else {
        assert Seen(rows, n, m + 1, n, m);
      }
    }
  }

  /** With an execution done, or without slots, the count starts anew at the next one. */
  lemma TrackNext(rows: seq<Execution>, n: nat, m: nat, owners: map<Key, string>, expected: set<LedgerRow>)
    requires Tracked(rows, n, m, owners, expected)
    requires forall a :: Slot(rows, n, a) ==> a < m
    ensures Tracked(rows, n + 1, 0, owners, expected)
  {
    SeenMovesOn(rows, n, m);
    OwnersMoveOn(rows, n, m, owners);
    ExpectedMovesOn(rows, n, m, expected);
  }

  lemma SeenMovesOn(rows: seq<Execution>, n: nat, m: nat)
    requires forall a :: Slot(rows, n, a) ==> a < m
    ensures forall i, a :: Seen(rows, n + 1, 0, i, a) <==> Seen(rows, n, m, i, a)
  {
  }

  lemma OwnersMoveOn(rows: seq<Execution>, n: nat, m: nat, owners: map<Key, string>)
    requires OwnersOk(rows, n, m, owners) && forall a :: Slot(rows, n, a) ==> a < m
    ensures OwnersOk(rows, n + 1, 0, owners)
  {
    SeenMovesOn(rows, n, m);
    forall key | key in owners
      ensures exists i, a :: Seen(rows, n + 1, 0, i, a) && KeyAt(rows, i, a) == key
    {
      var i, a :| Seen(rows, n, m, i, a) && KeyAt(rows, i, a) == key;
      assert Seen(rows, n + 1, 0, i, a);
    }
  }

  lemma ExpectedMovesOn(rows: seq<Execution>, n: nat, m: nat, expected: set<LedgerRow>)
    requires ExpectedOk(rows, n, m, expected) && forall a :: Slot(rows, n, a) ==> a < m
    ensures ExpectedOk(rows, n + 1, 0, expected)
  {
    SeenMovesOn(rows, n, m);
    forall entry | entry in expected
      ensures exists i, a :: Seen(rows, n + 1, 0, i, a) && rows[i].state == Succeeded && LedgerAt(rows, i, a) == entry
    {
      var i, a :| Seen(rows, n, m, i, a) && rows[i].state == Succeeded && LedgerAt(rows, i, a) == entry;
      assert Seen(rows, n + 1, 0, i, a);
    }
  }

  lemma TrackedToTheEnd(rows: seq<Execution>, owners: map<Key, string>, expected: set<LedgerRow>)
    requires Tracked(rows, |rows|, 0, owners, expected)
    ensures NoOverlap(rows)
    ensures forall entry :: entry in expected <==> InExpectedLedger(rows, entry)
  {
    forall i, a, j, b
      ensures Apart(rows, i, a, j, b)
    {
      if Slot(rows, i, a) && Slot(rows, j, b) { assert Seen(rows, |rows|, 0, i, a) && Seen(rows, |rows|, 0, j, b); }
    }
    forall entry
      ensures entry in expected <==> InExpectedLedger(rows, entry)
    {
      if entry in expected {
        var i, a :| Seen(rows, |rows|, 0, i, a) && rows[i].state == Succeeded && LedgerAt(rows, i, a) == entry;
        assert LedgerSlot(rows, i, a);
      }
      if InExpectedLedger(rows, entry) {
        var i, a :| LedgerSlot(rows, i, a) && LedgerAt(rows, i, a) == entry;
        assert Seen(rows, |rows|, 0, i, a);
      }
    }
  }

  /** The items of one execution: each finds its key free, or the preflight stops. */
  method RegisterItems(rows: seq<Execution>, n: nat, owners: map<Key, string>, expected: set<LedgerRow>)
    returns (ok: bool, laterOwners: map<Key, string>, laterExpected: set<LedgerRow>)
    requires n < |rows| && Reserves(rows[n]) && RequestOk(rows[n]) && Tracked(rows, n, 0, owners, expected)
    ensures ok ==> Tracked(rows, n + 1, 0, laterOwners, laterExpected)
    ensures !ok ==> !NoOverlap(rows)
  {
    var row, elements := rows[n], rows[n].payload.scope.elements;
    laterOwners, laterExpected := owners, expected;
    var m := 0;
    while m < |elements|
      invariant 0 <= m <= |elements|
      invariant Tracked(rows, n, m, laterOwners, laterExpected)
    {
      assert Slot(rows, n, m);
      var key := KeyAt(rows, n, m);
      if key in laterOwners {
        ghost var i, a :| Seen(rows, n, m, i, a) && KeyAt(rows, i, a) == key;
        assert !Apart(rows, i, a, n, m);
        return false, laterOwners, laterExpected;
      }
      TrackOne(rows, n, m, laterOwners, laterExpected);
      laterOwners := laterOwners[key := row.ref];
      if row.state == Succeeded {
        laterExpected := laterExpected + {LedgerRow(row.ref, row.orderRef.value, elements[m].text)};
      }
      m := m + 1;
    }
    TrackNext(rows, n, m, laterOwners, laterExpected);
    ok := true;
  }

  /** _validate_legacy_rows */
  method ValidateLegacyRows(rows: seq<Execution>, ledger: set<LedgerRow>) returns (ok: bool)
    ensures ok <==> Acceptable(rows, ledger)
  {
    var owners: map<Key, string>, expected: set<LedgerRow> := map[], {};
    var n := 0;
    while n < |rows|
      invariant 0 <= n <= |rows|
      invariant forall i :: 0 <= i < n ==> Reserves(rows[i]) ==> RequestOk(rows[i])
      invariant Tracked(rows, n, 0, owners, expected)
    {
      if Reserves(rows[n]) {
        if !RequestOk(rows[n]) {
          return false;
        }
        var registered: bool;
        registered, owners, expected := RegisterItems(rows, n, owners, expected);
        if !registered {
          return false;
        }
      } else {
        TrackNext(rows, n, 0, owners, expected);
      }
      n := n + 1;
    }
    TrackedToTheEnd(rows, owners, expected);
    return ledger == expected;
  }

  // ------------------------------------------------------------------ what is inserted

  /** The items of one execution, as the JSON expansion lists them. */
  function ItemsOf(row: Execution): seq<Reservation>
    requires RequestOk(row)
  {
    seq(|row.payload.scope.elements|, a requires 0 <= a < |row.payload.scope.elements| =>
      Reservation(row.orderRef.value, row.payload.scope.elements[a].text, row.ref))
  }

  /** The second SELECT: the items of all executions in progress. */
  function InProgressRows(rows: seq<Execution>): seq<Reservation>
    requires RequestsOk(rows)
  {
    if rows == [] then []
    else
      var last := rows[|rows| - 1];
      InProgressRows(rows[..|rows| - 1]) + if last.state == InProgress then ItemsOf(last) else []
  }

  /** The first SELECT: the ledger as it stands. */
  function LedgerRows(ledger: seq<LedgerRow>): seq<Reservation> {
    seq(|ledger|, k requires 0 <= k < |ledger| => Reservation(ledger[k].order, ledger[k].item, ledger[k].execution))
  }

  function Inserted(rows: seq<Execution>, ledger: seq<LedgerRow>): seq<Reservation>
    requires RequestsOk(rows)
  {
    LedgerRows(ledger) + InProgressRows(rows)
  }

  predicate DistinctKeys(reservations: seq<Reservation>) {
    forall i, k :: 0 <= i < k < |reservations| ==>
      (reservations[i].order, reservations[i].item) != (reservations[k].order, reservations[k].item)
  }

  function ReservationAt(rows: seq<Execution>, i: int, a: int): Reservation
    requires Slot(rows, i, a)
  {
    Reservation(rows[i].orderRef.value, ItemAt(rows, i, a), rows[i].ref)
  }

  ghost predicate FromInProgress(rows: seq<Execution>, n: nat, r: Reservation) {
    exists i, a :: i < n && Slot(rows, i, a) && rows[i].state == InProgress && ReservationAt(rows, i, a) == r
  }

  /** The in-progress rows of the first `n` executions: complete, nothing else, and with distinct keys. */
  ghost predicate ListsInProgress(rows: seq<Execution>, n: nat)
    requires n <= |rows| && RequestsOk(rows)
  {
    && DistinctKeys(InProgressRows(rows[..n]))
    && forall r :: r in InProgressRows(rows[..n]) <==> FromInProgress(rows, n, r)
  }

  lemma {:induction false} InProgressRowsAreExact(rows: seq<Execution>, n: nat)
    requires n <= |rows| && NoOverlap(rows) && RequestsOk(rows)
    ensures ListsInProgress(rows, n)
  {
    if n > 0 {
      var last := rows[n - 1];
      assert rows[..n][..n - 1] == rows[..n - 1];
      InProgressRowsAreExact(rows, n - 1);
      if last.state == InProgress {
        LastRowIsExact(rows, n);
      } else {
        forall r
          ensures FromInProgress(rows, n, r) <==> FromInProgress(rows, n - 1, r)
        {
          if FromInProgress(rows, n, r) {
            var i, a :| i < n && Slot(rows, i, a) && rows[i].state == InProgress && ReservationAt(rows, i, a) == r;
            assert i < n - 1;
          }
          if FromInProgress(rows, n - 1, r) {
            var i, a :| i < n - 1 && Slot(rows, i, a) && rows[i].state == InProgress && ReservationAt(rows, i, a) == r;
            assert i < n;
          }
        }
      }
    }
  }

  lemma LastRowIsExact(rows: seq<Execution>, n: nat)
    requires 0 < n <= |rows| && NoOverlap(rows) && RequestsOk(rows)
    requires rows[n - 1].state == InProgress && ListsInProgress(rows, n - 1)
    ensures ListsInProgress(rows, n)
  {
    assert rows[..n][..n - 1] == rows[..n - 1];
    var init, items := InProgressRows(rows[..n - 1]), ItemsOf(rows[n - 1]);
    var all := InProgressRows(rows[..n]);
    assert all == init + items;
    var last := n - 1;
    assert forall a :: 0 <= a < |items| ==> Slot(rows, last, a) && items[a] == ReservationAt(rows, last, a);
    forall r
      ensures r in all <==> FromInProgress(rows, n, r)
    {
      if r in init {
        var i, a :| i < n - 1 && Slot(rows, i, a) && rows[i].state == InProgress && ReservationAt(rows, i, a) == r;
        assert i < n;
      } else if r in items {
        var a :| 0 <= a < |items| && items[a] == r;
        assert Slot(rows, n - 1, a) && ReservationAt(rows, n - 1, a) == r;
      }
      if FromInProgress(rows, n, r) {
        var i, a :| i < n && Slot(rows, i, a) && rows[i].state == InProgress && ReservationAt(rows, i, a) == r;
        if i < n - 1 { assert FromInProgress(rows, n - 1, r); } else { assert items[a] == r; }
      }
    }
    forall j, k | 0 <= j < k < |all|
      ensures (all[j].order, all[j].item) != (all[k].order, all[k].item)
    {
      if k >= |init| {
        var b := k - |init|;
        assert Slot(rows, n - 1, b) && all[k] == ReservationAt(rows, n - 1, b);
        if j < |init| {
          assert init[j] in init;
          var i, a :| i < n - 1 && Slot(rows, i, a) && rows[i].state == InProgress && ReservationAt(rows, i, a) == init[j];
          assert Apart(rows, i, a, n - 1, b);
        } else {
          assert all[j] == ReservationAt(rows, n - 1, j - |init|);
          assert Apart(rows, n - 1, j - |init|, n - 1, b);
        }
      }
    }
  }

  /** The schema's unique constraint on the ledger. */
  predicate LedgerUnique(ledger: seq<LedgerRow>) {
    forall i, k :: 0 <= i < k < |ledger| ==> (ledger[i].order, ledger[i].item) != (ledger[k].order, ledger[k].item)
  }

  function LedgerSet(ledger: seq<LedgerRow>): set<LedgerRow> { set entry | entry in ledger }

  /** After an accepted preflight the primary key of the new table holds for every row inserted. */
  lemma InsertHasDistinctKeys(rows: seq<Execution>, ledger: seq<LedgerRow>)
    requires Acceptable(rows, LedgerSet(ledger)) && LedgerUnique(ledger)
    ensures DistinctKeys(Inserted(rows, ledger))
  {
    assert rows[..|rows|] == rows;
    InProgressRowsAreExact(rows, |rows|);
    var first, second, all := LedgerRows(ledger), InProgressRows(rows), Inserted(rows, ledger);
    forall j, k | 0 <= j < k < |all|
      ensures (all[j].order, all[j].item) != (all[k].order, all[k].item)
    {
      if k < |first| {
        assert (ledger[j].order, ledger[j].item) != (ledger[k].order, ledger[k].item);
      } else if j >= |first| {
        assert second[j - |first|] == all[j] && second[k - |first|] == all[k];
      } else {
        assert ledger[j] in LedgerSet(ledger);
        var i, a :| LedgerSlot(rows, i, a) && LedgerAt(rows, i, a) == ledger[j];
        assert second[k - |first|] in second;
        var i', a' :| i' < |rows| && Slot(rows, i', a') && rows[i'].state == InProgress && ReservationAt(rows, i', a') == second[k - |first|];
        assert Apart(rows, i, a, i', a');
      }
    }
  }

  /**
   Every item of every execution in progress or succeeded is reserved, by that execution, and
   nothing else is; with distinct keys, exactly once.
   */
  lemma InsertIsExact(rows: seq<Execution>, ledger: seq<LedgerRow>, r: Reservation)
    requires Acceptable(rows, LedgerSet(ledger))
    ensures r in Inserted(rows, ledger) <==> exists i, a :: Slot(rows, i, a) && ReservationAt(rows, i, a) == r
  {
    assert rows[..|rows|] == rows;
    InProgressRowsAreExact(rows, |rows|);
    if r in LedgerRows(ledger) {
      var k :| 0 <= k < |ledger| && LedgerRows(ledger)[k] == r;
      assert ledger[k] in LedgerSet(ledger);
      var i, a :| LedgerSlot(rows, i, a) && LedgerAt(rows, i, a) == ledger[k];
      assert Slot(rows, i, a) && ReservationAt(rows, i, a) == r;
    } else if r in InProgressRows(rows) {
      assert FromInProgress(rows, |rows|, r);
    }
    if i, a :| Slot(rows, i, a) && ReservationAt(rows, i, a) == r {
      if rows[i].state == InProgress {
        assert FromInProgress(rows, |rows|, r);
      } else {
        assert LedgerSlot(rows, i, a);
        assert LedgerAt(rows, i, a) in LedgerSet(ledger);
        var k :| 0 <= k < |ledger| && ledger[k] == LedgerAt(rows, i, a);
        assert LedgerRows(ledger)[k] == r;
      }
    }
  }
}
