/**
 Policies, orders and findings, with the validators of their models
 (apps/contracts/src/return_agent_contracts/models.py and policy_v2.py).  Money is an exact number
 of minor units, a time an integer.
 */
module Policy {
  import opened Common
  import opened Registry

  datatype PathId = CoolingOff | DamagedOnArrival | WrongItem | UndeliveredItem

  datatype SystemPredicate =
    | TransactionInScope | SingleRefundableItem | NoExceptionEstablished | WithinPathWindow | ReceiptConfirmed
    | PurchaseSpecAvailable | NondeliveryConfirmed | NoPendingSplitDelivery | PaymentScopeAvailable

  datatype ReturnPolicy = Required | NotRequired | ModelJudgment

  datatype Action = FullRefund | Decline

  datatype Clause = Clause(path: Option<PathId>, clauseId: string, policyVersion: string, effectiveFrom: int, effectiveTo: Option<int>,
                           required: seq<ClaimId>, allowed: seq<Action>, returnPolicy: ReturnPolicy)

  datatype Path = Path(id: PathId, version: string, clauseRefs: seq<string>, required: seq<ClaimId>, predicates: seq<SystemPredicate>,
                       returnPolicy: ReturnPolicy, effectiveFrom: int, effectiveTo: Option<int>)

  datatype Bundle = Bundle(v2: bool, paths: seq<Path>, selected: Option<PathId>, version: string, retrieved: bool, clauses: seq<Clause>)

  const BUNDLE_PREFIX := "DEMO-TW-RETURNS:v2.0:bundle:"

  const ALL_PATHS: set<PathId> := {CoolingOff, DamagedOnArrival, WrongItem, UndeliveredItem}

  /** PATH_CLAIMS */
  function PathClaims(path: PathId): seq<ClaimId> {
    match path
    case CoolingOff => []
    case DamagedOnArrival => [ItemPhysicallyDamaged, DamagePresentOnArrival]
    case WrongItem => [WrongItemReceived]
    case UndeliveredItem => [ItemConfirmedUndelivered]
  }

  const COMMON_PREDICATES := [TransactionInScope, SingleRefundableItem, NoExceptionEstablished, WithinPathWindow, PaymentScopeAvailable]

  /** PATH_PREDICATES */
  function PathPredicates(path: PathId): seq<SystemPredicate> {
    match path
    case CoolingOff => COMMON_PREDICATES + [ReceiptConfirmed]
    case DamagedOnArrival => COMMON_PREDICATES
    case WrongItem => COMMON_PREDICATES + [PurchaseSpecAvailable]
    case UndeliveredItem => COMMON_PREDICATES + [NondeliveryConfirmed, NoPendingSplitDelivery]
  }

  function PathReturnPolicy(path: PathId): ReturnPolicy {
    match path
    case DamagedOnArrival => ModelJudgment
    case UndeliveredItem => NotRequired
    case _ => Required
  }

  predicate Unique<T(==)>(s: seq<T>) { forall i, k :: 0 <= i < k < |s| ==> s[i] != s[k] }

  predicate Ordered(from: int, to: Option<int>) { to.Some? ==> from <= to.value }

  /** The validators of PolicyClause. */
  predicate ClauseOk(clause: Clause) {
    && (clause.required == [] ==> clause.path == Some(CoolingOff))
    && (clause.path.None? ==> ItemConfirmedUndelivered !in clause.required)
    && Ordered(clause.effectiveFrom, clause.effectiveTo)
    && Unique(clause.required) && Unique(clause.allowed) && clause.allowed != []
  }

  /** PolicyPath keeps the fixed claims, predicates and return policy of its id. */
  predicate PathOk(path: Path) {
    && path.clauseRefs != []
    && path.required == PathClaims(path.id) && path.predicates == PathPredicates(path.id)
    && path.returnPolicy == PathReturnPolicy(path.id)
    && Ordered(path.effectiveFrom, path.effectiveTo)
  }

  predicate Covers(path: Path, clause: Clause) {
    clause.returnPolicy == path.returnPolicy && clause.policyVersion == path.version && clause.required == path.required
  }

  predicate ClauseOf(bundle: Bundle, i: nat, path: PathId) { i < |bundle.clauses| && bundle.clauses[i].path == Some(path) }

  function ClauseIds(bundle: Bundle, path: PathId): set<string> {
    set i | 0 <= i < |bundle.clauses| && ClauseOf(bundle, i, path) :: bundle.clauses[i].clauseId
  }

  /** A path and the clauses written for it agree. */
  predicate PathBound(bundle: Bundle, path: Path) {
    && ClauseIds(bundle, path.id) == (set ref | ref in path.clauseRefs)
    && ClauseIds(bundle, path.id) != {}
    && forall i :: 0 <= i < |bundle.clauses| && ClauseOf(bundle, i, path.id) ==> Covers(path, bundle.clauses[i])
  }

  predicate StartsWith(text: string, prefix: string) { prefix <= text }

  /** What PolicyBundle guarantees, beside the guarantees of its parts. */
  predicate BundleShape(bundle: Bundle) {
    && (!bundle.v2 ==> bundle.paths == [] && bundle.selected.None? && forall i :: 0 <= i < |bundle.clauses| ==> bundle.clauses[i].path.None?)
    && (bundle.v2 && bundle.retrieved ==>
          && |bundle.paths| == 4 && (set i | 0 <= i < |bundle.paths| :: bundle.paths[i].id) == ALL_PATHS
          && bundle.selected.Some? && StartsWith(bundle.version, BUNDLE_PREFIX)
          && forall i :: 0 <= i < |bundle.paths| ==> PathBound(bundle, bundle.paths[i]))
    && (bundle.retrieved ==> bundle.clauses != [])
  }

  predicate BundleOk(bundle: Bundle) {
    && (forall i :: 0 <= i < |bundle.clauses| ==> ClauseOk(bundle.clauses[i]))
    && (forall i :: 0 <= i < |bundle.paths| ==> PathOk(bundle.paths[i]))
    && BundleShape(bundle)
  }

  /** PolicyBundle._ok_bundle_has_clauses */
  method ValidateBundle(bundle: Bundle) returns (ok: bool)
    ensures ok <==> BundleShape(bundle)
  {
    if !bundle.v2 && (bundle.paths != [] || bundle.selected.Some? || exists i :: 0 <= i < |bundle.clauses| && bundle.clauses[i].path.Some?) {
      return false;
    }
    if bundle.v2 && bundle.retrieved {
      if |bundle.paths| != 4 || (set i | 0 <= i < |bundle.paths| :: bundle.paths[i].id) != ALL_PATHS {
        return false;
      }
      if bundle.selected.None? || !StartsWith(bundle.version, BUNDLE_PREFIX) {
        return false;
      }
      var k := 0;
      while k < |bundle.paths|
        invariant 0 <= k <= |bundle.paths|
        invariant forall i :: 0 <= i < k ==> PathBound(bundle, bundle.paths[i])
      {
        var path := bundle.paths[k];
        if ClauseIds(bundle, path.id) != (set ref | ref in path.clauseRefs) || ClauseIds(bundle, path.id) == {} {
          return false;
        }
        if exists i :: 0 <= i < |bundle.clauses| && ClauseOf(bundle, i, path.id) && !Covers(path, bundle.clauses[i]) {
          return false;
        }
        k := k + 1;
      }
    }
    return !bundle.retrieved || bundle.clauses != [];
  }

  // ------------------------------------------------------------------ which bundles are accepted

  predicate Within(from: int, to: Option<int>, at: int) { from <= at && (to.Some? ==> at <= to.value) }

  ghost predicate OnceEach<T>(s: seq<T>) { forall i, k :: 0 <= i < |s| && 0 <= k < |s| && s[i] == s[k] ==> i == k }

  /**
   A clause that can be applied: at some time, with some action, and, unless it is about cooling
   off, with some claim to look at; non-delivery, which no user can prove, belongs to a path only.
   */
  ghost predicate Applicable(clause: Clause) {
    && (exists at :: Within(clause.effectiveFrom, clause.effectiveTo, at))
    && (exists action :: action in clause.allowed) && OnceEach(clause.allowed) && OnceEach(clause.required)
    && ((exists claim :: claim in clause.required) || clause.path == Some(CoolingOff))
    && (ItemConfirmedUndelivered in clause.required ==> clause.path.Some?)
  }

  /** A path that says what is fixed for its id, at some time. */
  ghost predicate Fixed(path: Path) {
    && (exists at :: Within(path.effectiveFrom, path.effectiveTo, at)) && (exists ref :: ref in path.clauseRefs)
    && path.required == PathClaims(path.id) && path.predicates == PathPredicates(path.id) && path.returnPolicy == PathReturnPolicy(path.id)
  }

  ghost predicate Cites(bundle: Bundle, path: PathId, ref: string) {
    exists clause :: clause in bundle.clauses && clause.path == Some(path) && clause.clauseId == ref
  }

  /** The path refers to the clauses written for it and to no others, and they say of claims and return what is fixed for it. */
  ghost predicate Backed(bundle: Bundle, path: Path) {
    && (forall ref :: ref in path.clauseRefs <==> Cites(bundle, path.id, ref))
    && (exists clause :: clause in bundle.clauses && clause.path == Some(path.id))
    && forall clause :: clause in bundle.clauses && clause.path == Some(path.id) ==>
         clause.required == PathClaims(path.id) && clause.returnPolicy == PathReturnPolicy(path.id) && clause.policyVersion == path.version
  }

  ghost predicate HasPath(bundle: Bundle, id: PathId) { exists path :: path in bundle.paths && path.id == id }

  lemma ClauseIsApplicable(clause: Clause)
    ensures ClauseOk(clause) <==> Applicable(clause)
  {
    assert Within(clause.effectiveFrom, clause.effectiveTo, clause.effectiveFrom) <==> Ordered(clause.effectiveFrom, clause.effectiveTo);
    if clause.allowed != [] { assert clause.allowed[0] in clause.allowed; }
    if clause.required != [] { assert clause.required[0] in clause.required; }
  }

  lemma PathIsFixed(path: Path)
    ensures PathOk(path) <==> Fixed(path)
  {
    assert Within(path.effectiveFrom, path.effectiveTo, path.effectiveFrom) <==> Ordered(path.effectiveFrom, path.effectiveTo);
    if path.clauseRefs != [] { assert path.clauseRefs[0] in path.clauseRefs; }
  }

  lemma CitesIs(bundle: Bundle, path: PathId, ref: string)
    ensures ref in ClauseIds(bundle, path) <==> Cites(bundle, path, ref)
  {
    if clause :| clause in bundle.clauses && clause.path == Some(path) && clause.clauseId == ref {
      var i :| 0 <= i < |bundle.clauses| && bundle.clauses[i] == clause;
      assert ClauseOf(bundle, i, path) && bundle.clauses[i].clauseId == ref;
    }
  }

  lemma PathIsBacked(bundle: Bundle, path: Path)
    requires PathOk(path)
    ensures PathBound(bundle, path) <==> Backed(bundle, path)
  {
    forall ref ensures ref in ClauseIds(bundle, path.id) <==> Cites(bundle, path.id, ref) { CitesIs(bundle, path.id, ref); }
    var refs := set ref | ref in path.clauseRefs;
    assert ClauseIds(bundle, path.id) == refs <==> forall ref :: ref in path.clauseRefs <==> ref in ClauseIds(bundle, path.id);
    if clause :| clause in bundle.clauses && clause.path == Some(path.id) { assert Cites(bundle, path.id, clause.clauseId); }
    if id :| id in ClauseIds(bundle, path.id) { assert Cites(bundle, path.id, id); }
    forall i | 0 <= i < |bundle.clauses|
      ensures ClauseOf(bundle, i, path.id) <==> bundle.clauses[i] in bundle.clauses && bundle.clauses[i].path == Some(path.id)
    {
    }
  }

  lemma PathsAreThere(bundle: Bundle)
    ensures (set i | 0 <= i < |bundle.paths| :: bundle.paths[i].id) == ALL_PATHS <==> forall id :: HasPath(bundle, id)
  {
    var ids := set i | 0 <= i < |bundle.paths| :: bundle.paths[i].id;
    forall id ensures id in ids <==> HasPath(bundle, id) {
      if path :| path in bundle.paths && path.id == id {
        var i :| 0 <= i < |bundle.paths| && bundle.paths[i] == path;
        assert bundle.paths[i].id == id;
      }
    }
    forall id: PathId ensures id in ALL_PATHS { match id case CoolingOff => case DamagedOnArrival => case WrongItem => case UndeliveredItem => }
  }

  lemma ClausesAreApplicable(clauses: seq<Clause>)
    ensures (forall i :: 0 <= i < |clauses| ==> ClauseOk(clauses[i])) <==> forall clause :: clause in clauses ==> Applicable(clause)
  {
    forall clause ensures ClauseOk(clause) <==> Applicable(clause) { ClauseIsApplicable(clause); }
    assert forall clause :: clause in clauses ==> exists i :: 0 <= i < |clauses| && clauses[i] == clause;
  }

  lemma PathsAreFixed(paths: seq<Path>)
    ensures (forall i :: 0 <= i < |paths| ==> PathOk(paths[i])) <==> forall path :: path in paths ==> Fixed(path)
  {
    forall path ensures PathOk(path) <==> Fixed(path) { PathIsFixed(path); }
    assert forall path :: path in paths ==> exists i :: 0 <= i < |paths| && paths[i] == path;
  }

  lemma PathsAreBacked(bundle: Bundle)
    requires forall i :: 0 <= i < |bundle.paths| ==> PathOk(bundle.paths[i])
    ensures (forall i :: 0 <= i < |bundle.paths| ==> PathBound(bundle, bundle.paths[i])) <==> forall path :: path in bundle.paths ==> Backed(bundle, path)
  {
    forall path | path in bundle.paths ensures PathBound(bundle, path) <==> Backed(bundle, path) { PathIsBacked(bundle, path); }
    assert forall path :: path in bundle.paths ==> exists i :: 0 <= i < |bundle.paths| && bundle.paths[i] == path;
  }

  /**
   Which bundles are accepted, exactly.  Every clause can be applied and every path is fixed.  Rules
   of the first version have no path, selected, given or named by a clause; retrieved rules of the
   second have each of the four paths once, each backed by its clauses, one of them selected, and a
   version of the generation; no retrieved rules are empty.
   */
  lemma BundleIsExact(bundle: Bundle)
    ensures BundleOk(bundle) <==>
      && (forall clause :: clause in bundle.clauses ==> Applicable(clause))
      && (forall path :: path in bundle.paths ==> Fixed(path))
      && (bundle.retrieved ==> bundle.clauses != [])
      && (if !bundle.v2 then bundle.paths == [] && bundle.selected == None && forall clause :: clause in bundle.clauses ==> clause.path == None
          else bundle.retrieved ==>
            && |bundle.paths| == 4 && (forall id :: HasPath(bundle, id)) && (forall path :: path in bundle.paths ==> Backed(bundle, path))
            && bundle.selected.Some? && BUNDLE_PREFIX <= bundle.version)
  {
    ClausesAreApplicable(bundle.clauses);
    PathsAreFixed(bundle.paths);
    PathsAreThere(bundle);
    if forall i :: 0 <= i < |bundle.paths| ==> PathOk(bundle.paths[i]) { PathsAreBacked(bundle); }
    assert (forall i :: 0 <= i < |bundle.clauses| ==> bundle.clauses[i].path.None?) <==> forall clause :: clause in bundle.clauses ==> clause.path == None;
  }

  /** active_clauses: the selected path's clauses, or all of them in the first version. */
  predicate Active(bundle: Bundle, clause: Clause) { !bundle.v2 || clause.path == bundle.selected }

  predicate ActiveAt(bundle: Bundle, i: nat) { i < |bundle.clauses| && Active(bundle, bundle.clauses[i]) }

  predicate Requires(bundle: Bundle, i: nat, claim: ClaimId) { ActiveAt(bundle, i) && claim in bundle.clauses[i].required }

  /** The claims that the active clauses require. */
  function RequiredClaims(bundle: Bundle): set<ClaimId> {
    set i, claim | 0 <= i < |bundle.clauses| && claim in bundle.clauses[i].required && Requires(bundle, i, claim) :: claim
  }

  lemma SelectedPathIsThere(bundle: Bundle)
    requires BundleShape(bundle) && bundle.v2 && bundle.retrieved
    ensures exists k :: 0 <= k < |bundle.paths| && bundle.paths[k].id == bundle.selected.value
  {
    var ids := set i | 0 <= i < |bundle.paths| :: bundle.paths[i].id;
    assert ids == ALL_PATHS;
    assert bundle.selected.value in ids by {
      match bundle.selected.value case CoolingOff => case DamagedOnArrival => case WrongItem => case UndeliveredItem =>
    }
  }

  /** Once a bundle is accepted, the active clauses of a v2 bundle require exactly the fixed claims of the selected path. */
  lemma SelectedPathFixesClaims(bundle: Bundle)
    requires BundleOk(bundle) && bundle.v2 && bundle.retrieved
    ensures bundle.selected.Some?
    ensures exists k :: 0 <= k < |bundle.paths| && bundle.paths[k].id == bundle.selected.value && PathOk(bundle.paths[k])
    ensures exists i :: 0 <= i < |bundle.clauses| && ActiveAt(bundle, i)
    ensures forall i :: 0 <= i < |bundle.clauses| && ActiveAt(bundle, i) ==>
      bundle.clauses[i].required == PathClaims(bundle.selected.value) && bundle.clauses[i].returnPolicy == PathReturnPolicy(bundle.selected.value)
    ensures RequiredClaims(bundle) == set claim | claim in PathClaims(bundle.selected.value)
  {
    var selected := bundle.selected.value;
    SelectedPathIsThere(bundle);
    var k :| 0 <= k < |bundle.paths| && bundle.paths[k].id == selected;
    var path := bundle.paths[k];
    assert PathBound(bundle, path);
    forall i | 0 <= i < |bundle.clauses| && ActiveAt(bundle, i)
      ensures bundle.clauses[i].required == PathClaims(selected) && bundle.clauses[i].returnPolicy == PathReturnPolicy(selected)
    {
      assert ClauseOf(bundle, i, path.id);
    }
    var id :| id in ClauseIds(bundle, selected);
    var i :| 0 <= i < |bundle.clauses| && ClauseOf(bundle, i, selected) && bundle.clauses[i].clauseId == id;
    assert ActiveAt(bundle, i);
    forall claim | claim in PathClaims(selected)
      ensures claim in RequiredClaims(bundle)
    {
      assert Requires(bundle, i, claim);
    }
  }

  // ------------------------------------------------------------------ orders and findings

  datatype ClaimStatus = Supported | Unsupported | Contradicted

  datatype Finding = Finding(claim: ClaimId, subject: string, status: ClaimStatus, refs: seq<string>)

  datatype Delivery = Received | ConfirmedUndelivered | InTransit | UnknownDelivery

  datatype ExceptionState = NoneConfirmed | Established | UnknownException | Disputed

  datatype Deadline = Deadline(path: PathId, at: int, ruleSource: string)

  datatype ItemFacts = ItemFacts(
    lineItemId: string, source: string, transactionVersion: Option<string>, purchasedSpec: map<string, string>, delivery: Delivery,
    receivedAt: Option<int>, shipmentRefs: seq<string>, investigation: Option<string>, pendingSplit: Option<bool>,
    returnable: Option<nat>, exceptionState: ExceptionState, exceptionSource: Option<string>, isBundle: Option<bool>,
    cancelled: Option<bool>, refunded: Option<bool>, reservation: Option<string>, deadlines: seq<Deadline>, waiverRefs: seq<string>)

  datatype Platform = ShopeeTw | OtherPlatform | UnknownPlatform

  datatype SellerType = Business | Mall | Personal | UnknownSeller

  datatype ProductType = GeneralPhysical | Special | UnknownProduct

  datatype OrderFacts = OrderFacts(platform: Platform, seller: SellerType, product: ProductType, crossBorder: Option<bool>,
                                   source: string, items: seq<ItemFacts>)

  datatype LineItem = LineItem(id: string, quantity: nat, amount: nat)

  datatype Order = Order(snapshotRef: string, orderRef: string, currency: string, items: seq<LineItem>, refundableMax: nat,
                         facts: Option<OrderFacts>)

  /** OrderSnapshot: at least one line item, ids unique, quantities positive. */
  predicate OrderOk(order: Order) {
    && order.items != [] && (forall i :: 0 <= i < |order.items| ==> order.items[i].quantity > 0)
    && forall i, k :: 0 <= i < k < |order.items| ==> order.items[i].id != order.items[k].id
  }

  predicate Has(order: Order, id: string) { exists i :: 0 <= i < |order.items| && order.items[i].id == id }

  /** The first line item with the id. */
  function FindItem(items: seq<LineItem>, id: string): Option<LineItem> {
    if items == [] then None else if items[0].id == id then Some(items[0]) else FindItem(items[1..], id)
  }

  lemma {:induction false} FindItemFinds(items: seq<LineItem>, id: string)
    ensures FindItem(items, id).Some? <==> exists i :: 0 <= i < |items| && items[i].id == id
    ensures FindItem(items, id).Some? ==> FindItem(items, id).value in items && FindItem(items, id).value.id == id
  {
    if items != [] && items[0].id != id {
      FindItemFinds(items[1..], id);
      if exists i :: 0 <= i < |items| && items[i].id == id {
        var i :| 0 <= i < |items| && items[i].id == id;
        assert items[1..][i - 1].id == id;
      }
    }
  }

  /** Ids being unique, a lookup by id finds the one item that has it. */
  lemma {:induction false} FindItemIsTheItem(items: seq<LineItem>, i: nat)
    requires i < |items| && forall j, k :: 0 <= j < k < |items| ==> items[j].id != items[k].id
    ensures FindItem(items, items[i].id) == Some(items[i])
  {
    if i > 0 {
      assert items[0].id != items[i].id;
      FindItemIsTheItem(items[1..], i - 1);
    }
  }

  datatype Context = Context(v2: bool, firstSubmitted: Option<int>, caseRef: string, orderRef: string, market: string)

  datatype EvidenceItem = EvidenceItem(id: string, evidenceType: EvidenceType, subject: string, content: string)
}
