/**
 Handoffs, human decisions and the amounts they pay
 (apps/contracts/src/return_agent_contracts/validation.py and models.py).  A content hash is the
 content.  A validator's raised error is a false answer, or None where it returns an amount.
 */
module Money {
  import opened Common
  import opened Registry
  import opened Policy
  import opened Evidence
  import opened PolicyEvaluation

  datatype ReturnDecision =
    | ByPolicy(required: bool)
    | ByModel(required: bool, basisRefs: seq<string>)
    | ByHuman(required: bool)

  datatype Decision =
    | RefundDecision(scope: seq<string>, amount: nat, currency: string, returnDecision: ReturnDecision)
    | DeclineDecision(currency: string)

  datatype Selection = Selection(path: PathId, version: nat, confirmation: Option<string>)

  /** `bound`: the request names the hash of the bundle's rules (policy_confirmation_request_ref). */
  datatype ConfirmationRequest = ConfirmationRequest(bound: bool, caseRef: string, path: PathId, version: nat, scope: set<string>)

  datatype Confirmation = Confirmation(ref: string, accepted: bool, request: ConfirmationRequest)

  datatype EvaluationRecord = EvaluationRecord(caseRef: string, snapshotRef: string, bundleVersion: string, registryVersion: string,
                                               evidence: seq<EvidenceItem>, findings: Option<seq<Finding>>, items: seq<Outcome>,
                                               selection: Selection)

  /** The clauses and the evidence that the decision itself names. */
  datatype Cited = Cited(policy: seq<string>, evidence: seq<string>)

  /** `amountFree`: the rationale names no amount. */
  datatype Handoff = Handoff(v2: bool, evaluation: Option<EvaluationRecord>, selection: Option<Selection>, confirmation: Option<Confirmation>,
                             findings: Option<seq<Finding>>, caseRef: string, snapshotRef: string, bundleVersion: string,
                             registryVersion: string, decision: Decision, evidence: seq<EvidenceItem>, policyRefs: seq<string>,
                             cited: Cited, amountFree: bool)

  function ScopeOf(decision: Decision): seq<string> { if decision.RefundDecision? then decision.scope else [] }

  function AmountOf(decision: Decision): nat { if decision.RefundDecision? then decision.amount else 0 }

  function DecisionAction(decision: Decision): Action { if decision.RefundDecision? then FullRefund else Decline }

  predicate DistinctIds(evidence: seq<EvidenceItem>) { forall i, k :: 0 <= i < k < |evidence| ==> evidence[i].id != evidence[k].id }

  /** What the decision names is in the handoff. */
  predicate CitedOk(handoff: Handoff) {
    && (forall ref :: ref in handoff.cited.evidence ==> ref in EvidenceIds(handoff.evidence))
    && handoff.cited.policy != [] && forall ref :: ref in handoff.cited.policy ==> ref in handoff.policyRefs
  }

  /** The validators of ProposedDecisionHandoff and its parts. */
  predicate HandoffShape(handoff: Handoff) {
    && (if handoff.v2 then
          && handoff.evaluation.Some? && handoff.selection == Some(handoff.evaluation.value.selection)
          && handoff.evaluation.value.caseRef == handoff.caseRef
          && handoff.evaluation.value.snapshotRef == handoff.snapshotRef
          && handoff.evaluation.value.bundleVersion == handoff.bundleVersion
          && handoff.evaluation.value.registryVersion == handoff.registryVersion
          && handoff.evaluation.value.items != []
        else
          handoff.evaluation.None? && handoff.selection.None? && handoff.confirmation.None? && handoff.findings.None?)
    && handoff.policyRefs != []
    && DistinctIds(handoff.evidence) && CitedOk(handoff)
    && (handoff.decision.RefundDecision? ==>
          handoff.decision.scope != [] && Unique(handoff.decision.scope) && !handoff.decision.returnDecision.ByHuman?)
  }

  function OriginalScope(record: EvaluationRecord): set<string> { set i | 0 <= i < |record.items| :: record.items[i].item }

  predicate SelectedOutcome(record: EvaluationRecord, path: PathId, i: nat) { i < |record.items| && record.items[i].path == path }

  function SelectedItems(record: EvaluationRecord, path: PathId): set<string> {
    set i | 0 <= i < |record.items| && SelectedOutcome(record, path, i) :: record.items[i].item
  }

  predicate ConfirmationOk(handoff: Handoff, selection: Selection, scope: set<string>) {
    if selection.confirmation.Some? then
      && handoff.confirmation.Some? && handoff.confirmation.value.accepted
      && handoff.confirmation.value.ref == selection.confirmation.value
      && var request := handoff.confirmation.value.request;
      && request.bound && request.caseRef == handoff.caseRef && request.path == selection.path
      && request.version == selection.version && request.scope == scope
    else
      handoff.confirmation.None? && selection.version == 1
  }

  /** The part of the check that only v2 handoffs have. */
  predicate AuthorityOk(handoff: Handoff, bundle: Bundle)
    requires HandoffShape(handoff) && handoff.v2
  {
    var record := handoff.evaluation.value;
    && record.evidence == handoff.evidence && record.findings == handoff.findings
    && bundle.selected == Some(record.selection.path)
    && var scope := OriginalScope(record);
    && |scope| == 1 && SelectedItems(record, record.selection.path) == scope
    && (handoff.decision.RefundDecision? ==> (set item | item in handoff.decision.scope) == scope)
    && ConfirmationOk(handoff, record.selection, scope)
    && (handoff.decision.RefundDecision? ==>
          forall i :: 0 <= i < |record.items| && SelectedOutcome(record, record.selection.path, i) ==> record.items[i].eligibility == Eligible)
    && (handoff.decision.DeclineDecision? ==>
          && (forall i :: 0 <= i < |record.items| ==> record.items[i].eligibility != Eligible)
          && forall i :: 0 <= i < |record.items| && SelectedOutcome(record, record.selection.path, i) ==>
               record.items[i].reasons == [ClaimContradicted])
  }

  predicate FactsWaive(order: Order, scope: seq<string>, ref: string) {
    order.facts.Some? &&
    exists i :: 0 <= i < |order.facts.value.items| && order.facts.value.items[i].lineItemId in scope && ref in order.facts.value.items[i].waiverRefs
  }

  predicate EvidenceWaives(handoff: Handoff, scope: seq<string>, ref: string) {
    exists i :: 0 <= i < |handoff.evidence| && handoff.evidence[i].subject in scope && handoff.evidence[i].id == ref
  }

  /** Who decides on the return, and what a static policy fixes. */
  predicate ReturnOk(handoff: Handoff, order: Order, policy: ReturnPolicy)
    requires handoff.decision.RefundDecision?
  {
    var decision := handoff.decision;
    if policy == ModelJudgment then
      && decision.returnDecision.ByModel?
      && (handoff.v2 && !decision.returnDecision.required ==>
            && decision.returnDecision.basisRefs != []
            && forall k :: 0 <= k < |decision.returnDecision.basisRefs| ==>
                 var ref := decision.returnDecision.basisRefs[k];
                 FactsWaive(order, decision.scope, ref) || EvidenceWaives(handoff, decision.scope, ref))
    else
      decision.returnDecision.ByPolicy? && (decision.returnDecision.required <==> policy == Required)
  }

  predicate InOrder(order: Order, scope: seq<string>) { forall k :: 0 <= k < |scope| ==> Has(order, scope[k]) }

  /** What the items of a scope add up to. */
  function Total(order: Order, scope: seq<string>): nat
    requires InOrder(order, scope)
  {
    if scope == [] then 0
    else
      FindItemFinds(order.items, scope[|scope| - 1]);
      Total(order, scope[..|scope| - 1]) + FindItem(order.items, scope[|scope| - 1]).value.amount
  }

  predicate NeedsUserEvidence(bundle: Bundle) { exists claim :: claim in RequiredClaims(bundle) && AcceptsUser(claim) }

  /** validate_proposed_decision_handoff */
  predicate HandoffOk(handoff: Handoff, bundle: Bundle, order: Order) {
    && HandoffShape(handoff)
    && handoff.v2 == bundle.v2
    && (handoff.v2 ==> AuthorityOk(handoff, bundle))
    && handoff.snapshotRef == order.snapshotRef && handoff.bundleVersion == bundle.version
    && var policy := ReturnPolicyFor(bundle, DecisionAction(handoff.decision));
    && policy.Some?
    && RefsOk(handoff.policyRefs, bundle) && handoff.amountFree
    && (handoff.decision.RefundDecision? ==> ReturnOk(handoff, order, policy.value))
    && InOrder(order, ScopeOf(handoff.decision))
    && AmountOf(handoff.decision) == Total(order, ScopeOf(handoff.decision))
    && AmountOf(handoff.decision) <= order.refundableMax
    && handoff.decision.currency == order.currency
    && (NeedsUserEvidence(bundle) ==> handoff.evidence != [])
  }

  // ------------------------------------------------------------------ what a v2 refund pays

  lemma SingletonScope(scope: seq<string>, item: string)
    requires scope != [] && Unique(scope) && (set i | i in scope) == {item}
    ensures scope == [item]
  {
    assert |scope| > 1 ==> scope[0] != scope[1];
    var items := set i | i in scope;
    assert scope[0] in items;
    forall k | 0 <= k < |scope|
      ensures scope[k] == item
    {
      assert scope[k] in items;
    }
  }

  lemma EligiblePays(context: Context, order: Order, scope: seq<string>, findings: map<Pair, Finding>, evidence: set<string>, item: string, path: Path)
    requires PathOk(path)
    requires var outcome := OutcomeFor(context, order, scope, findings, evidence, item, path); outcome.Some? && outcome.value.eligibility == Eligible
    ensures FindItem(order.items, item).Some? && 0 < FindItem(order.items, item).value.amount <= order.refundableMax
    ensures |scope| == 1
  {
    EligibleExactly(context, order, scope, findings, evidence, item, path);
    assert path.predicates[1] == SingleRefundableItem && path.predicates[4] == PaymentScopeAvailable by {
      match path.id case CoolingOff => case DamagedOnArrival => case WrongItem => case UndeliveredItem =>
    }
    PredicateOfPath(context, order, item, path, scope, PaymentScopeAvailable);
    PredicateOfPath(context, order, item, path, scope, SingleRefundableItem);
  }

  /** An accepted v2 handoff was evaluated for exactly one item. */
  lemma OneOriginalItem(handoff: Handoff, bundle: Bundle)
    requires HandoffShape(handoff) && handoff.v2 && AuthorityOk(handoff, bundle) && handoff.decision.RefundDecision?
    ensures exists item :: OriginalScope(handoff.evaluation.value) == {item} && handoff.decision.scope == [item]
  {
    var scope := OriginalScope(handoff.evaluation.value);
    var item :| item in scope;
    assert |scope - {item}| == 0 && scope == {item} + (scope - {item});
    SingletonScope(handoff.decision.scope, item);
  }

  /**
   A v2 refund handoff that the validator accepts, with an evaluation that evaluate_policy made on
   the same order, pays for exactly one item exactly its amount, which is positive and within the
   order's maximum.
   */
  lemma RefundPaysOneItem(handoff: Handoff, bundle: Bundle, order: Order, context: Context, rules: Bundle, scope: seq<string>,
                          findings: seq<Finding>, evidence: seq<EvidenceItem>)
    requires HandoffOk(handoff, bundle, order) && OrderOk(order) && handoff.v2 && handoff.decision.RefundDecision?
    requires BundleOk(rules) && Evaluation(context, order, rules, scope, findings, evidence) == Some(handoff.evaluation.value.items)
    ensures exists i :: 0 <= i < |order.items| && PaysExactly(handoff.decision, order.items[i], scope)
    ensures 0 < handoff.decision.amount <= order.refundableMax
  {
    OneOriginalItem(handoff, bundle);
    var record := handoff.evaluation.value;
    var item :| OriginalScope(record) == {item} && handoff.decision.scope == [item];
    assert item in SelectedItems(record, record.selection.path);
    var n :| 0 <= n < |record.items| && SelectedOutcome(record, record.selection.path, n) && record.items[n].item == item;
    SelectedOutcomePays(record, n, order, context, rules, scope, findings, evidence);
    assert [item][..0] == [];
    assert Total(order, [item]) == FindItem(order.items, item).value.amount;
    FindItemFinds(order.items, item);
    var i :| 0 <= i < |order.items| && order.items[i].id == item;
    FindItemIsTheItem(order.items, i);
    assert PaysExactly(handoff.decision, order.items[i], scope);
  }

  /** The decision refunds this claimed item and nothing else, for its own amount. */
  predicate PaysExactly(decision: Decision, item: LineItem, claimed: seq<string>) {
    decision.RefundDecision? && decision.scope == [item.id] && item.id in claimed && decision.amount == item.amount
  }

  lemma SelectedOutcomePays(record: EvaluationRecord, n: nat, order: Order, context: Context, rules: Bundle, scope: seq<string>,
                            findings: seq<Finding>, evidence: seq<EvidenceItem>)
    requires BundleOk(rules) && Evaluation(context, order, rules, scope, findings, evidence) == Some(record.items)
    requires n < |record.items| && record.items[n].eligibility == Eligible
    ensures record.items[n].item in scope
    ensures var item := FindItem(order.items, record.items[n].item); item.Some? && 0 < item.value.amount <= order.refundableMax
  {
    EvaluationComesFromPaths(context, order, rules, scope, findings, evidence, n);
    var k :| 0 <= k < |rules.paths| && FromPath(context, order, rules, scope, findings, evidence, record.items[n], k);
    EligiblePays(context, order, scope, ByPair(findings), EvidenceIds(evidence), record.items[n].item, rules.paths[k]);
  }

  /** Who decides on the return of an accepted v2 refund, and how, is fixed by the selected path. */
  lemma ReturnFollowsPath(handoff: Handoff, bundle: Bundle, order: Order)
    requires BundleOk(bundle) && bundle.retrieved && HandoffOk(handoff, bundle, order) && handoff.v2 && handoff.decision.RefundDecision?
    ensures bundle.selected.Some?
    ensures match bundle.selected.value
      case DamagedOnArrival => handoff.decision.returnDecision.ByModel?
      case UndeliveredItem => handoff.decision.returnDecision == ByPolicy(false)
      case _ => handoff.decision.returnDecision == ByPolicy(true)
  {
    SelectedPathFixesReturn(bundle, FullRefund);
  }

  /**
   The consent behind an accepted v2 handoff: the first selection needs none and has none; any
   other names an accepted confirmation of its own case, path, version and rules, for exactly the
   one item that was evaluated and, if refunded, is paid.
   */
  lemma ConsentBinds(handoff: Handoff, bundle: Bundle, order: Order)
    requires HandoffOk(handoff, bundle, order) && handoff.v2
    ensures handoff.selection.Some? && bundle.selected == Some(handoff.selection.value.path)
    ensures var selection := handoff.selection.value;
      && (handoff.confirmation.Some? <==> selection.confirmation.Some?)
      && (handoff.confirmation.None? ==> selection.version == 1)
      && (handoff.confirmation.Some? ==>
            var consent := handoff.confirmation.value;
            && consent.accepted && selection.confirmation == Some(consent.ref)
            && consent.request.bound && consent.request.caseRef == handoff.caseRef
            && consent.request.path == selection.path && consent.request.version == selection.version
            && |consent.request.scope| == 1 && handoff.evaluation.Some? && consent.request.scope == OriginalScope(handoff.evaluation.value)
            && (handoff.decision.RefundDecision? ==> forall item :: item in handoff.decision.scope <==> item in consent.request.scope))
  {
    if handoff.decision.RefundDecision? && handoff.confirmation.Some? {
      var scope := OriginalScope(handoff.evaluation.value);
      assert (set item | item in handoff.decision.scope) == scope;
      forall item ensures item in handoff.decision.scope <==> item in scope {
        assert item in handoff.decision.scope <==> item in set item | item in handoff.decision.scope;
      }
    }
  }

  /** A v2 refund that waives the return by judgment names its reasons, each a fact or a piece of evidence about a refunded item. */
  lemma WaiverHasBasis(handoff: Handoff, bundle: Bundle, order: Order)
    requires BundleOk(bundle) && bundle.retrieved && HandoffOk(handoff, bundle, order) && handoff.v2 && handoff.decision.RefundDecision?
    requires !handoff.decision.returnDecision.required
    ensures bundle.selected == Some(UndeliveredItem) || bundle.selected == Some(DamagedOnArrival)
    ensures bundle.selected == Some(DamagedOnArrival) ==>
      var decision := handoff.decision;
      && decision.returnDecision.ByModel? && decision.returnDecision.basisRefs != []
      && forall k :: 0 <= k < |decision.returnDecision.basisRefs| ==>
           var ref := decision.returnDecision.basisRefs[k];
           FactsWaive(order, decision.scope, ref) || EvidenceWaives(handoff, decision.scope, ref)
  {
    SelectedPathFixesReturn(bundle, FullRefund);
    ReturnFollowsPath(handoff, bundle, order);
  }

  /** A claim of the path is contradicted for the item, which qualifies for the path in time. */
  predicate ContradictedOn(context: Context, order: Order, path: Path, scope: seq<string>, findings: seq<Finding>, item: string) {
    Countable(context, order, item, path, scope) && SomeContradicted(ByPair(findings), path.required, item)
  }

  /** An accepted v2 handoff was evaluated for one item, which has an outcome on the selected path. */
  lemma OneSelectedOutcome(handoff: Handoff, bundle: Bundle) returns (n: nat, item: string)
    requires HandoffShape(handoff) && handoff.v2 && AuthorityOk(handoff, bundle)
    ensures var record := handoff.evaluation.value;
      && OriginalScope(record) == {item} && n < |record.items|
      && SelectedOutcome(record, record.selection.path, n) && record.items[n].item == item
  {
    var record := handoff.evaluation.value;
    var originals := OriginalScope(record);
    item :| item in originals;
    assert |originals - {item}| == 0 && originals == {item} + (originals - {item});
    assert item in SelectedItems(record, record.selection.path);
    n :| 0 <= n < |record.items| && SelectedOutcome(record, record.selection.path, n) && record.items[n].item == item;
  }

  /**
   A v2 decline that the validator accepts, with an evaluation made on the order: the one item
   evaluated qualified for the selected path in time, a claim of it is contradicted, and no path
   of the rules is eligible.
   */
  lemma DeclineIsContradicted(handoff: Handoff, bundle: Bundle, order: Order, context: Context, rules: Bundle, scope: seq<string>,
                              findings: seq<Finding>, evidence: seq<EvidenceItem>)
    requires HandoffOk(handoff, bundle, order) && handoff.v2 && handoff.decision.DeclineDecision?
    requires BundleOk(rules) && Evaluation(context, order, rules, scope, findings, evidence) == Some(handoff.evaluation.value.items)
    ensures exists item, k ::
      && OriginalScope(handoff.evaluation.value) == {item} && 0 <= k < |rules.paths| && Some(rules.paths[k].id) == bundle.selected
      && ContradictedOn(context, order, rules.paths[k], scope, findings, item)
    ensures forall n :: 0 <= n < |handoff.evaluation.value.items| ==> handoff.evaluation.value.items[n].eligibility != Eligible
  {
    var record := handoff.evaluation.value;
    var n, item := OneSelectedOutcome(handoff, bundle);
    OutcomesAreExact(context, order, rules, scope, findings, evidence, n);
    var k :| 0 <= k < |rules.paths| && DecidedExactly(context, order, rules.paths[k], scope, ByPair(findings), record.items[n]);
    assert ContradictedOn(context, order, rules.paths[k], scope, findings, item);
  }

  // ------------------------------------------------------------------ which refunds are accepted

  /** Who decides on the return for a path; a judgment that requires it needs no reason. */
  function ReturnByPath(path: PathId): ReturnDecision {
    match path
    case DamagedOnArrival => ByModel(true, [])
    case UndeliveredItem => ByPolicy(false)
    case _ => ByPolicy(true)
  }

  /** The handoff that refunds the one claimed item on the path selected first. */
  function RefundHandoff(context: Context, order: Order, bundle: Bundle, item: LineItem, findings: seq<Finding>, evidence: seq<EvidenceItem>,
                         outcomes: seq<Outcome>, path: PathId, registry: string, refs: seq<string>): Handoff {
    var selection := Selection(path, 1, None);
    Handoff(true, Some(EvaluationRecord(context.caseRef, order.snapshotRef, bundle.version, registry, evidence, Some(findings), outcomes, selection)),
            Some(selection), None, Some(findings), context.caseRef, order.snapshotRef, bundle.version, registry,
            RefundDecision([item.id], item.amount, order.currency, ReturnByPath(path)), evidence, refs, Cited(refs, []), true)
  }

  /** Every outcome is the item's, and each path has exactly one. */
  predicate OfOneItem(outcomes: seq<Outcome>, item: string, path: PathId) {
    && (forall n :: 0 <= n < |outcomes| ==> outcomes[n].item == item)
    && (exists n :: 0 <= n < |outcomes| && outcomes[n].path == path)
    && (forall i, j :: 0 <= i < |outcomes| && 0 <= j < |outcomes| && outcomes[i].path == outcomes[j].path ==> i == j)
  }

  lemma EvaluationOfOneItem(context: Context, order: Order, bundle: Bundle, item: string, findings: seq<Finding>, evidence: seq<EvidenceItem>)
    requires BundleOk(bundle) && bundle.retrieved && Evaluation(context, order, bundle, [item], findings, evidence).Some?
    ensures bundle.selected.Some?
    ensures OfOneItem(Evaluation(context, order, bundle, [item], findings, evidence).value, item, bundle.selected.value)
  {
    var outcomes := Evaluation(context, order, bundle, [item], findings, evidence).value;
    forall n | 0 <= n < |outcomes| ensures outcomes[n].item == item {
      OutcomesAreExact(context, order, bundle, [item], findings, evidence, n);
    }
    SelectedPathIsThere(bundle);
    var k :| 0 <= k < |bundle.paths| && bundle.paths[k].id == bundle.selected.value;
    EveryPathIsDecided(context, order, bundle, [item], findings, evidence);
    assert HasOutcome(outcomes, [item][0], bundle.paths[k].id);
    assert DistinctOutcomes(outcomes);
    assert forall i, j :: 0 <= i < j < |outcomes| ==> outcomes[i].path != outcomes[j].path;
  }

  lemma RefundAuthority(context: Context, order: Order, bundle: Bundle, item: LineItem, findings: seq<Finding>, evidence: seq<EvidenceItem>,
                        outcomes: seq<Outcome>, registry: string, refs: seq<string>)
    requires bundle.selected.Some? && OfOneItem(outcomes, item.id, bundle.selected.value) && refs != [] && DistinctIds(evidence)
    ensures var handoff := RefundHandoff(context, order, bundle, item, findings, evidence, outcomes, bundle.selected.value, registry, refs);
      && HandoffShape(handoff)
      && (AuthorityOk(handoff, bundle) <==>
            exists n :: 0 <= n < |outcomes| && outcomes[n].path == bundle.selected.value && outcomes[n].eligibility == Eligible)
  {
    var path := bundle.selected.value;
    var handoff := RefundHandoff(context, order, bundle, item, findings, evidence, outcomes, path, registry, refs);
    var record := handoff.evaluation.value;
    var n :| 0 <= n < |outcomes| && outcomes[n].path == path;
    assert SelectedOutcome(record, path, n) && record.items[n].item == item.id;
    assert OriginalScope(record) == {item.id} && SelectedItems(record, path) == {item.id};
    assert (set i | i in handoff.decision.scope) == {item.id};
  }

  /**
   From evaluation to refund: when the rules were evaluated for one item of the order, the handoff
   that refunds it on the selected path is accepted if and only if that path is eligible, its
   clauses allow a refund, and the evidence the path needs is there, under different ids.
   */
  lemma EligibleRefundIsAccepted(context: Context, order: Order, bundle: Bundle, i: nat, findings: seq<Finding>, evidence: seq<EvidenceItem>,
                                 registry: string, refs: seq<string>)
    requires OrderOk(order) && BundleOk(bundle) && bundle.retrieved && i < |order.items| && refs != [] && RefsOk(refs, bundle)
    requires Evaluation(context, order, bundle, [order.items[i].id], findings, evidence).Some?
    ensures bundle.selected.Some?
    ensures var outcomes, path := Evaluation(context, order, bundle, [order.items[i].id], findings, evidence).value, bundle.selected.value;
      HandoffOk(RefundHandoff(context, order, bundle, order.items[i], findings, evidence, outcomes, path, registry, refs), bundle, order) <==>
        && (exists n :: 0 <= n < |outcomes| && outcomes[n].path == path && outcomes[n].eligibility == Eligible)
        && AllowedByAll(bundle, FullRefund)
        && (path == DamagedOnArrival || path == WrongItem ==> evidence != []) && DistinctIds(evidence)
  {
    var item := order.items[i];
    var outcomes := Evaluation(context, order, bundle, [item.id], findings, evidence).value;
    EvaluationOfOneItem(context, order, bundle, item.id, findings, evidence);
    TotalOfOne(order, i);
    EligibleIsPayable(context, order, bundle, i, findings, evidence);
    var handoff := RefundHandoff(context, order, bundle, item, findings, evidence, outcomes, bundle.selected.value, registry, refs);
    if DistinctIds(evidence) {
      RefundAuthority(context, order, bundle, item, findings, evidence, outcomes, registry, refs);
      RefundByAuthority(handoff, bundle, order, item);
    }
  }

  /** An item that is eligible on some path has a positive amount within the order's maximum. */
  lemma EligibleIsPayable(context: Context, order: Order, bundle: Bundle, i: nat, findings: seq<Finding>, evidence: seq<EvidenceItem>)
    requires OrderOk(order) && BundleOk(bundle) && bundle.retrieved && i < |order.items|
    requires Evaluation(context, order, bundle, [order.items[i].id], findings, evidence).Some?
    ensures var outcomes := Evaluation(context, order, bundle, [order.items[i].id], findings, evidence).value;
      (exists n :: 0 <= n < |outcomes| && outcomes[n].eligibility == Eligible) ==> 0 < order.items[i].amount <= order.refundableMax
  {
    var outcomes := Evaluation(context, order, bundle, [order.items[i].id], findings, evidence).value;
    if n :| 0 <= n < |outcomes| && outcomes[n].eligibility == Eligible {
      OutcomesAreExact(context, order, bundle, [order.items[i].id], findings, evidence, n);
      EvaluationComesFromPaths(context, order, bundle, [order.items[i].id], findings, evidence, n);
      var k :| 0 <= k < |bundle.paths| && FromPath(context, order, bundle, [order.items[i].id], findings, evidence, outcomes[n], k);
      EligiblePays(context, order, [order.items[i].id], ByPair(findings), EvidenceIds(evidence), outcomes[n].item, bundle.paths[k]);
      FindItemIsTheItem(order.items, i);
    }
  }

  lemma RefundByAuthority(refund: Handoff, bundle: Bundle, order: Order, item: LineItem)
    requires BundleOk(bundle) && bundle.v2 && bundle.retrieved && bundle.selected.Some?
    requires HandoffShape(refund) && refund.v2 && refund.amountFree && RefsOk(refund.policyRefs, bundle)
    requires refund.snapshotRef == order.snapshotRef && refund.bundleVersion == bundle.version
    requires refund.decision == RefundDecision([item.id], item.amount, order.currency, ReturnByPath(bundle.selected.value))
    requires InOrder(order, [item.id]) && Total(order, [item.id]) == item.amount
    ensures HandoffOk(refund, bundle, order) <==>
      && AuthorityOk(refund, bundle) && AllowedByAll(bundle, FullRefund) && item.amount <= order.refundableMax
      && (PathNeedsEvidence(bundle.selected.value) ==> refund.evidence != [])
  {
    SelectedPathFixesReturn(bundle, FullRefund);
    EvidenceByPath(bundle);
  }

  /**
   From evaluation to decline: under the same premises the handoff that declines is accepted if and
   only if no path is eligible, a claim of the selected path is contradicted although the item
   qualifies for it in time, its clauses allow a decline, and the evidence the path needs is there,
   under different ids.
   */
  lemma ContradictedDeclineIsAccepted(context: Context, order: Order, bundle: Bundle, i: nat, findings: seq<Finding>, evidence: seq<EvidenceItem>,
                                      registry: string, refs: seq<string>)
    requires OrderOk(order) && BundleOk(bundle) && bundle.retrieved && i < |order.items| && refs != [] && RefsOk(refs, bundle)
    requires Evaluation(context, order, bundle, [order.items[i].id], findings, evidence).Some?
    ensures bundle.selected.Some?
    ensures var outcomes, path := Evaluation(context, order, bundle, [order.items[i].id], findings, evidence).value, bundle.selected.value;
      var refund := RefundHandoff(context, order, bundle, order.items[i], findings, evidence, outcomes, path, registry, refs);
      HandoffOk(refund.(decision := DeclineDecision(order.currency)), bundle, order) <==>
        && (forall n :: 0 <= n < |outcomes| ==> outcomes[n].eligibility != Eligible)
        && (exists k :: 0 <= k < |bundle.paths| && bundle.paths[k].id == path
                        && ContradictedOn(context, order, bundle.paths[k], [order.items[i].id], findings, order.items[i].id))
        && AllowedByAll(bundle, Decline)
        && (path == DamagedOnArrival || path == WrongItem ==> evidence != []) && DistinctIds(evidence)
  {
    var item := order.items[i].id;
    var outcomes := Evaluation(context, order, bundle, [item], findings, evidence).value;
    EvaluationOfOneItem(context, order, bundle, item, findings, evidence);
    var path := bundle.selected.value;
    SelectedIsContradicted(context, order, bundle, item, findings, evidence);
    SelectedPathFixesReturn(bundle, Decline);
    EvidenceByPath(bundle);
    var decline := RefundHandoff(context, order, bundle, order.items[i], findings, evidence, outcomes, path, registry, refs).(decision := DeclineDecision(order.currency));
    if DistinctIds(evidence) {
      DeclineAuthority(decline, bundle, item);
      DeclineByAuthority(decline, bundle, order);
    }
  }

  lemma DeclineByAuthority(decline: Handoff, bundle: Bundle, order: Order)
    requires HandoffShape(decline) && decline.v2 && decline.decision.DeclineDecision? && decline.amountFree && RefsOk(decline.policyRefs, bundle)
    ensures HandoffOk(decline, bundle, order) <==>
      && bundle.v2 && AuthorityOk(decline, bundle) && decline.snapshotRef == order.snapshotRef && decline.bundleVersion == bundle.version
      && ReturnPolicyFor(bundle, Decline).Some? && decline.decision.currency == order.currency
      && (NeedsUserEvidence(bundle) ==> decline.evidence != [])
  {
    assert ScopeOf(decline.decision) == [];
  }

  predicate ContradictedAt(outcomes: seq<Outcome>, path: PathId) {
    forall n :: 0 <= n < |outcomes| && outcomes[n].path == path ==> outcomes[n].reasons == [ClaimContradicted]
  }

  lemma SelectedIsContradicted(context: Context, order: Order, bundle: Bundle, item: string, findings: seq<Finding>, evidence: seq<EvidenceItem>)
    requires BundleOk(bundle) && bundle.retrieved && Evaluation(context, order, bundle, [item], findings, evidence).Some? && bundle.selected.Some?
    ensures ContradictedAt(Evaluation(context, order, bundle, [item], findings, evidence).value, bundle.selected.value) <==>
      exists k :: 0 <= k < |bundle.paths| && bundle.paths[k].id == bundle.selected.value
                  && ContradictedOn(context, order, bundle.paths[k], [item], findings, item)
  {
    var outcomes := Evaluation(context, order, bundle, [item], findings, evidence).value;
    EvaluationOfOneItem(context, order, bundle, item, findings, evidence);
    var n :| 0 <= n < |outcomes| && outcomes[n].path == bundle.selected.value;
    assert ContradictedAt(outcomes, bundle.selected.value) <==> outcomes[n].reasons == [ClaimContradicted];
    OutcomesAreExact(context, order, bundle, [item], findings, evidence, n);
    var k :| 0 <= k < |bundle.paths| && DecidedExactly(context, order, bundle.paths[k], [item], ByPair(findings), outcomes[n]);
    IdsAreFour(bundle.paths);
    ReasonIsContradiction(context, order, bundle.paths[k], [item], findings, outcomes[n]);
  }

  lemma ReasonIsContradiction(context: Context, order: Order, path: Path, scope: seq<string>, findings: seq<Finding>, outcome: Outcome)
    requires DecidedExactly(context, order, path, scope, ByPair(findings), outcome)
    ensures outcome.reasons == [ClaimContradicted] <==> ContradictedOn(context, order, path, scope, findings, outcome.item)
  {
    NotBoth(context, order, outcome.item, path.id);
    if outcome.reasons == [ClaimContradicted] { assert ClaimContradicted in outcome.reasons && outcome.reasons[0] == ClaimContradicted; }
  }

  lemma DeclineAuthority(decline: Handoff, bundle: Bundle, item: string)
    requires HandoffShape(decline) && decline.v2 && decline.decision.DeclineDecision? && decline.confirmation.None?
    requires decline.selection == Some(Selection(decline.selection.value.path, 1, None)) && bundle.selected == Some(decline.selection.value.path)
    requires decline.evaluation.value.evidence == decline.evidence && decline.evaluation.value.findings == decline.findings
    requires OfOneItem(decline.evaluation.value.items, item, bundle.selected.value)
    ensures AuthorityOk(decline, bundle) <==>
      && (forall n :: 0 <= n < |decline.evaluation.value.items| ==> decline.evaluation.value.items[n].eligibility != Eligible)
      && ContradictedAt(decline.evaluation.value.items, bundle.selected.value)
  {
    var record := decline.evaluation.value;
    var n :| 0 <= n < |record.items| && record.items[n].path == bundle.selected.value;
    assert SelectedOutcome(record, record.selection.path, n) && record.items[n].item == item;
    assert OriginalScope(record) == {item} && SelectedItems(record, record.selection.path) == {item};
  }

  // ------------------------------------------------------------------ what an accepted handoff is bound to

  /** What may differ between decisions on one evaluation: how a judgment on the return is reasoned. */
  predicate SameDecision(one: Decision, other: Decision, judged: bool) {
    if one.DeclineDecision? then other == one
    else
      && other.RefundDecision? && other == one.(returnDecision := other.returnDecision)
      && (!judged ==> other.returnDecision == one.returnDecision)
  }

  /**
   The evaluation fixes the handoff: of two v2 handoffs with one evaluation, accepted for one order
   and its rules, the other is the first except for what it cites and, where the path leaves the
   return to judgment, that judgment.  They decide alike, on the same item, for the same amount,
   with the same consent.
   */
  lemma EvaluationFixesHandoff(one: Handoff, other: Handoff, bundle: Bundle, order: Order)
    requires BundleOk(bundle) && bundle.retrieved && bundle.v2 && one.evaluation == other.evaluation
    requires HandoffOk(one, bundle, order) && HandoffOk(other, bundle, order)
    ensures bundle.selected.Some? && SameDecision(one.decision, other.decision, bundle.selected == Some(DamagedOnArrival))
    ensures other == one.(policyRefs := other.policyRefs, cited := other.cited, decision := other.decision)
  {
    SelectedPathIsThere(bundle);
    var n, item := OneSelectedOutcome(one, bundle);
    if one.decision.RefundDecision? {
      ReturnFollowsPath(one, bundle, order);
      OneOriginalItem(one, bundle);
    }
    if other.decision.RefundDecision? {
      ReturnFollowsPath(other, bundle, order);
      OneOriginalItem(other, bundle);
    }
  }

  /**
   What an accepted handoff may be changed in, one part at a time: its snapshot, currency, rules
   and generation are those of the order and the bundle, a v1 handoff takes no part of a v2 one,
   and the rationale must stay free of amounts.
   */
  lemma BindingsAreExact(handoff: Handoff, bundle: Bundle, order: Order, text: string)
    requires HandoffOk(handoff, bundle, order)
    ensures HandoffOk(handoff.(snapshotRef := text), bundle, order) <==> text == order.snapshotRef
    ensures HandoffOk(handoff.(bundleVersion := text), bundle, order) <==> text == bundle.version
    ensures HandoffOk(handoff.(decision := handoff.decision.(currency := text)), bundle, order) <==> text == order.currency
    ensures HandoffOk(handoff, bundle, order.(snapshotRef := text)) <==> text == order.snapshotRef
    ensures HandoffOk(handoff, bundle.(version := text), order) <==> text == bundle.version
    ensures !HandoffOk(handoff.(amountFree := false), bundle, order) && !HandoffOk(handoff.(v2 := !handoff.v2), bundle, order)
    ensures handoff.v2 == bundle.v2 == handoff.evaluation.Some? == handoff.selection.Some?
    ensures !bundle.v2 ==> handoff.confirmation.None? && handoff.findings.None?
  {
  }

  function WithRecord(handoff: Handoff, record: EvaluationRecord): Handoff { handoff.(evaluation := Some(record)) }

  /** And the evaluation behind a v2 handoff is of its case, on the order's snapshot and with the rules and the registry of the handoff. */
  lemma EvaluationIsBound(handoff: Handoff, bundle: Bundle, order: Order, text: string)
    requires HandoffOk(handoff, bundle, order) && handoff.v2
    ensures handoff.evaluation.Some?
    ensures HandoffOk(WithRecord(handoff, handoff.evaluation.value.(caseRef := text)), bundle, order) <==> text == handoff.caseRef
    ensures HandoffOk(WithRecord(handoff, handoff.evaluation.value.(snapshotRef := text)), bundle, order) <==> text == order.snapshotRef
    ensures HandoffOk(WithRecord(handoff, handoff.evaluation.value.(bundleVersion := text)), bundle, order) <==> text == bundle.version
    ensures HandoffOk(WithRecord(handoff, handoff.evaluation.value.(registryVersion := text)), bundle, order) <==> text == handoff.registryVersion
  {
  }

  /** What it may cite: any clauses of the bundle that include those the decision names, and the decision some of them and only evidence that is there. */
  lemma CitationsAreExact(handoff: Handoff, bundle: Bundle, order: Order, refs: seq<string>, basis: seq<string>)
    requires HandoffOk(handoff, bundle, order)
    ensures HandoffOk(handoff.(policyRefs := refs), bundle, order) <==>
      && (forall ref :: ref in refs ==> InRules(bundle, ref))
      && forall ref :: ref in handoff.cited.policy ==> ref in refs
    ensures HandoffOk(handoff.(cited := Cited(refs, basis)), bundle, order) <==>
      && refs != [] && (forall ref :: ref in refs ==> ref in handoff.policyRefs)
      && forall ref :: ref in basis ==> IsEvidence(handoff.evidence, ref)
  {
    RefsAreInRules(refs, bundle);
    EvidenceIdsAre(handoff.evidence);
    assert handoff.cited.policy[0] in handoff.cited.policy;
    assert HandoffOk(handoff.(policyRefs := refs), bundle, order) <==>
      refs != [] && RefsOk(refs, bundle) && CitedOk(handoff.(policyRefs := refs));
  }

  /** A reason to waive the return: a fact of the order about a refunded item, or a piece of evidence about one. */
  predicate IsBasis(handoff: Handoff, order: Order, ref: string)
    requires handoff.decision.RefundDecision?
  {
    || (order.facts.Some?
        && exists facts :: facts in order.facts.value.items && facts.lineItemId in handoff.decision.scope && ref in facts.waiverRefs)
    || exists item :: item in handoff.evidence && item.subject in handoff.decision.scope && item.id == ref
  }

  lemma BasisIs(handoff: Handoff, order: Order, ref: string)
    requires handoff.decision.RefundDecision?
    ensures FactsWaive(order, handoff.decision.scope, ref) || EvidenceWaives(handoff, handoff.decision.scope, ref) <==> IsBasis(handoff, order, ref)
  {
    if order.facts.Some? {
      if facts :| facts in order.facts.value.items && facts.lineItemId in handoff.decision.scope && ref in facts.waiverRefs {
        var i :| 0 <= i < |order.facts.value.items| && order.facts.value.items[i] == facts;
        assert order.facts.value.items[i].lineItemId in handoff.decision.scope;
      }
    }
    if item :| item in handoff.evidence && item.subject in handoff.decision.scope && item.id == ref {
      var i :| 0 <= i < |handoff.evidence| && handoff.evidence[i] == item;
      assert handoff.evidence[i].subject in handoff.decision.scope;
    }
  }

  /**
   Which waivers are accepted, exactly: an accepted refund of a damaged item may be made one without
   return if and only if reasons are named and each is a fact or a piece of evidence about the item.
   */
  lemma WaiverIsAcceptedExactly(handoff: Handoff, bundle: Bundle, order: Order, basis: seq<string>)
    requires BundleOk(bundle) && bundle.retrieved && bundle.v2 && bundle.selected == Some(DamagedOnArrival)
    requires HandoffOk(handoff, bundle, order) && handoff.decision.RefundDecision?
    ensures HandoffOk(handoff.(decision := handoff.decision.(returnDecision := ByModel(false, basis))), bundle, order) <==>
      basis != [] && forall ref :: ref in basis ==> IsBasis(handoff, order, ref)
  {
    var waived := handoff.(decision := handoff.decision.(returnDecision := ByModel(false, basis)));
    SelectedPathFixesReturn(bundle, FullRefund);
    forall ref ensures FactsWaive(order, handoff.decision.scope, ref) || EvidenceWaives(waived, handoff.decision.scope, ref)
                       <==> IsBasis(handoff, order, ref)
    {
      BasisIs(handoff, order, ref);
    }
    assert HandoffOk(waived, bundle, order) <==> ReturnOk(waived, order, ModelJudgment);
  }

  // ------------------------------------------------------------------ human decisions

  datatype CorrectedDecision = CorrectedRefund(scope: seq<string>, required: bool) | CorrectedDecline

  datatype HumanResult = Approve | Edit(corrected: CorrectedDecision) | Reject

  /** The parts of the dossier that bind a human decision; `proposal` is the last of its history. */
  datatype Dossier = Dossier(claimed: seq<string>, order: Order, bundle: Bundle, proposal: Handoff)

  function CorrectedScope(decision: CorrectedDecision): seq<string> { if decision.CorrectedRefund? then decision.scope else [] }

  /** human_corrected_decision */
  function Corrected(result: HumanResult, handoff: Handoff): CorrectedDecision {
    match result
    case Edit(corrected) => corrected
    case Reject => CorrectedDecline
    case Approve =>
      if handoff.decision.DeclineDecision? then CorrectedDecline
      else CorrectedRefund(handoff.decision.scope, handoff.decision.returnDecision.required)
  }

  /** validate_human_decision: the amount to pay, or None when it raises. */
  function HumanAmount(decision: CorrectedDecision, dossier: Dossier, order: Order, bundle: Bundle): Option<nat> {
    var scope := CorrectedScope(decision);
    if order.orderRef != dossier.order.orderRef || bundle != dossier.bundle then None
    else
      var policy := ReturnPolicyFor(bundle, if decision.CorrectedRefund? then FullRefund else Decline);
      if policy.None? || !(forall k :: 0 <= k < |scope| ==> scope[k] in dossier.claimed) || !InOrder(order, scope)
         || order.currency != dossier.order.currency || Total(order, scope) > order.refundableMax then None
      else if decision.CorrectedRefund?
              && ((policy.value == Required && !decision.required) || (policy.value == NotRequired && decision.required)
                  || (dossier.proposal.evidence == [] && NeedsUserEvidence(bundle))) then None
      else Some(Total(order, scope))
  }

  /**
   Approval changes nothing: a human APPROVE of an accepted handoff, with its scope inside the
   claimed items and on the same order and rules, always passes and pays the same amount.
   */
  lemma {:induction false} ApprovalPaysTheSame(handoff: Handoff, dossier: Dossier, order: Order, bundle: Bundle)
    requires HandoffOk(handoff, bundle, order)
    requires dossier.proposal == handoff && dossier.order == order && dossier.bundle == bundle
    requires forall k :: 0 <= k < |ScopeOf(handoff.decision)| ==> ScopeOf(handoff.decision)[k] in dossier.claimed
    ensures HumanAmount(Corrected(Approve, handoff), dossier, order, bundle) == Some(AmountOf(handoff.decision))
  {
    assert CorrectedScope(Corrected(Approve, handoff)) == ScopeOf(handoff.decision);
  }

  /** Order, currency and rules are those the dossier was made of. */
  predicate Unchanged(dossier: Dossier, order: Order, bundle: Bundle) {
    order.orderRef == dossier.order.orderRef && order.currency == dossier.order.currency && bundle == dossier.bundle
  }

  /** A rejection never pays, and passes exactly when nothing has changed and the active clauses allow a decline. */
  lemma {:induction false} RejectionPaysNothing(handoff: Handoff, dossier: Dossier, order: Order, bundle: Bundle)
    ensures HumanAmount(Corrected(Reject, handoff), dossier, order, bundle)
         == if Unchanged(dossier, order, bundle) && ReturnPolicyFor(bundle, Decline).Some? then Some(0) else None
  {
    assert CorrectedScope(CorrectedDecline) == [];
  }

  /** What a path says of the return, and whether its claims need the user's evidence. */
  predicate ReturnFits(path: PathId, required: bool) {
    match path
    case DamagedOnArrival => true
    case UndeliveredItem => !required
    case _ => required
  }

  predicate PathNeedsEvidence(path: PathId) { path == DamagedOnArrival || path == WrongItem }

  lemma EvidenceByPath(bundle: Bundle)
    requires BundleOk(bundle) && bundle.v2 && bundle.retrieved
    ensures bundle.selected.Some? && (NeedsUserEvidence(bundle) <==> PathNeedsEvidence(bundle.selected.value))
  {
    SelectedPathFixesClaims(bundle);
    PathClaimsNeedEvidence(bundle.selected.value);
    var claims := set claim | claim in PathClaims(bundle.selected.value);
    assert RequiredClaims(bundle) == claims;
  }

  lemma PathClaimsNeedEvidence(path: PathId)
    ensures (exists claim :: claim in PathClaims(path) && AcceptsUser(claim)) <==> PathNeedsEvidence(path)
  {
    match path
    case CoolingOff =>
    case DamagedOnArrival => assert PathClaims(path)[0] == ItemPhysicallyDamaged && AcceptsUser(PathClaims(path)[0]);
    case WrongItem => assert PathClaims(path)[0] == WrongItemReceived && AcceptsUser(PathClaims(path)[0]);
    case UndeliveredItem =>
  }

  /** The items of the scope are claimed, and on the order. */
  predicate ScopeFits(scope: seq<string>, dossier: Dossier, order: Order) {
    InOrder(order, scope) && forall k :: 0 <= k < |scope| ==> scope[k] in dossier.claimed
  }

  lemma RefundByPolicy(scope: seq<string>, required: bool, dossier: Dossier, order: Order, bundle: Bundle)
    ensures var paid, policy := HumanAmount(CorrectedRefund(scope, required), dossier, order, bundle), ReturnPolicyFor(bundle, FullRefund);
      && (paid.Some? <==>
            && Unchanged(dossier, order, bundle) && policy.Some? && ScopeFits(scope, dossier, order)
            && Total(order, scope) <= order.refundableMax
            && (policy.value == Required ==> required) && (policy.value == NotRequired ==> !required)
            && (NeedsUserEvidence(bundle) ==> dossier.proposal.evidence != []))
      && (paid.Some? ==> paid.value == Total(order, scope))
  {
  }

  /**
   Which refunds a human may decide in a v2 case, exactly: nothing has changed, the clauses allow
   a refund, the items are claimed and on the order, their sum is within its maximum, the return is
   as the selected path says, and the evidence the path needs is there.  What is paid is the sum.
   */
  lemma RefundEditExactly(scope: seq<string>, required: bool, dossier: Dossier, order: Order, bundle: Bundle)
    requires BundleOk(bundle) && bundle.v2 && bundle.retrieved
    ensures var paid := HumanAmount(CorrectedRefund(scope, required), dossier, order, bundle);
      && (paid.Some? <==>
            && Unchanged(dossier, order, bundle) && AllowedByAll(bundle, FullRefund)
            && ScopeFits(scope, dossier, order) && Total(order, scope) <= order.refundableMax
            && bundle.selected.Some? && ReturnFits(bundle.selected.value, required)
            && (PathNeedsEvidence(bundle.selected.value) ==> dossier.proposal.evidence != []))
      && (paid.Some? ==> InOrder(order, scope) && paid.value == Total(order, scope))
  {
    RefundByPolicy(scope, required, dossier, order, bundle);
    SelectedPathFixesReturn(bundle, FullRefund);
    EvidenceByPath(bundle);
  }

  /** The amount of a scope is the sum of its items' amounts, however the scope is put together. */
  lemma {:induction false} TotalAdds(order: Order, some: seq<string>, others: seq<string>)
    requires InOrder(order, some) && InOrder(order, others)
    ensures InOrder(order, some + others) && Total(order, some + others) == Total(order, some) + Total(order, others)
  {
    if others == [] {
      assert some + others == some;
    } else {
      var init := others[..|others| - 1];
      TotalAdds(order, some, init);
      assert (some + others)[..|some + others| - 1] == some + init;
    }
  }

  lemma TotalOfOne(order: Order, i: nat)
    requires OrderOk(order) && i < |order.items|
    ensures InOrder(order, [order.items[i].id]) && Total(order, [order.items[i].id]) == order.items[i].amount
  {
    FindItemIsTheItem(order.items, i);
    FindItemFinds(order.items, order.items[i].id);
    var scope := [order.items[i].id];
    assert scope[0] == order.items[i].id && Has(order, scope[0]);
    assert scope[..0] == [];
  }

  lemma {:induction false} TotalIsMonotone(order: Order, scope: seq<string>, k: nat)
    requires InOrder(order, scope) && k < |scope|
    ensures FindItem(order.items, scope[k]).Some? && FindItem(order.items, scope[k]).value.amount <= Total(order, scope)
  {
    var init := scope[..|scope| - 1];
    assert Has(order, scope[k]);
    FindItemFinds(order.items, scope[k]);
    assert Has(order, scope[|scope| - 1]);
    FindItemFinds(order.items, scope[|scope| - 1]);
    assert Total(order, scope) == Total(order, init) + FindItem(order.items, scope[|scope| - 1]).value.amount;
    if k < |init| {
      assert InOrder(order, init) && init[k] == scope[k];
      TotalIsMonotone(order, init, k);
    }
  }

  /** Whatever a human edits, what is paid covers only claimed items of the order and stays within its maximum. */
  lemma EditStaysInBounds(result: HumanResult, dossier: Dossier, order: Order, bundle: Bundle)
    requires HumanAmount(Corrected(result, dossier.proposal), dossier, order, bundle).Some?
    ensures var decision := Corrected(result, dossier.proposal);
      var amount := HumanAmount(decision, dossier, order, bundle).value;
      && amount <= order.refundableMax
      && forall k :: 0 <= k < |CorrectedScope(decision)| ==>
           var id := CorrectedScope(decision)[k];
           && id in dossier.claimed && FindItem(order.items, id).Some?
           && FindItem(order.items, id).value.amount <= amount
  {
    var decision := Corrected(result, dossier.proposal);
    forall k | 0 <= k < |CorrectedScope(decision)|
      ensures FindItem(order.items, CorrectedScope(decision)[k]).Some?
      ensures FindItem(order.items, CorrectedScope(decision)[k]).value.amount <= HumanAmount(decision, dossier, order, bundle).value
    {
      TotalIsMonotone(order, CorrectedScope(decision), k);
    }
  }
}
