/**
 The deterministic policy evaluation (apps/contracts/src/return_agent_contracts/policy_v2.py):
 system predicates over order facts, then claims, for every claimed item and every path; and its
 agreement with the evidence rule, which was written separately.
 */
module PolicyEvaluation {
  import opened Common
  import opened Registry
  import opened Policy
  import opened Evidence

  datatype Verdict = Pass | Fail | Unknown

  datatype PredicateFinding = PredicateFinding(system: SystemPredicate, verdict: Verdict, source: Option<string>)

  datatype Reason = Failed(system: SystemPredicate) | PathNotEffective | ClaimContradicted | UserEvidenceRequired

  datatype Eligibility = Eligible | Ineligible | NeedsInformation | SpecialistRequired

  datatype Outcome = Outcome(item: string, path: PathId, eligibility: Eligibility, predicates: seq<PredicateFinding>,
                             clauseRefs: seq<string>, claims: seq<ClaimId>, reasons: seq<Reason>)

  function Found(system: SystemPredicate, value: Option<bool>, source: Option<string>): PredicateFinding {
    PredicateFinding(system, match value case None => Unknown case Some(true) => Pass case Some(false) => Fail, source)
  }

  /** An optional text that is neither missing nor empty. */
  predicate Given(text: Option<string>) { text.Some? && text.value != "" }

  function Lookup(spec: map<string, string>, key: string): Option<string> { if key in spec then Some(spec[key]) else None }

  function FindFacts(items: seq<ItemFacts>, id: string): Option<ItemFacts> {
    if items == [] then None else if items[0].lineItemId == id then Some(items[0]) else FindFacts(items[1..], id)
  }

  function FindDeadline(deadlines: seq<Deadline>, path: PathId): Option<Deadline> {
    if deadlines == [] then None else if deadlines[0].path == path then Some(deadlines[0]) else FindDeadline(deadlines[1..], path)
  }

  function DetailsOf(order: Order, item: string): Option<ItemFacts> {
    if order.facts.None? then None else FindFacts(order.facts.value.items, item)
  }

  /** _predicate_values: a predicate without the facts it needs is unknown, not failed. */
  function PredicateValue(context: Context, order: Order, item: string, path: PathId, scope: seq<string>, system: SystemPredicate): PredicateFinding {
    var line := FindItem(order.items, item);
    var details := DetailsOf(order, item);
    var deadline := if details.Some? then FindDeadline(details.value.deadlines, path) else None;
    var source := if details.Some? then Some(details.value.source) else None;
    match system
    case TransactionInScope =>
      Found(system,
            if order.facts.None? then None
            else var facts := order.facts.value; Some(
              && facts.platform == ShopeeTw && (facts.seller == Business || facts.seller == Mall) && facts.product == GeneralPhysical
              && facts.crossBorder == Some(false) && context.market == "TW" && order.currency == "TWD"),
            if order.facts.Some? then Some(order.facts.value.source) else None)
    case SingleRefundableItem =>
      Found(system,
            if details.None? || line.None? then None
            else Some(|scope| == 1 && line.value.quantity == 1 && details.value.returnable == Some(1) && details.value.isBundle == Some(false)),
            source)
    case NoExceptionEstablished =>
      Found(system,
            if details.None? || !Given(details.value.exceptionSource) || details.value.exceptionState == UnknownException then None
            else Some(details.value.exceptionState == NoneConfirmed),
            if details.Some? then details.value.exceptionSource else None)
    case WithinPathWindow =>
      Found(system,
            if deadline.None? || context.firstSubmitted.None? then None else Some(context.firstSubmitted.value <= deadline.value.at),
            if deadline.Some? then Some(deadline.value.ruleSource) else None)
    case PaymentScopeAvailable =>
      Found(system,
            if details.None? || line.None? || details.value.cancelled.None? || details.value.refunded.None? then None
            else Some(
              && !details.value.cancelled.value && !details.value.refunded.value
              && (details.value.reservation.None? || details.value.reservation == Some(context.caseRef))
              && line.value.amount > 0 && line.value.amount <= order.refundableMax),
            source)
    case ReceiptConfirmed =>
      Found(system,
            if details.None? || details.value.delivery == UnknownDelivery then None
            else Some(details.value.delivery == Received && details.value.receivedAt.Some? && details.value.shipmentRefs != []),
            source)
    case PurchaseSpecAvailable =>
      Found(system,
            if details.None? then None
            else Some(
              && Given(details.value.transactionVersion) && Given(Lookup(details.value.purchasedSpec, "sku"))
              && Given(Lookup(details.value.purchasedSpec, "specification"))),
            source)
    case NondeliveryConfirmed =>
      Found(system,
            if details.None? || details.value.delivery == UnknownDelivery then None
            else Some(details.value.delivery == ConfirmedUndelivered && details.value.investigation.Some?),
            if details.Some? then details.value.investigation else None)
    case NoPendingSplitDelivery =>
      Found(system, if details.None? || details.value.pendingSplit.None? then None else Some(!details.value.pendingSplit.value), source)
  }

  predicate Effective(context: Context, path: Path) {
    && context.firstSubmitted.Some?
    && path.effectiveFrom <= context.firstSubmitted.value
    && (path.effectiveTo.Some? ==> context.firstSubmitted.value <= path.effectiveTo.value)
  }

  function Predicates(context: Context, order: Order, item: string, path: Path, scope: seq<string>): seq<PredicateFinding> {
    seq(|path.predicates|, k requires 0 <= k < |path.predicates| => PredicateValue(context, order, item, path.id, scope, path.predicates[k]))
  }

  function FailedReasons(predicates: seq<PredicateFinding>): seq<Reason> {
    if predicates == [] then []
    else
      var last := predicates[|predicates| - 1];
      FailedReasons(predicates[..|predicates| - 1]) + if last.verdict == Pass then [] else [Failed(last.system)]
  }

  predicate AllPass(predicates: seq<PredicateFinding>) { forall k :: 0 <= k < |predicates| ==> predicates[k].verdict == Pass }

  lemma {:induction false} NoFailureMeansAllPass(predicates: seq<PredicateFinding>)
    ensures FailedReasons(predicates) == [] <==> AllPass(predicates)
    ensures forall k :: 0 <= k < |predicates| && predicates[k].verdict != Pass ==> Failed(predicates[k].system) in FailedReasons(predicates)
  {
    if predicates != [] {
      var init := predicates[..|predicates| - 1];
      NoFailureMeansAllPass(init);
      forall k | 0 <= k < |predicates| && predicates[k].verdict != Pass
        ensures Failed(predicates[k].system) in FailedReasons(predicates)
      {
        if k < |init| { assert init[k] == predicates[k]; }
      }
      assert AllPass(predicates) <==> AllPass(init) && predicates[|init|].verdict == Pass;
    }
  }

  function Failures(context: Context, order: Order, item: string, path: Path, scope: seq<string>): seq<Reason> {
    FailedReasons(Predicates(context, order, item, path, scope)) + if Effective(context, path) then [] else [PathNotEffective]
  }

  function FindingFor(findings: map<Pair, Finding>, claim: ClaimId, item: string): Option<Finding> {
    if (claim, item) in findings then Some(findings[(claim, item)]) else None
  }

  /** A finding that contradicts trusted facts, or decides a claim without evidence of the bundle. */
  predicate Untrusted(findings: map<Pair, Finding>, evidence: set<string>, claim: ClaimId, item: string, nondelivery: Option<string>) {
    var finding := FindingFor(findings, claim, item);
    finding.Some? &&
    if claim == ItemConfirmedUndelivered then
      finding.value.status != Supported || !(nondelivery.Some? && nondelivery.value in finding.value.refs)
    else
      finding.value.status != Unsupported &&
      (finding.value.refs == [] || exists k :: 0 <= k < |finding.value.refs| && finding.value.refs[k] !in evidence)
  }

  /** The status a claim counts with: non-delivery is a system fact, a claim without finding is unsupported. */
  function CountedStatus(findings: map<Pair, Finding>, claim: ClaimId, item: string): ClaimStatus {
    if claim == ItemConfirmedUndelivered then Supported
    else
      var finding := FindingFor(findings, claim, item);
      if finding.Some? then finding.value.status else Unsupported
  }

  predicate SomeCounts(findings: map<Pair, Finding>, claims: seq<ClaimId>, item: string, status: ClaimStatus) {
    exists k :: 0 <= k < |claims| && CountedStatus(findings, claims[k], item) == status
  }

  function Nondelivery(context: Context, order: Order, item: string, path: Path, scope: seq<string>): Option<string> {
    PredicateValue(context, order, item, path.id, scope, NondeliveryConfirmed).source
  }

  predicate WindowMissed(context: Context, order: Order, item: string, path: Path, scope: seq<string>) {
    PredicateValue(context, order, item, path.id, scope, WithinPathWindow).verdict == Fail
  }

  /** The body of the two loops: the outcome for one item and one path, or None when the evaluation raises. */
  function OutcomeFor(context: Context, order: Order, scope: seq<string>, findings: map<Pair, Finding>, evidence: set<string>,
                      item: string, path: Path): Option<Outcome> {
    var predicates := Predicates(context, order, item, path, scope);
    var failures := Failures(context, order, item, path, scope);
    if failures != [] then
      var late := failures == [Failed(WithinPathWindow)] && WindowMissed(context, order, item, path, scope) && path.id == CoolingOff;
      Some(Outcome(item, path.id, if late then Ineligible else SpecialistRequired, predicates, path.clauseRefs, path.required, failures))
    else if exists k :: 0 <= k < |path.required|
                        && Untrusted(findings, evidence, path.required[k], item, Nondelivery(context, order, item, path, scope)) then None
    else if SomeCounts(findings, path.required, item, Contradicted) then
      Some(Outcome(item, path.id, Ineligible, predicates, path.clauseRefs, path.required, [ClaimContradicted]))
    else if SomeCounts(findings, path.required, item, Unsupported) then
      Some(Outcome(item, path.id, NeedsInformation, predicates, path.clauseRefs, path.required, [UserEvidenceRequired]))
    else
      Some(Outcome(item, path.id, Eligible, predicates, path.clauseRefs, path.required, []))
  }

  function EvidenceIds(evidence: seq<EvidenceItem>): set<string> { set i | 0 <= i < |evidence| :: evidence[i].id }

  /** The inputs evaluate_policy does not refuse at once. */
  predicate InputsOk(context: Context, order: Order, bundle: Bundle, scope: seq<string>, findings: seq<Finding>) {
    && context.v2 && bundle.v2 && context.orderRef == order.orderRef
    && ClaimedOk(order, scope)
    && DistinctPairs(findings)
  }

  function OutcomesFor(context: Context, order: Order, scope: seq<string>, findings: map<Pair, Finding>, evidence: set<string>,
                       item: string, paths: seq<Path>): Option<seq<Outcome>> {
    if paths == [] then Some([])
    else
      var init := OutcomesFor(context, order, scope, findings, evidence, item, paths[..|paths| - 1]);
      var last := OutcomeFor(context, order, scope, findings, evidence, item, paths[|paths| - 1]);
      if init.None? || last.None? then None else Some(init.value + [last.value])
  }

  function AllOutcomes(context: Context, order: Order, paths: seq<Path>, scope: seq<string>, findings: map<Pair, Finding>, evidence: set<string>,
                       items: seq<string>): Option<seq<Outcome>> {
    if items == [] then Some([])
    else
      var init := AllOutcomes(context, order, paths, scope, findings, evidence, items[..|items| - 1]);
      var last := OutcomesFor(context, order, scope, findings, evidence, items[|items| - 1], paths);
      if init.None? || last.None? then None else Some(init.value + last.value)
  }

  /** The validators of the returned record: some outcome, and one for each item and path. */
  predicate RecordOk(outcomes: seq<Outcome>) {
    outcomes != [] && DistinctOutcomes(outcomes)
  }

  predicate DistinctOutcomes(outcomes: seq<Outcome>) {
    forall i, j :: 0 <= i < j < |outcomes| ==> outcomes[i].item != outcomes[j].item || outcomes[i].path != outcomes[j].path
  }

  /** What evaluate_policy returns, or None when it raises. */
  function Evaluation(context: Context, order: Order, bundle: Bundle, scope: seq<string>, findings: seq<Finding>, evidence: seq<EvidenceItem>)
    : Option<seq<Outcome>> {
    if InputsOk(context, order, bundle, scope, findings) then
      var all := AllOutcomes(context, order, bundle.paths, scope, ByPair(findings), EvidenceIds(evidence), scope);
      if all.Some? && RecordOk(all.value) then all else None
    else None
  }

  // ------------------------------------------------------------------ the loops

  /** The statuses of a path's claims, or None when a finding is not to be trusted. */
  method CountClaims(findings: map<Pair, Finding>, evidence: set<string>, claims: seq<ClaimId>, item: string, nondelivery: Option<string>)
    returns (statuses: Option<seq<ClaimStatus>>)
    ensures statuses.None? <==> exists k :: 0 <= k < |claims| && Untrusted(findings, evidence, claims[k], item, nondelivery)
    ensures statuses.Some? ==> forall status :: status in statuses.value <==> SomeCounts(findings, claims, item, status)
  {
    var counted := [];
    while |counted| < |claims|
      invariant |counted| <= |claims|
      invariant forall k :: 0 <= k < |counted| ==> !Untrusted(findings, evidence, claims[k], item, nondelivery)
      invariant forall k :: 0 <= k < |counted| ==> counted[k] == CountedStatus(findings, claims[k], item)
    {
      var claim := claims[|counted|];
      var finding := FindingFor(findings, claim, item);
      if claim == ItemConfirmedUndelivered {
        if finding.Some? && (finding.value.status != Supported || nondelivery.None? || nondelivery.value !in finding.value.refs) {
          return None;
        }
        counted := counted + [Supported];
      } else {
        if finding.Some? && finding.value.status != Unsupported
           && (finding.value.refs == [] || exists k :: 0 <= k < |finding.value.refs| && finding.value.refs[k] !in evidence) {
          return None;
        }
        counted := counted + [if finding.Some? then finding.value.status else Unsupported];
      }
    }
    return Some(counted);
  }

  method EvaluatePath(context: Context, order: Order, scope: seq<string>, findings: map<Pair, Finding>, evidence: set<string>,
                      item: string, path: Path) returns (outcome: Option<Outcome>)
    ensures outcome == OutcomeFor(context, order, scope, findings, evidence, item, path)
  {
    var predicates := Predicates(context, order, item, path, scope);
    var failures := [];
    var k := 0;
    while k < |predicates|
      invariant 0 <= k <= |predicates|
      invariant failures == FailedReasons(predicates[..k])
    {
      if predicates[k].verdict != Pass {
        failures := failures + [Failed(predicates[k].system)];
      }
      assert predicates[..k + 1][..k] == predicates[..k];
      k := k + 1;
    }
    assert predicates[..k] == predicates;
    if !Effective(context, path) {
      failures := failures + [PathNotEffective];
    }
    assert failures == Failures(context, order, item, path, scope);
    var eligibility := Eligible;
    if failures != [] {
      eligibility := if failures == [Failed(WithinPathWindow)] && WindowMissed(context, order, item, path, scope) && path.id == CoolingOff
                     then Ineligible else SpecialistRequired;
    } else {
      var statuses := CountClaims(findings, evidence, path.required, item, Nondelivery(context, order, item, path, scope));
      if statuses.None? {
        return None;
      }
      if Contradicted in statuses.value {
        eligibility, failures := Ineligible, [ClaimContradicted];
      } else if Unsupported in statuses.value {
        eligibility, failures := NeedsInformation, [UserEvidenceRequired];
      }
    }
    return Some(Outcome(item, path.id, eligibility, predicates, path.clauseRefs, path.required, failures));
  }

  method EvaluateItem(context: Context, order: Order, scope: seq<string>, findings: map<Pair, Finding>, evidence: set<string>,
                      item: string, paths: seq<Path>) returns (outcomes: Option<seq<Outcome>>)
    ensures outcomes == OutcomesFor(context, order, scope, findings, evidence, item, paths)
  {
    var found: seq<Outcome> := [];
    var k := 0;
    while k < |paths|
      invariant 0 <= k <= |paths|
      invariant Some(found) == OutcomesFor(context, order, scope, findings, evidence, item, paths[..k])
    {
      var outcome := EvaluatePath(context, order, scope, findings, evidence, item, paths[k]);
      assert paths[..k + 1][..k] == paths[..k];
      if outcome.None? {
        PathRaises(context, order, scope, findings, evidence, item, paths, k);
        return None;
      }
      found := found + [outcome.value];
      k := k + 1;
    }
    assert paths[..k] == paths;
    return Some(found);
  }

  lemma {:induction false} PathRaises(context: Context, order: Order, scope: seq<string>, findings: map<Pair, Finding>, evidence: set<string>,
                                      item: string, paths: seq<Path>, k: nat)
    requires k < |paths| && OutcomeFor(context, order, scope, findings, evidence, item, paths[k]).None?
    ensures OutcomesFor(context, order, scope, findings, evidence, item, paths).None?
  {
    if k < |paths| - 1 { PathRaises(context, order, scope, findings, evidence, item, paths[..|paths| - 1], k); }
  }

  lemma {:induction false} ItemRaises(context: Context, order: Order, paths: seq<Path>, scope: seq<string>, findings: map<Pair, Finding>,
                                      evidence: set<string>, items: seq<string>, i: nat)
    requires i < |items| && OutcomesFor(context, order, scope, findings, evidence, items[i], paths).None?
    ensures AllOutcomes(context, order, paths, scope, findings, evidence, items).None?
  {
    if i < |items| - 1 { ItemRaises(context, order, paths, scope, findings, evidence, items[..|items| - 1], i); }
  }

  method EvaluateItems(context: Context, order: Order, paths: seq<Path>, scope: seq<string>, findings: map<Pair, Finding>, evidence: set<string>)
    returns (outcomes: Option<seq<Outcome>>)
    ensures outcomes == AllOutcomes(context, order, paths, scope, findings, evidence, scope)
  {
    var found: seq<Outcome> := [];
    var i := 0;
    while i < |scope|
      invariant 0 <= i <= |scope|
      invariant Some(found) == AllOutcomes(context, order, paths, scope, findings, evidence, scope[..i])
    {
      var outcome := EvaluateItem(context, order, scope, findings, evidence, scope[i], paths);
      assert scope[..i + 1][..i] == scope[..i];
      if outcome.None? {
        ItemRaises(context, order, paths, scope, findings, evidence, scope, i);
        return None;
      }
      found := found + outcome.value;
      i := i + 1;
    }
    assert scope[..i] == scope;
    return Some(found);
  }

  /** evaluate_policy */
  method EvaluatePolicy(context: Context, order: Order, bundle: Bundle, scope: seq<string>, findings: seq<Finding>, evidence: seq<EvidenceItem>)
    returns (outcomes: Option<seq<Outcome>>)
    ensures outcomes == Evaluation(context, order, bundle, scope, findings, evidence)
  {
    if !context.v2 || !bundle.v2 || scope == [] || !Unique(scope) {
      return None;
    }
    if context.orderRef != order.orderRef || exists i :: 0 <= i < |scope| && !Has(order, scope[i]) {
      return None;
    }
    if !DistinctPairs(findings) {
      return None;
    }
    outcomes := EvaluateItems(context, order, bundle.paths, scope, ByPair(findings), EvidenceIds(evidence));
    if outcomes.Some? && !RecordOk(outcomes.value) {
      return None;
    }
  }

  // ------------------------------------------------------------------ what an evaluation contains

  predicate FromPath(context: Context, order: Order, bundle: Bundle, scope: seq<string>, findings: seq<Finding>, evidence: seq<EvidenceItem>,
                     outcome: Outcome, k: nat) {
    k < |bundle.paths| && outcome.item in scope && outcome.path == bundle.paths[k].id
    && OutcomeFor(context, order, scope, ByPair(findings), EvidenceIds(evidence), outcome.item, bundle.paths[k]) == Some(outcome)
  }

  lemma {:induction false} OutcomesComeFromPaths(context: Context, order: Order, scope: seq<string>, findings: map<Pair, Finding>, evidence: set<string>,
                                                 item: string, paths: seq<Path>)
    requires OutcomesFor(context, order, scope, findings, evidence, item, paths).Some?
    ensures var all := OutcomesFor(context, order, scope, findings, evidence, item, paths).value;
      |all| == |paths| && forall n :: 0 <= n < |paths| ==> OutcomeFor(context, order, scope, findings, evidence, item, paths[n]) == Some(all[n])
  {
    if paths != [] { OutcomesComeFromPaths(context, order, scope, findings, evidence, item, paths[..|paths| - 1]); }
  }

  lemma {:induction false} AllOutcomesComeFromPaths(context: Context, order: Order, paths: seq<Path>, scope: seq<string>, findings: map<Pair, Finding>,
                                                    evidence: set<string>, items: seq<string>, n: nat)
    requires var all := AllOutcomes(context, order, paths, scope, findings, evidence, items); all.Some? && n < |all.value|
    ensures var outcome := AllOutcomes(context, order, paths, scope, findings, evidence, items).value[n];
      outcome.item in items && exists k :: 0 <= k < |paths| && OutcomeFor(context, order, scope, findings, evidence, outcome.item, paths[k]) == Some(outcome)
  {
    if items != [] {
      var init := AllOutcomes(context, order, paths, scope, findings, evidence, items[..|items| - 1]).value;
      if n < |init| {
        AllOutcomesComeFromPaths(context, order, paths, scope, findings, evidence, items[..|items| - 1], n);
      } else {
        OutcomesComeFromPaths(context, order, scope, findings, evidence, items[|items| - 1], paths);
        assert OutcomeFor(context, order, scope, findings, evidence, items[|items| - 1], paths[n - |init|]).Some?;
      }
    }
  }

  lemma OutcomeShape(context: Context, order: Order, scope: seq<string>, findings: map<Pair, Finding>, evidence: set<string>, item: string, path: Path)
    requires OutcomeFor(context, order, scope, findings, evidence, item, path).Some?
    ensures var outcome := OutcomeFor(context, order, scope, findings, evidence, item, path).value;
      outcome.item == item && outcome.path == path.id && outcome.predicates == Predicates(context, order, item, path, scope)
  {
  }

  /** Every outcome of an evaluation is that of one claimed item and one path of the bundle. */
  lemma EvaluationComesFromPaths(context: Context, order: Order, bundle: Bundle, scope: seq<string>, findings: seq<Finding>,
                                 evidence: seq<EvidenceItem>, n: nat)
    requires var all := Evaluation(context, order, bundle, scope, findings, evidence); all.Some? && n < |all.value|
    ensures var outcome := Evaluation(context, order, bundle, scope, findings, evidence).value[n];
      exists k :: 0 <= k < |bundle.paths| && FromPath(context, order, bundle, scope, findings, evidence, outcome, k)
  {
    AllOutcomesComeFromPaths(context, order, bundle.paths, scope, ByPair(findings), EvidenceIds(evidence), scope, n);
    var outcome := Evaluation(context, order, bundle, scope, findings, evidence).value[n];
    var k :| 0 <= k < |bundle.paths| && OutcomeFor(context, order, scope, ByPair(findings), EvidenceIds(evidence), outcome.item, bundle.paths[k]) == Some(outcome);
    OutcomeShape(context, order, scope, ByPair(findings), EvidenceIds(evidence), outcome.item, bundle.paths[k]);
    assert FromPath(context, order, bundle, scope, findings, evidence, outcome, k);
  }

  // ------------------------------------------------------------------ when an evaluation is recorded

  predicate DistinctPaths(paths: seq<Path>) { forall i, j :: 0 <= i < j < |paths| ==> paths[i].id != paths[j].id }

  lemma OutcomesAreNamed(context: Context, order: Order, scope: seq<string>, findings: map<Pair, Finding>, evidence: set<string>,
                         item: string, paths: seq<Path>)
    requires OutcomesFor(context, order, scope, findings, evidence, item, paths).Some?
    ensures var all := OutcomesFor(context, order, scope, findings, evidence, item, paths).value;
      |all| == |paths| && forall n :: 0 <= n < |paths| ==> all[n].item == item && all[n].path == paths[n].id
  {
    OutcomesComeFromPaths(context, order, scope, findings, evidence, item, paths);
    forall n | 0 <= n < |paths|
      ensures var all := OutcomesFor(context, order, scope, findings, evidence, item, paths).value; all[n].item == item && all[n].path == paths[n].id
    {
      OutcomeShape(context, order, scope, findings, evidence, item, paths[n]);
    }
  }

  /** Outcomes of further items are distinct from the others; those of one item are, exactly when its paths are. */
  lemma ItemIsDistinct(init: seq<Outcome>, last: seq<Outcome>, item: string, paths: seq<Path>)
    requires |last| == |paths| && forall n :: 0 <= n < |last| ==> last[n].item == item && last[n].path == paths[n].id
    requires forall n :: 0 <= n < |init| ==> init[n].item != item
    requires DistinctPaths(paths) ==> DistinctOutcomes(init)
    ensures DistinctOutcomes(init + last) <==> DistinctPaths(paths)
  {
    if DistinctOutcomes(init + last) {
      forall i, j | 0 <= i < j < |paths| ensures paths[i].id != paths[j].id {
        assert (init + last)[|init| + i] == last[i] && (init + last)[|init| + j] == last[j];
      }
    }
  }

  lemma {:induction false} DistinctExactly(context: Context, order: Order, paths: seq<Path>, scope: seq<string>, findings: map<Pair, Finding>,
                                           evidence: set<string>, items: seq<string>)
    requires items != [] && Unique(items) && AllOutcomes(context, order, paths, scope, findings, evidence, items).Some?
    ensures DistinctOutcomes(AllOutcomes(context, order, paths, scope, findings, evidence, items).value) <==> DistinctPaths(paths)
    ensures AllOutcomes(context, order, paths, scope, findings, evidence, items).value == [] <==> paths == []
  {
    var others, item := items[..|items| - 1], items[|items| - 1];
    var init := AllOutcomes(context, order, paths, scope, findings, evidence, others).value;
    var last := OutcomesFor(context, order, scope, findings, evidence, item, paths).value;
    OutcomesAreNamed(context, order, scope, findings, evidence, item, paths);
    if others != [] { DistinctExactly(context, order, paths, scope, findings, evidence, others); }
    forall n | 0 <= n < |init| ensures init[n].item != item {
      AllOutcomesComeFromPaths(context, order, paths, scope, findings, evidence, others, n);
    }
    ItemIsDistinct(init, last, item, paths);
  }

  lemma IdsAreFour(paths: seq<Path>)
    requires |paths| == 4 && (set i | 0 <= i < |paths| :: paths[i].id) == ALL_PATHS
    ensures DistinctPaths(paths)
  {
    var ids := {paths[0].id, paths[1].id, paths[2].id, paths[3].id};
    assert ids == (set i | 0 <= i < |paths| :: paths[i].id);
    assert CoolingOff in ids && DamagedOnArrival in ids && WrongItem in ids && UndeliveredItem in ids;
  }

  /**
   An evaluation is returned if and only if the inputs are accepted, no finding is untrusted, and
   the bundle's paths are some and distinct; a retrieved bundle's always are.
   */
  lemma RecordedExactly(context: Context, order: Order, bundle: Bundle, scope: seq<string>, findings: seq<Finding>, evidence: seq<EvidenceItem>)
    ensures Evaluation(context, order, bundle, scope, findings, evidence).Some? <==>
      && InputsOk(context, order, bundle, scope, findings)
      && AllOutcomes(context, order, bundle.paths, scope, ByPair(findings), EvidenceIds(evidence), scope).Some?
      && bundle.paths != [] && DistinctPaths(bundle.paths)
    ensures BundleOk(bundle) && bundle.v2 && bundle.retrieved ==> bundle.paths != [] && DistinctPaths(bundle.paths)
  {
    if InputsOk(context, order, bundle, scope, findings)
       && AllOutcomes(context, order, bundle.paths, scope, ByPair(findings), EvidenceIds(evidence), scope).Some? {
      DistinctExactly(context, order, bundle.paths, scope, ByPair(findings), EvidenceIds(evidence), scope);
    }
    if bundle.v2 && bundle.retrieved && BundleOk(bundle) { IdsAreFour(bundle.paths); }
  }

  // ------------------------------------------------------------------ main results

  /** Eligible means that every predicate of the path passed, that it was effective, and that every claim counts as supported. */
  lemma EligibleExactly(context: Context, order: Order, scope: seq<string>, findings: map<Pair, Finding>, evidence: set<string>,
                        item: string, path: Path)
    requires OutcomeFor(context, order, scope, findings, evidence, item, path).Some?
    ensures OutcomeFor(context, order, scope, findings, evidence, item, path).value.eligibility == Eligible <==>
      && AllPass(Predicates(context, order, item, path, scope)) && Effective(context, path)
      && forall k :: 0 <= k < |path.required| ==> CountedStatus(findings, path.required[k], item) == Supported
  {
    NoFailureMeansAllPass(Predicates(context, order, item, path, scope));
    assert Failures(context, order, item, path, scope) == [] <==>
      FailedReasons(Predicates(context, order, item, path, scope)) == [] && Effective(context, path);
  }

  lemma PredicateOfPath(context: Context, order: Order, item: string, path: Path, scope: seq<string>, system: SystemPredicate)
    requires system in path.predicates && AllPass(Predicates(context, order, item, path, scope))
    ensures PredicateValue(context, order, item, path.id, scope, system).verdict == Pass
  {
    var k :| 0 <= k < |path.predicates| && path.predicates[k] == system;
    assert Predicates(context, order, item, path, scope)[k].verdict == Pass;
  }

  lemma SeveralItemsFailPath(context: Context, order: Order, scope: seq<string>, findings: map<Pair, Finding>, evidence: set<string>, item: string, path: Path)
    requires PathOk(path) && |scope| > 1
    ensures var outcome := OutcomeFor(context, order, scope, findings, evidence, item, path); outcome.Some? && outcome.value.eligibility == SpecialistRequired
  {
    var predicates := Predicates(context, order, item, path, scope);
    NoFailureMeansAllPass(predicates);
    assert path.predicates[1] == SingleRefundableItem by { match path.id case CoolingOff => case DamagedOnArrival => case WrongItem => case UndeliveredItem => }
    assert predicates[1].verdict != Pass && predicates[1].system == SingleRefundableItem;
    var failures := Failures(context, order, item, path, scope);
    assert Failed(SingleRefundableItem) in failures;
    assert failures != [Failed(WithinPathWindow)] by { assert Failed(SingleRefundableItem) !in [Failed(WithinPathWindow)]; }
  }

  // What the predicates of a path say together, in terms of the order's facts.

  predicate InScope(context: Context, order: Order) {
    && order.facts.Some?
    && order.facts.value.platform == ShopeeTw && order.facts.value.seller in {Business, Mall}
    && order.facts.value.product == GeneralPhysical && order.facts.value.crossBorder == Some(false)
    && context.market == "TW" && order.currency == "TWD"
  }

  /** The facts of an item are the first that name it, if any do. */
  lemma {:induction false} FactsAreFirst(items: seq<ItemFacts>, id: string)
    ensures FindFacts(items, id).None? <==> forall i :: 0 <= i < |items| ==> items[i].lineItemId != id
    ensures FindFacts(items, id).Some? ==>
      exists i :: 0 <= i < |items| && Some(items[i]) == FindFacts(items, id) && items[i].lineItemId == id && forall k :: 0 <= k < i ==> items[k].lineItemId != id
  {
    if items != [] && items[0].lineItemId != id {
      FactsAreFirst(items[1..], id);
      if i :| 0 <= i < |items[1..]| && Some(items[1..][i]) == FindFacts(items[1..], id) && items[1..][i].lineItemId == id
              && forall k :: 0 <= k < i ==> items[1..][k].lineItemId != id {
        assert items[i + 1] == items[1..][i];
        forall k | 0 <= k < i + 1 ensures items[k].lineItemId != id {
          if k > 0 { assert items[1..][k - 1].lineItemId != id; }
        }
      }
      assert forall i :: 0 < i < |items| ==> items[i] == items[1..][i - 1];
    }
  }

  /** And the deadline of a path is the first that is given for it. */
  lemma {:induction false} DeadlineIsFirst(deadlines: seq<Deadline>, path: PathId)
    ensures FindDeadline(deadlines, path).None? <==> forall i :: 0 <= i < |deadlines| ==> deadlines[i].path != path
    ensures FindDeadline(deadlines, path).Some? ==>
      exists i :: 0 <= i < |deadlines| && Some(deadlines[i]) == FindDeadline(deadlines, path) && deadlines[i].path == path
             && forall k :: 0 <= k < i ==> deadlines[k].path != path
  {
    if deadlines != [] && deadlines[0].path != path {
      DeadlineIsFirst(deadlines[1..], path);
      if i :| 0 <= i < |deadlines[1..]| && Some(deadlines[1..][i]) == FindDeadline(deadlines[1..], path) && deadlines[1..][i].path == path
              && forall k :: 0 <= k < i ==> deadlines[1..][k].path != path {
        assert deadlines[i + 1] == deadlines[1..][i];
        forall k | 0 <= k < i + 1 ensures deadlines[k].path != path {
          if k > 0 { assert deadlines[1..][k - 1].path != path; }
        }
      }
      assert forall i :: 0 < i < |deadlines| ==> deadlines[i] == deadlines[1..][i - 1];
    }
  }

  /** There is a text, with at least one character. */
  predicate Written(text: Option<string>) { text.Some? && |text.value| > 0 }

  /** One unit of the only claimed item, free to be refunded for a positive amount within the order's maximum. */
  predicate Refundable(context: Context, order: Order, facts: ItemFacts, line: LineItem, scope: seq<string>) {
    && |scope| == 1 && line.quantity == 1 && facts.returnable == Some(1) && facts.isBundle == Some(false)
    && facts.cancelled == Some(false) && facts.refunded == Some(false)
    && (facts.reservation.Some? ==> facts.reservation.value == context.caseRef)
    && 0 < line.amount <= order.refundableMax
    && facts.exceptionState == NoneConfirmed && Written(facts.exceptionSource)
  }

  predicate PathFactsHold(facts: ItemFacts, path: PathId) {
    match path
    case CoolingOff => facts.delivery == Received && facts.receivedAt.Some? && facts.shipmentRefs != []
    case DamagedOnArrival => true
    case WrongItem =>
      && Written(facts.transactionVersion)
      && Written(Lookup(facts.purchasedSpec, "sku")) && Written(Lookup(facts.purchasedSpec, "specification"))
    case UndeliveredItem => facts.delivery == ConfirmedUndelivered && facts.investigation.Some? && facts.pendingSplit == Some(false)
  }

  /** The claim was first submitted while the path was in force, both ends included. */
  predicate InForce(context: Context, path: Path) {
    match context.firstSubmitted
    case None => false
    case Some(at) => at >= path.effectiveFrom && (path.effectiveTo == None || path.effectiveTo.value >= at)
  }

  /** Everything but the deadline. */
  predicate Qualifies(context: Context, order: Order, item: string, path: Path, scope: seq<string>) {
    && InScope(context, order) && DetailsOf(order, item).Some? && FindItem(order.items, item).Some?
    && Refundable(context, order, DetailsOf(order, item).value, FindItem(order.items, item).value, scope)
    && PathFactsHold(DetailsOf(order, item).value, path.id)
    && InForce(context, path)
  }

  /** The deadline of the path for the item, when it and the submission are known. */
  predicate Timely(context: Context, order: Order, item: string, path: PathId, timely: bool) {
    && DetailsOf(order, item).Some? && context.firstSubmitted.Some?
    && var deadline := FindDeadline(DetailsOf(order, item).value.deadlines, path);
    deadline.Some? && (context.firstSubmitted.value <= deadline.value.at <==> timely)
  }

  predicate Passes(context: Context, order: Order, item: string, path: PathId, scope: seq<string>, system: SystemPredicate) {
    PredicateValue(context, order, item, path, scope, system).verdict == Pass
  }

  lemma CommonPassExactly(context: Context, order: Order, item: string, path: PathId, scope: seq<string>)
    ensures Passes(context, order, item, path, scope, TransactionInScope) && Passes(context, order, item, path, scope, SingleRefundableItem)
         && Passes(context, order, item, path, scope, NoExceptionEstablished) && Passes(context, order, item, path, scope, PaymentScopeAvailable)
      <==> InScope(context, order) && DetailsOf(order, item).Some? && FindItem(order.items, item).Some?
           && Refundable(context, order, DetailsOf(order, item).value, FindItem(order.items, item).value, scope)
  {
  }

  lemma OwnPassExactly(context: Context, order: Order, item: string, path: PathId, scope: seq<string>)
    requires DetailsOf(order, item).Some?
    ensures (forall k :: 5 <= k < |PathPredicates(path)| ==> Passes(context, order, item, path, scope, PathPredicates(path)[k]))
      <==> PathFactsHold(DetailsOf(order, item).value, path)
  {
    match path
    case CoolingOff => assert PathPredicates(path)[5] == ReceiptConfirmed;
    case DamagedOnArrival => assert |PathPredicates(path)| == 5;
    case WrongItem => assert PathPredicates(path)[5] == PurchaseSpecAvailable;
    case UndeliveredItem => assert PathPredicates(path)[5] == NondeliveryConfirmed && PathPredicates(path)[6] == NoPendingSplitDelivery;
  }

  lemma CommonFirst(path: PathId)
    ensures |PathPredicates(path)| >= 5 && PathPredicates(path)[..5] == COMMON_PREDICATES
  {
  }

  /** Which predicates pass, besides the deadline. */
  lemma OthersPassExactly(context: Context, order: Order, item: string, path: Path, scope: seq<string>)
    requires PathOk(path)
    ensures var predicates := Predicates(context, order, item, path, scope);
      && |predicates| >= 5 && predicates[3].system == WithinPathWindow
      && ((forall k :: 0 <= k < |predicates| && k != 3 ==> predicates[k].verdict == Pass) && Effective(context, path)
          <==> Qualifies(context, order, item, path, scope))
  {
    var predicates, required := Predicates(context, order, item, path, scope), PathPredicates(path.id);
    CommonFirst(path.id);
    assert required[..5][0] == TransactionInScope && required[..5][1] == SingleRefundableItem && required[..5][2] == NoExceptionEstablished
        && required[..5][3] == WithinPathWindow && required[..5][4] == PaymentScopeAvailable;
    assert forall k :: 0 <= k < |predicates| ==> (predicates[k].verdict == Pass <==> Passes(context, order, item, path.id, scope, required[k]));
    CommonPassExactly(context, order, item, path.id, scope);
    if DetailsOf(order, item).Some? { OwnPassExactly(context, order, item, path.id, scope); }
  }

  lemma {:induction false} OnlyFailure(predicates: seq<PredicateFinding>, n: nat)
    requires n < |predicates| && forall k :: 0 <= k < |predicates| && k != n ==> predicates[k].system != predicates[n].system
    ensures FailedReasons(predicates) == [Failed(predicates[n].system)] <==>
      predicates[n].verdict != Pass && forall k :: 0 <= k < |predicates| && k != n ==> predicates[k].verdict == Pass
  {
    var init, last := predicates[..|predicates| - 1], predicates[|predicates| - 1];
    NoFailureMeansAllPass(init);
    NoFailureMeansAllPass(predicates);
    assert forall k :: 0 <= k < |init| ==> init[k] == predicates[k];
    if n < |init| {
      OnlyFailure(init, n);
      assert last.verdict != Pass ==> FailedReasons(predicates)[|FailedReasons(init)|] == Failed(last.system) != Failed(predicates[n].system);
    }
  }

  /**
   The evaluation before any claim is looked at, exactly: claims count if and only if the item
   qualifies and is in time, and a late cooling-off request of a qualifying item is the only one
   refused for a predicate; everything else goes to a specialist.
   */
  lemma FactsDecideExactly(context: Context, order: Order, item: string, path: Path, scope: seq<string>)
    requires PathOk(path)
    ensures Failures(context, order, item, path, scope) == [] <==>
      Qualifies(context, order, item, path, scope) && Timely(context, order, item, path.id, true)
    ensures Failures(context, order, item, path, scope) == [Failed(WithinPathWindow)] && WindowMissed(context, order, item, path, scope) <==>
      Qualifies(context, order, item, path, scope) && Timely(context, order, item, path.id, false)
  {
    var predicates := Predicates(context, order, item, path, scope);
    OthersPassExactly(context, order, item, path, scope);
    SystemsDiffer(path);
    FailureKinds(predicates, 3, Effective(context, path));
    assert predicates[3].verdict == Pass <==> Timely(context, order, item, path.id, true);
    assert WindowMissed(context, order, item, path, scope) <==> Timely(context, order, item, path.id, false);
  }

  lemma FailureKinds(predicates: seq<PredicateFinding>, n: nat, effective: bool)
    requires n < |predicates| && forall k :: 0 <= k < |predicates| && k != n ==> predicates[k].system != predicates[n].system
    ensures var failures := FailedReasons(predicates) + if effective then [] else [PathNotEffective];
      && (failures == [] <==> effective && AllPass(predicates))
      && (failures == [Failed(predicates[n].system)] <==>
            effective && predicates[n].verdict != Pass && forall k :: 0 <= k < |predicates| && k != n ==> predicates[k].verdict == Pass)
  {
    NoFailureMeansAllPass(predicates);
    OnlyFailure(predicates, n);
    var reasons := FailedReasons(predicates);
    assert reasons + [] == reasons;
    assert !effective ==> (reasons + [PathNotEffective])[|reasons|] == PathNotEffective;
  }

  lemma SystemsDiffer(path: Path)
    requires PathOk(path)
    ensures |path.predicates| >= 5 && forall k :: 0 <= k < |path.predicates| && k != 3 ==> path.predicates[k] != path.predicates[3]
  {
    match path.id
    case CoolingOff => case DamagedOnArrival => case WrongItem => case UndeliveredItem =>
  }

  // What every outcome of an evaluation is, in terms of the order's facts and the counted claims.

  /** A qualifying item in time: its claims are counted. */
  predicate Countable(context: Context, order: Order, item: string, path: Path, scope: seq<string>) {
    Qualifies(context, order, item, path, scope) && Timely(context, order, item, path.id, true)
  }

  /** A qualifying cooling-off request that comes too late. */
  predicate LateCoolingOff(context: Context, order: Order, item: string, path: Path, scope: seq<string>) {
    path.id == CoolingOff && Qualifies(context, order, item, path, scope) && Timely(context, order, item, path.id, false)
  }

  /** A claim that the user can prove was found contradicted. */
  predicate SomeContradicted(made: map<Pair, Finding>, claims: seq<ClaimId>, item: string) {
    exists claim :: claim in claims && claim != ItemConfirmedUndelivered && (claim, item) in made && made[(claim, item)].status == Contradicted
  }

  /** A claim that the user can prove was found unsupported, or not looked at. */
  predicate SomeUnsupported(made: map<Pair, Finding>, claims: seq<ClaimId>, item: string) {
    exists claim :: claim in claims && claim != ItemConfirmedUndelivered && ((claim, item) in made ==> made[(claim, item)].status == Unsupported)
  }

  lemma ClaimsCountExactly(made: map<Pair, Finding>, claims: seq<ClaimId>, item: string)
    ensures SomeCounts(made, claims, item, Contradicted) <==> SomeContradicted(made, claims, item)
    ensures SomeCounts(made, claims, item, Unsupported) <==> SomeUnsupported(made, claims, item)
  {
    if claim :| claim in claims && claim != ItemConfirmedUndelivered && (claim, item) in made && made[(claim, item)].status == Contradicted {
      var k :| 0 <= k < |claims| && claims[k] == claim;
      assert CountedStatus(made, claims[k], item) == Contradicted;
    }
    if claim :| claim in claims && claim != ItemConfirmedUndelivered && ((claim, item) in made ==> made[(claim, item)].status == Unsupported) {
      var k :| 0 <= k < |claims| && claims[k] == claim;
      assert CountedStatus(made, claims[k], item) == Unsupported;
    }
  }

  /** The four eligibilities, each exactly. */
  predicate EligibilityIsExact(context: Context, order: Order, item: string, path: Path, scope: seq<string>, made: map<Pair, Finding>,
                               eligibility: Eligibility) {
    var countable, late := Countable(context, order, item, path, scope), LateCoolingOff(context, order, item, path, scope);
    var contradicted, unsupported := SomeContradicted(made, path.required, item), SomeUnsupported(made, path.required, item);
    && (eligibility == Eligible <==> countable && !contradicted && !unsupported)
    && (eligibility == NeedsInformation <==> countable && !contradicted && unsupported)
    && (eligibility == Ineligible <==> late || (countable && contradicted))
    && (eligibility == SpecialistRequired <==> !countable && !late)
  }

  predicate NamesFailures(context: Context, order: Order, item: string, path: Path, scope: seq<string>, reasons: seq<Reason>) {
    && (forall system :: Failed(system) in reasons <==> system in path.predicates && !Passes(context, order, item, path.id, scope, system))
    && (PathNotEffective in reasons <==> !InForce(context, path))
    && ClaimContradicted !in reasons && UserEvidenceRequired !in reasons
  }

  predicate ReasonsAreExact(context: Context, order: Order, item: string, path: Path, scope: seq<string>, eligibility: Eligibility, reasons: seq<Reason>) {
    match eligibility
    case Eligible => reasons == []
    case NeedsInformation => reasons == [UserEvidenceRequired]
    case Ineligible => reasons == if LateCoolingOff(context, order, item, path, scope) then [Failed(WithinPathWindow)] else [ClaimContradicted]
    case SpecialistRequired => reasons != [] && NamesFailures(context, order, item, path, scope, reasons)
  }

  /** The record shows what every predicate of the path gave, in its order. */
  predicate ShowsAll(context: Context, order: Order, path: Path, scope: seq<string>, outcome: Outcome) {
    && |outcome.predicates| == |path.predicates|
    && forall k :: 0 <= k < |outcome.predicates| ==>
         outcome.predicates[k] == PredicateValue(context, order, outcome.item, path.id, scope, path.predicates[k])
  }

  predicate DecidedExactly(context: Context, order: Order, path: Path, scope: seq<string>, made: map<Pair, Finding>, outcome: Outcome) {
    && outcome.path == path.id && outcome.clauseRefs == path.clauseRefs && outcome.claims == path.required
    && ShowsAll(context, order, path, scope, outcome)
    && EligibilityIsExact(context, order, outcome.item, path, scope, made, outcome.eligibility)
    && ReasonsAreExact(context, order, outcome.item, path, scope, outcome.eligibility, outcome.reasons)
  }

  lemma {:induction false} FailedReasonsAre(predicates: seq<PredicateFinding>)
    ensures forall reason :: reason in FailedReasons(predicates) <==>
      exists k :: 0 <= k < |predicates| && predicates[k].verdict != Pass && reason == Failed(predicates[k].system)
  {
    if predicates != [] {
      var init, last := predicates[..|predicates| - 1], predicates[|predicates| - 1];
      FailedReasonsAre(init);
      forall reason ensures reason in FailedReasons(predicates) <==>
        exists k :: 0 <= k < |predicates| && predicates[k].verdict != Pass && reason == Failed(predicates[k].system)
      {
        if k :| 0 <= k < |init| && init[k].verdict != Pass && reason == Failed(init[k].system) {
          assert predicates[k].verdict != Pass && reason == Failed(predicates[k].system);
        }
        if reason in FailedReasons(init) {
          var k :| 0 <= k < |init| && init[k].verdict != Pass && reason == Failed(init[k].system);
          assert predicates[k] == init[k];
        }
      }
    }
  }

  lemma FailuresAreNamed(context: Context, order: Order, item: string, path: Path, scope: seq<string>)
    ensures NamesFailures(context, order, item, path, scope, Failures(context, order, item, path, scope))
  {
    var predicates := Predicates(context, order, item, path, scope);
    FailedReasonsAre(predicates);
    forall system ensures Failed(system) in FailedReasons(predicates) <==>
      system in path.predicates && !Passes(context, order, item, path.id, scope, system)
    {
      if system in path.predicates && !Passes(context, order, item, path.id, scope, system) {
        var k :| 0 <= k < |path.predicates| && path.predicates[k] == system;
        assert predicates[k].verdict != Pass && Failed(predicates[k].system) == Failed(system);
      }
    }
  }

  lemma OutcomeIsDecided(context: Context, order: Order, scope: seq<string>, made: map<Pair, Finding>, evidence: set<string>, item: string, path: Path)
    requires PathOk(path) && OutcomeFor(context, order, scope, made, evidence, item, path).Some?
    ensures DecidedExactly(context, order, path, scope, made, OutcomeFor(context, order, scope, made, evidence, item, path).value)
  {
    FactsDecideExactly(context, order, item, path, scope);
    FailuresAreNamed(context, order, item, path, scope);
    NotBoth(context, order, item, path.id);
    ClaimsCountExactly(made, path.required, item);
  }

  lemma NotBoth(context: Context, order: Order, item: string, path: PathId)
    ensures !(Timely(context, order, item, path, true) && Timely(context, order, item, path, false))
  {
  }

  /** Every outcome of every evaluation, with its reasons: what it is follows from the facts, the deadline, the path and the claims. */
  lemma OutcomesAreExact(context: Context, order: Order, bundle: Bundle, scope: seq<string>, findings: seq<Finding>, evidence: seq<EvidenceItem>, n: nat)
    requires BundleOk(bundle)
    requires var all := Evaluation(context, order, bundle, scope, findings, evidence); all.Some? && n < |all.value|
    ensures var outcome := Evaluation(context, order, bundle, scope, findings, evidence).value[n];
      outcome.item in scope && exists k :: 0 <= k < |bundle.paths| && DecidedExactly(context, order, bundle.paths[k], scope, ByPair(findings), outcome)
  {
    EvaluationComesFromPaths(context, order, bundle, scope, findings, evidence, n);
    var outcome := Evaluation(context, order, bundle, scope, findings, evidence).value[n];
    var k :| 0 <= k < |bundle.paths| && FromPath(context, order, bundle, scope, findings, evidence, outcome, k);
    OutcomeIsDecided(context, order, scope, ByPair(findings), EvidenceIds(evidence), outcome.item, bundle.paths[k]);
  }

  predicate HasOutcome(outcomes: seq<Outcome>, item: string, path: PathId) {
    exists n :: 0 <= n < |outcomes| && outcomes[n].item == item && outcomes[n].path == path
  }

  lemma {:induction false} ItemsAreCovered(context: Context, order: Order, paths: seq<Path>, scope: seq<string>, made: map<Pair, Finding>,
                                           evidence: set<string>, items: seq<string>, i: nat, k: nat)
    requires i < |items| && k < |paths| && AllOutcomes(context, order, paths, scope, made, evidence, items).Some?
    ensures HasOutcome(AllOutcomes(context, order, paths, scope, made, evidence, items).value, items[i], paths[k].id)
  {
    var others, item := items[..|items| - 1], items[|items| - 1];
    var init := AllOutcomes(context, order, paths, scope, made, evidence, others).value;
    var last := OutcomesFor(context, order, scope, made, evidence, item, paths).value;
    if i < |others| {
      ItemsAreCovered(context, order, paths, scope, made, evidence, others, i, k);
      var n :| 0 <= n < |init| && init[n].item == items[i] && init[n].path == paths[k].id;
      assert (init + last)[n] == init[n];
    } else {
      OutcomesAreNamed(context, order, scope, made, evidence, item, paths);
      assert (init + last)[|init| + k] == last[k];
    }
  }

  /** And every claimed item has its outcome on every path. */
  lemma EveryPathIsDecided(context: Context, order: Order, bundle: Bundle, scope: seq<string>, findings: seq<Finding>, evidence: seq<EvidenceItem>)
    requires Evaluation(context, order, bundle, scope, findings, evidence).Some?
    ensures forall i, k :: 0 <= i < |scope| && 0 <= k < |bundle.paths| ==>
      HasOutcome(Evaluation(context, order, bundle, scope, findings, evidence).value, scope[i], bundle.paths[k].id)
  {
    forall i, k | 0 <= i < |scope| && 0 <= k < |bundle.paths|
      ensures HasOutcome(Evaluation(context, order, bundle, scope, findings, evidence).value, scope[i], bundle.paths[k].id)
    {
      ItemsAreCovered(context, order, bundle.paths, scope, ByPair(findings), EvidenceIds(evidence), scope, i, k);
    }
  }

  // ------------------------------------------------------------------ what raises

  /** The items are on the order, and none is named twice. */
  predicate Claimable(order: Order, scope: seq<string>) {
    |scope| > 0 && Unique(scope) && forall item :: item in scope ==> FindItem(order.items, item).Some?
  }

  predicate OneFindingEach(findings: seq<Finding>) {
    forall i, k :: 0 <= i < |findings| && 0 <= k < |findings| && findings[i].claim == findings[k].claim && findings[i].subject == findings[k].subject ==> i == k
  }

  predicate IsEvidence(evidence: seq<EvidenceItem>, ref: string) { exists item :: item in evidence && item.id == ref }

  /** What is found agrees with the order on non-delivery, and is decided by evidence of the case on everything else. */
  predicate Trusted(finding: Finding, evidence: seq<EvidenceItem>, investigation: Option<string>) {
    if finding.claim == ItemConfirmedUndelivered then
      finding.status == Supported && investigation.Some? && investigation.value in finding.refs
    else
      finding.status == Unsupported || (finding.refs != [] && forall ref :: ref in finding.refs ==> IsEvidence(evidence, ref))
  }

  /** Every finding for a claim of the path and the item can be trusted. */
  predicate AllTrusted(order: Order, item: string, path: Path, findings: seq<Finding>, evidence: seq<EvidenceItem>) {
    forall finding :: finding in findings && finding.claim in path.required && finding.subject == item ==>
      DetailsOf(order, item).Some? && Trusted(finding, evidence, DetailsOf(order, item).value.investigation)
  }

  lemma EvidenceIdsAre(evidence: seq<EvidenceItem>)
    ensures forall ref :: ref in EvidenceIds(evidence) <==> IsEvidence(evidence, ref)
  {
    forall ref ensures ref in EvidenceIds(evidence) <==> IsEvidence(evidence, ref) {
      if item :| item in evidence && item.id == ref {
        var i :| 0 <= i < |evidence| && evidence[i] == item;
        assert evidence[i].id == ref;
      }
    }
  }

  lemma TrustedIs(findings: seq<Finding>, evidence: seq<EvidenceItem>, n: nat, nondelivery: Option<string>)
    requires DistinctPairs(findings) && n < |findings|
    ensures Untrusted(ByPair(findings), EvidenceIds(evidence), findings[n].claim, findings[n].subject, nondelivery)
        <==> !Trusted(findings[n], evidence, nondelivery)
  {
    ByPairOfUnique(findings, n);
    EvidenceIdsAre(evidence);
    var refs := findings[n].refs;
    assert (exists k :: 0 <= k < |refs| && refs[k] !in EvidenceIds(evidence)) <==> exists ref :: ref in refs && !IsEvidence(evidence, ref);
  }

  lemma AllTrustedIs(context: Context, order: Order, scope: seq<string>, item: string, path: Path, findings: seq<Finding>, evidence: seq<EvidenceItem>)
    requires DistinctPairs(findings) && DetailsOf(order, item).Some?
    ensures AllTrusted(order, item, path, findings, evidence) <==>
      forall k :: 0 <= k < |path.required| ==>
        !Untrusted(ByPair(findings), EvidenceIds(evidence), path.required[k], item, Nondelivery(context, order, item, path, scope))
  {
    var made, nondelivery := ByPair(findings), Nondelivery(context, order, item, path, scope);
    assert nondelivery == DetailsOf(order, item).value.investigation;
    forall finding | finding in findings && finding.claim in path.required && finding.subject == item
      ensures exists k :: 0 <= k < |path.required| && path.required[k] == finding.claim
      ensures Untrusted(made, EvidenceIds(evidence), finding.claim, item, nondelivery) <==> !Trusted(finding, evidence, nondelivery)
    {
      var n :| 0 <= n < |findings| && findings[n] == finding;
      TrustedIs(findings, evidence, n, nondelivery);
    }
    forall k | 0 <= k < |path.required| && Untrusted(made, EvidenceIds(evidence), path.required[k], item, nondelivery)
      ensures exists finding :: finding in findings && finding.claim == path.required[k] && finding.subject == item
    {
      ByPairFinds(findings);
      assert made[(path.required[k], item)] in findings;
    }
  }

  /** One item raises on one path. */
  predicate Raises(context: Context, order: Order, scope: seq<string>, item: string, path: Path, findings: seq<Finding>, evidence: seq<EvidenceItem>) {
    Countable(context, order, item, path, scope) && !AllTrusted(order, item, path, findings, evidence)
  }

  lemma OutcomeRaises(context: Context, order: Order, scope: seq<string>, item: string, path: Path, findings: seq<Finding>, evidence: seq<EvidenceItem>)
    requires PathOk(path) && DistinctPairs(findings)
    ensures OutcomeFor(context, order, scope, ByPair(findings), EvidenceIds(evidence), item, path).None?
        <==> Raises(context, order, scope, item, path, findings, evidence)
  {
    FactsDecideExactly(context, order, item, path, scope);
    if DetailsOf(order, item).Some? { AllTrustedIs(context, order, scope, item, path, findings, evidence); }
  }

  lemma {:induction false} OutcomesRaise(context: Context, order: Order, scope: seq<string>, item: string, paths: seq<Path>,
                                         findings: seq<Finding>, evidence: seq<EvidenceItem>)
    requires DistinctPairs(findings) && forall k :: 0 <= k < |paths| ==> PathOk(paths[k])
    ensures OutcomesFor(context, order, scope, ByPair(findings), EvidenceIds(evidence), item, paths).None?
        <==> exists k :: 0 <= k < |paths| && Raises(context, order, scope, item, paths[k], findings, evidence)
  {
    if paths != [] {
      OutcomesRaise(context, order, scope, item, paths[..|paths| - 1], findings, evidence);
      OutcomeRaises(context, order, scope, item, paths[|paths| - 1], findings, evidence);
      assert forall k :: 0 <= k < |paths| - 1 ==> paths[..|paths| - 1][k] == paths[k];
    }
  }

  lemma {:induction false} AllRaise(context: Context, order: Order, scope: seq<string>, paths: seq<Path>, findings: seq<Finding>,
                                    evidence: seq<EvidenceItem>, items: seq<string>)
    requires DistinctPairs(findings) && forall k :: 0 <= k < |paths| ==> PathOk(paths[k])
    ensures AllOutcomes(context, order, paths, scope, ByPair(findings), EvidenceIds(evidence), items).None?
        <==> exists i, k :: 0 <= i < |items| && 0 <= k < |paths| && Raises(context, order, scope, items[i], paths[k], findings, evidence)
  {
    if items != [] {
      AllRaise(context, order, scope, paths, findings, evidence, items[..|items| - 1]);
      OutcomesRaise(context, order, scope, items[|items| - 1], paths, findings, evidence);
      assert forall i :: 0 <= i < |items| - 1 ==> items[..|items| - 1][i] == items[i];
    }
  }

  /**
   When evaluate_policy returns, exactly: the case and the rules are v2, the order is the case's, the
   items are claimed once each from it, no two findings answer the same claim, and, wherever claims
   count, each finding is one to be trusted.
   */
  lemma ReturnedExactly(context: Context, order: Order, bundle: Bundle, scope: seq<string>, findings: seq<Finding>, evidence: seq<EvidenceItem>)
    requires BundleOk(bundle) && bundle.retrieved
    ensures Evaluation(context, order, bundle, scope, findings, evidence).Some? <==>
      && context.v2 && bundle.v2 && order.orderRef == context.orderRef && Claimable(order, scope) && OneFindingEach(findings)
      && forall i, k :: 0 <= i < |scope| && 0 <= k < |bundle.paths| && Countable(context, order, scope[i], bundle.paths[k], scope) ==>
           AllTrusted(order, scope[i], bundle.paths[k], findings, evidence)
  {
    RecordedExactly(context, order, bundle, scope, findings, evidence);
    forall item ensures Has(order, item) <==> FindItem(order.items, item).Some? { FindItemFinds(order.items, item); }
    assert OneFindingEach(findings) <==> DistinctPairs(findings);
    assert Claimable(order, scope) <==> ClaimedOk(order, scope);
    if DistinctPairs(findings) { AllRaise(context, order, scope, bundle.paths, findings, evidence, scope); }
  }

  /** The order does not tell what the predicate asks: it is unknown then, and only then, and never counts as failed. */
  predicate Untold(context: Context, order: Order, item: string, path: PathId, system: SystemPredicate) {
    var details := DetailsOf(order, item);
    if system == TransactionInScope then order.facts.None?
    else if details.None? then true
    else
      match system
      case SingleRefundableItem => FindItem(order.items, item).None?
      case PaymentScopeAvailable => FindItem(order.items, item).None? || details.value.cancelled.None? || details.value.refunded.None?
      case NoExceptionEstablished => !Written(details.value.exceptionSource) || details.value.exceptionState == UnknownException
      case WithinPathWindow => context.firstSubmitted.None? || FindDeadline(details.value.deadlines, path).None?
      case ReceiptConfirmed => details.value.delivery == UnknownDelivery
      case NondeliveryConfirmed => details.value.delivery == UnknownDelivery
      case NoPendingSplitDelivery => details.value.pendingSplit.None?
      case _ => false
  }

  /** Where the answer of a predicate comes from. */
  function SourceGiven(order: Order, item: string, path: PathId, system: SystemPredicate): Option<string> {
    if system == TransactionInScope then if order.facts.Some? then Some(order.facts.value.source) else None
    else if DetailsOf(order, item).None? then None
    else
      var facts := DetailsOf(order, item).value;
      var deadline := FindDeadline(facts.deadlines, path);
      match system
      case NoExceptionEstablished => facts.exceptionSource
      case WithinPathWindow => if deadline.Some? then Some(deadline.value.ruleSource) else None
      case NondeliveryConfirmed => facts.investigation
      case _ => Some(facts.source)
  }

  lemma UnknownExactly(context: Context, order: Order, item: string, path: PathId, scope: seq<string>, system: SystemPredicate)
    ensures PredicateValue(context, order, item, path, scope, system).verdict == Unknown <==> Untold(context, order, item, path, system)
    ensures PredicateValue(context, order, item, path, scope, system).system == system
    ensures PredicateValue(context, order, item, path, scope, system).source == SourceGiven(order, item, path, system)
  {
  }

  /** No claim of more than one item is ever decided: every outcome asks for a specialist. */
  lemma SeveralItemsNeedSpecialist(context: Context, order: Order, bundle: Bundle, scope: seq<string>, findings: seq<Finding>,
                                   evidence: seq<EvidenceItem>, n: nat)
    requires BundleOk(bundle) && |scope| > 1
    requires var all := Evaluation(context, order, bundle, scope, findings, evidence); all.Some? && n < |all.value|
    ensures Evaluation(context, order, bundle, scope, findings, evidence).value[n].eligibility == SpecialistRequired
  {
    EvaluationComesFromPaths(context, order, bundle, scope, findings, evidence, n);
    var outcome := Evaluation(context, order, bundle, scope, findings, evidence).value[n];
    var k :| 0 <= k < |bundle.paths| && FromPath(context, order, bundle, scope, findings, evidence, outcome, k);
    SeveralItemsFailPath(context, order, scope, ByPair(findings), EvidenceIds(evidence), outcome.item, bundle.paths[k]);
  }

  /** On a path of the shipped rules, the two ways of reading a claim's status agree, except for what raises. */
  lemma StatusesAgree(findings: seq<Finding>, bundle: Bundle, order: Order, item: string, evidence: set<string>, claim: ClaimId,
                      nondelivery: Option<string>)
    requires FindingsOk(findings, bundle, order, [item]) && claim in RequiredClaims(bundle) && Definition(claim).scope == LineItemScope
    requires !Untrusted(ByPair(findings), evidence, claim, item, nondelivery)
    ensures StatusIs(ByPair(findings), claim, item, CountedStatus(ByPair(findings), claim, item))
  {
    FindingsAnswer(findings, bundle, order, [item], claim, item);
  }

  lemma PathClaimsAreItemClaims(path: PathId)
    ensures forall claim :: claim in PathClaims(path) ==> Definition(claim).scope == LineItemScope
  {
    match path case CoolingOff => case DamagedOnArrival => case WrongItem => case UndeliveredItem =>
  }

  /** The selected path of an accepted bundle requires exactly its claims, all of them about line items. */
  lemma SelectedClaims(bundle: Bundle, k: nat)
    requires BundleOk(bundle) && bundle.v2 && bundle.retrieved
    requires k < |bundle.paths| && bundle.selected == Some(bundle.paths[k].id)
    ensures forall claim :: claim in RequiredClaims(bundle) <==> claim in bundle.paths[k].required
    ensures forall claim :: claim in RequiredClaims(bundle) ==> Definition(claim).scope == LineItemScope
  {
    SelectedPathFixesClaims(bundle);
    assert PathOk(bundle.paths[k]);
    PathClaimsAreItemClaims(bundle.paths[k].id);
  }

  predicate Matches(eligibility: Eligibility, status: EvidenceStatus) {
    && (eligibility == Eligible <==> status == SufficientForApproval)
    && (eligibility == Ineligible <==> status == SufficientForDecline)
    && (eligibility == NeedsInformation <==> status == Insufficient)
  }

  /**
   The two evaluators agree: on one item, with accepted findings, the selected path's outcome is
   the evidence status, provided the path is effective and its system predicates pass.
   */
  lemma EvaluatorsAgree(context: Context, order: Order, bundle: Bundle, item: string, findings: seq<Finding>, evidence: seq<EvidenceItem>, n: nat)
    requires BundleOk(bundle) && bundle.retrieved
    requires FindingsOk(findings, bundle, order, [item])
    requires var all := Evaluation(context, order, bundle, [item], findings, evidence); all.Some? && n < |all.value|
    requires var outcome := Evaluation(context, order, bundle, [item], findings, evidence).value[n];
      && bundle.selected == Some(outcome.path) && AllPass(outcome.predicates)
      && forall k :: 0 <= k < |bundle.paths| && bundle.paths[k].id == outcome.path ==> Effective(context, bundle.paths[k])
    ensures Matches(Evaluation(context, order, bundle, [item], findings, evidence).value[n].eligibility, StatusOf(findings, bundle, [item]))
  {
    EvaluationComesFromPaths(context, order, bundle, [item], findings, evidence, n);
    var outcome := Evaluation(context, order, bundle, [item], findings, evidence).value[n];
    var k :| 0 <= k < |bundle.paths| && FromPath(context, order, bundle, [item], findings, evidence, outcome, k);
    OutcomeAgrees(context, order, bundle, item, findings, evidence, outcome, k);
  }

  lemma {:induction false} OutcomeAgrees(context: Context, order: Order, bundle: Bundle, item: string, findings: seq<Finding>, evidence: seq<EvidenceItem>,
                      outcome: Outcome, k: nat)
    requires BundleOk(bundle) && bundle.v2 && bundle.retrieved && FindingsOk(findings, bundle, order, [item])
    requires FromPath(context, order, bundle, [item], findings, evidence, outcome, k)
    requires bundle.selected == Some(outcome.path) && AllPass(outcome.predicates) && Effective(context, bundle.paths[k])
    ensures Matches(outcome.eligibility, StatusOf(findings, bundle, [item]))
  {
    assert outcome.item == item;
    OutcomeShape(context, order, [item], ByPair(findings), EvidenceIds(evidence), item, bundle.paths[k]);
    PathAgrees(context, order, bundle, item, findings, EvidenceIds(evidence), k);
  }

  lemma PassedOutcome(context: Context, order: Order, scope: seq<string>, made: map<Pair, Finding>, evidence: set<string>, item: string, path: Path)
    requires AllPass(Predicates(context, order, item, path, scope)) && Effective(context, path)
    requires OutcomeFor(context, order, scope, made, evidence, item, path).Some?
    ensures forall k :: 0 <= k < |path.required| ==>
      !Untrusted(made, evidence, path.required[k], item, Nondelivery(context, order, item, path, scope))
    ensures OutcomeFor(context, order, scope, made, evidence, item, path).value.eligibility ==
      if SomeCounts(made, path.required, item, Contradicted) then Ineligible
      else if SomeCounts(made, path.required, item, Unsupported) then NeedsInformation else Eligible
  {
    NoFailureMeansAllPass(Predicates(context, order, item, path, scope));
    assert Failures(context, order, item, path, scope) == [];
  }

  lemma PathAgrees(context: Context, order: Order, bundle: Bundle, item: string, findings: seq<Finding>, evidence: set<string>, k: nat)
    requires BundleOk(bundle) && bundle.v2 && bundle.retrieved && FindingsOk(findings, bundle, order, [item])
    requires k < |bundle.paths| && bundle.selected == Some(bundle.paths[k].id) && Effective(context, bundle.paths[k])
    requires AllPass(Predicates(context, order, item, bundle.paths[k], [item]))
    requires OutcomeFor(context, order, [item], ByPair(findings), evidence, item, bundle.paths[k]).Some?
    ensures Matches(OutcomeFor(context, order, [item], ByPair(findings), evidence, item, bundle.paths[k]).value.eligibility,
                    StatusOf(findings, bundle, [item]))
  {
    var path, made, claims := bundle.paths[k], ByPair(findings), RequiredClaims(bundle);
    var nondelivery := Nondelivery(context, order, item, path, [item]);
    SelectedClaims(bundle, k);
    PassedOutcome(context, order, [item], made, evidence, item, path);
    forall claim | claim in claims
      ensures StatusIs(made, claim, item, CountedStatus(made, claim, item))
    {
      var i :| 0 <= i < |path.required| && path.required[i] == claim;
      assert !Untrusted(made, evidence, path.required[i], item, nondelivery);
      StatusesAgree(findings, bundle, order, item, evidence, claim, nondelivery);
    }
    assert forall i :: 0 <= i < |path.required| ==> path.required[i] in claims;
    CountsAgree(made, path.required, claims, item);
    OneItemStatus(findings, bundle, item);
  }

  lemma CountsAgree(made: map<Pair, Finding>, required: seq<ClaimId>, claims: set<ClaimId>, item: string)
    requires forall claim :: claim in claims <==> claim in required
    requires forall claim :: claim in claims ==> StatusIs(made, claim, item, CountedStatus(made, claim, item))
    ensures SomeCounts(made, required, item, Contradicted) <==> Contradicts(made, claims, item)
    ensures !SomeCounts(made, required, item, Contradicted) && !SomeCounts(made, required, item, Unsupported) <==> Supports(made, claims, item)
  {
    forall claim | claim in claims
      ensures SomeCounts(made, required, item, CountedStatus(made, claim, item))
    {
      var i :| 0 <= i < |required| && required[i] == claim;
      assert CountedStatus(made, required[i], item) == CountedStatus(made, claim, item);
    }
    if status :| status in [Contradicted, Unsupported] && SomeCounts(made, required, item, status) {
      var i :| 0 <= i < |required| && CountedStatus(made, required[i], item) == status;
      assert required[i] in claims && StatusIs(made, required[i], item, status);
      assert !Supports(made, claims, item) by { assert !StatusIs(made, required[i], item, Supported); }
    }
    if SomeCounts(made, required, item, Contradicted) {
      var i :| 0 <= i < |required| && CountedStatus(made, required[i], item) == Contradicted;
      assert required[i] in claims && StatusIs(made, required[i], item, Contradicted);
    }
  }

  lemma OneItemStatus(findings: seq<Finding>, bundle: Bundle, item: string)
    ensures var made, claims := ByPair(findings), RequiredClaims(bundle);
      StatusOf(findings, bundle, [item]) ==
        if Supports(made, claims, item) then SufficientForApproval
        else if Contradicts(made, claims, item) then SufficientForDecline else Insufficient
  {
    assert [item][0] == item;
  }
}
