/**
 The three-valued evidence rule (apps/contracts/src/return_agent_contracts/validation.py): which
 findings an assessment must have, what they decide, and which decisions and evidence requests
 they admit.  A raised ContractInvariantError is a false answer, a KeyError is None.
 */
module Evidence {
  import opened Common
  import opened Registry
  import opened Policy

  const ORDER_SUBJECT := "ORDER"

  type Pair = (ClaimId, string)

  datatype EvidenceStatus = SufficientForApproval | SufficientForDecline | Insufficient

  function Subject(claim: ClaimId, item: string): string {
    if Definition(claim).scope == OrderScope then ORDER_SUBJECT else item
  }

  function PairFor(claim: ClaimId, item: string): Pair { (claim, Subject(claim, item)) }

  function PairOf(finding: Finding): Pair { (finding.claim, finding.subject) }

  /** _findings_by_pair: a later finding for the same pair wins. */
  function ByPair(findings: seq<Finding>): map<Pair, Finding> {
    if findings == [] then map[] else ByPair(findings[..|findings| - 1])[PairOf(findings[|findings| - 1]) := findings[|findings| - 1]]
  }

  lemma {:induction false} ByPairFinds(findings: seq<Finding>)
    ensures forall pair :: pair in ByPair(findings) <==> exists i :: 0 <= i < |findings| && PairOf(findings[i]) == pair
    ensures forall pair :: pair in ByPair(findings) ==> ByPair(findings)[pair] in findings && PairOf(ByPair(findings)[pair]) == pair
  {
    if findings != [] {
      var init, last := findings[..|findings| - 1], findings[|findings| - 1];
      ByPairFinds(init);
      forall pair
        ensures pair in ByPair(findings) <==> exists i :: 0 <= i < |findings| && PairOf(findings[i]) == pair
      {
        if pair in ByPair(findings) && pair != PairOf(last) {
          assert pair in ByPair(init);
          var i :| 0 <= i < |init| && PairOf(init[i]) == pair;
          assert PairOf(findings[i]) == pair;
        }
        if i :| 0 <= i < |findings| && PairOf(findings[i]) == pair {
          if i < |init| { assert PairOf(init[i]) == pair; }
        }
      }
    }
  }

  lemma {:induction false} ByPairOfUnique(findings: seq<Finding>, i: nat)
    requires i < |findings| && forall j, k :: 0 <= j < k < |findings| ==> PairOf(findings[j]) != PairOf(findings[k])
    ensures PairOf(findings[i]) in ByPair(findings) && ByPair(findings)[PairOf(findings[i])] == findings[i]
  {
    if i < |findings| - 1 {
      ByPairOfUnique(findings[..|findings| - 1], i);
    }
  }

  // ------------------------------------------------------------------ completeness of findings

  /** Order claims are about the order as a whole, item claims about each claimed item. */
  function Subjects(claim: ClaimId, items: seq<string>): set<string> {
    if Definition(claim).scope == OrderScope then {ORDER_SUBJECT} else set item | item in items
  }

  function RequiredPairs(claims: set<ClaimId>, items: seq<string>): set<Pair> {
    set claim, subject | claim in claims && subject in Subjects(claim, items) :: (claim, subject)
  }

  /** What _claimed_items accepts: a non-empty list of distinct line items of the order. */
  predicate ClaimedOk(order: Order, items: seq<string>) {
    items != [] && Unique(items) && forall i :: 0 <= i < |items| ==> Has(order, items[i])
  }

  predicate DistinctPairs(findings: seq<Finding>) {
    forall i, k :: 0 <= i < k < |findings| ==> PairOf(findings[i]) != PairOf(findings[k])
  }

  /** validate_claim_findings: exactly one finding for each pair the active clauses require. */
  predicate FindingsOk(findings: seq<Finding>, bundle: Bundle, order: Order, items: seq<string>) {
    && ClaimedOk(order, items) && bundle.clauses != []
    && DistinctPairs(findings)
    && (set i | 0 <= i < |findings| :: PairOf(findings[i])) == RequiredPairs(RequiredClaims(bundle), items)
  }

  /** expected_claim_pairs */
  method ExpectedClaimPairs(bundle: Bundle, items: seq<string>) returns (expected: Option<set<Pair>>)
    ensures expected.None? <==> bundle.clauses == []
    ensures expected.Some? ==> expected.value == RequiredPairs(RequiredClaims(bundle), items)
  {
    if bundle.clauses == [] {
      return None;
    }
    var pairs: set<Pair> := {};
    ghost var claims: set<ClaimId> := {};
    var i := 0;
    while i < |bundle.clauses|
      invariant 0 <= i <= |bundle.clauses|
      invariant claims == set j, claim | 0 <= j < i && claim in bundle.clauses[j].required && Requires(bundle, j, claim) :: claim
      invariant pairs == RequiredPairs(claims, items)
    {
      var clause := bundle.clauses[i];
      if Active(bundle, clause) {
        ghost var before := claims;
        var k := 0;
        while k < |clause.required|
          invariant 0 <= k <= |clause.required|
          invariant claims == before + set claim | claim in clause.required[..k]
          invariant pairs == RequiredPairs(claims, items)
        {
          var claim := clause.required[k];
          ghost var known := pairs;
          if Definition(claim).scope == OrderScope {
            pairs := pairs + {(claim, ORDER_SUBJECT)};
          } else {
            pairs := pairs + set item | item in items :: (claim, item);
          }
          assert pairs == known + set subject | subject in Subjects(claim, items) :: (claim, subject);
          AddClaim(claims, items, claim);
          claims := claims + {claim};
          assert clause.required[..k + 1] == clause.required[..k] + [claim];
          k := k + 1;
        }
        assert clause.required[..k] == clause.required;
        assert forall claim :: claim in clause.required ==> Requires(bundle, i, claim);
      }
      i := i + 1;
    }
    return Some(pairs);
  }

  lemma AddClaim(claims: set<ClaimId>, items: seq<string>, claim: ClaimId)
    ensures RequiredPairs(claims + {claim}, items) == RequiredPairs(claims, items) + set subject | subject in Subjects(claim, items) :: (claim, subject)
  {
  }

  /** Accepted findings answer every claim of every item, with the finding that was made for it. */
  lemma {:induction false} FindingsAnswer(findings: seq<Finding>, bundle: Bundle, order: Order, items: seq<string>, claim: ClaimId, item: string)
    requires FindingsOk(findings, bundle, order, items) && claim in RequiredClaims(bundle) && item in items
    ensures PairFor(claim, item) in ByPair(findings)
    ensures exists i :: 0 <= i < |findings| && PairOf(findings[i]) == PairFor(claim, item) && ByPair(findings)[PairFor(claim, item)] == findings[i]
  {
    var pairs := set i | 0 <= i < |findings| :: PairOf(findings[i]);
    assert Subject(claim, item) in Subjects(claim, items);
    assert PairFor(claim, item) in pairs;
    var i :| 0 <= i < |findings| && PairOf(findings[i]) == PairFor(claim, item);
    ByPairOfUnique(findings, i);
  }

  // ------------------------------------------------------------------ the evidence rule

  predicate Answered(made: map<Pair, Finding>, claims: set<ClaimId>, item: string) {
    forall claim :: claim in claims ==> PairFor(claim, item) in made
  }

  predicate StatusIs(made: map<Pair, Finding>, claim: ClaimId, item: string, status: ClaimStatus) {
    PairFor(claim, item) in made && made[PairFor(claim, item)].status == status
  }

  /** Every required claim is supported for the item. */
  predicate Supports(made: map<Pair, Finding>, claims: set<ClaimId>, item: string) {
    forall claim :: claim in claims ==> StatusIs(made, claim, item, Supported)
  }

  /** Some required claim is contradicted for the item. */
  predicate Contradicts(made: map<Pair, Finding>, claims: set<ClaimId>, item: string) {
    exists claim :: claim in claims && StatusIs(made, claim, item, Contradicted)
  }

  /** Approval needs one fully supported item, decline a contradiction for every item. */
  function StatusOf(findings: seq<Finding>, bundle: Bundle, items: seq<string>): EvidenceStatus {
    var made, claims := ByPair(findings), RequiredClaims(bundle);
    if exists i :: 0 <= i < |items| && Supports(made, claims, items[i]) then SufficientForApproval
    else if forall i :: 0 <= i < |items| ==> Contradicts(made, claims, items[i]) then SufficientForDecline
    else Insufficient
  }

  function SupportedItems(findings: seq<Finding>, bundle: Bundle, items: seq<string>): set<string> {
    set item | item in items && Supports(ByPair(findings), RequiredClaims(bundle), item)
  }

  /** The required claims, gathered clause by clause. */
  method GatherClaims(bundle: Bundle) returns (claims: set<ClaimId>)
    ensures claims == RequiredClaims(bundle)
  {
    claims := {};
    var i := 0;
    while i < |bundle.clauses|
      invariant 0 <= i <= |bundle.clauses|
      invariant claims == set j, claim | 0 <= j < i && claim in bundle.clauses[j].required && Requires(bundle, j, claim) :: claim
    {
      if Active(bundle, bundle.clauses[i]) {
        claims := claims + set claim | claim in bundle.clauses[i].required;
        assert forall claim :: claim in bundle.clauses[i].required ==> Requires(bundle, i, claim);
      }
      i := i + 1;
    }
  }

  /** The statuses of some claims for one item, or None for a missing pair. */
  method CollectStatuses(made: map<Pair, Finding>, claims: set<ClaimId>, item: string) returns (statuses: Option<seq<ClaimStatus>>)
    ensures statuses.Some? <==> Answered(made, claims, item)
    ensures statuses.Some? ==> forall status :: status in statuses.value <==> exists claim :: claim in claims && StatusIs(made, claim, item, status)
  {
    var left: set<ClaimId>, found: seq<ClaimStatus> := claims, [];
    while left != {}
      invariant left <= claims
      invariant Answered(made, claims - left, item)
      invariant forall status :: status in found <==> exists claim :: claim in claims - left && StatusIs(made, claim, item, status)
      decreases left
    {
      var claim :| claim in left;
      if PairFor(claim, item) !in made {
        assert !Answered(made, claims, item);
        return None;
      }
      ghost var done, earlier := claims - left, found;
      left := left - {claim};
      found := found + [made[PairFor(claim, item)].status];
      assert claims - left == done + {claim};
      forall status
        ensures status in found <==> exists c :: c in claims - left && StatusIs(made, c, item, status)
      {
        if status in earlier {
          var c :| c in done && StatusIs(made, c, item, status);
          assert c in claims - left;
        }
        if status == made[PairFor(claim, item)].status { assert StatusIs(made, claim, item, status); }
      }
    }
    assert claims - left == claims;
    return Some(found);
  }

  /** expected_evidence_status: order claims first, then the item's own, item by item. */
  method ExpectedEvidenceStatus(findings: seq<Finding>, bundle: Bundle, items: seq<string>) returns (status: Option<EvidenceStatus>)
    ensures status.None? <==> exists i :: 0 <= i < |items| && !Answered(ByPair(findings), RequiredClaims(bundle), items[i])
    ensures status.Some? ==> status.value == StatusOf(findings, bundle, items)
  {
    var made := ByPair(findings);
    var claims := GatherClaims(bundle);
    var orderClaims := set claim | claim in claims && Definition(claim).scope == OrderScope;
    var itemClaims := set claim | claim in claims && Definition(claim).scope == LineItemScope;
    assert claims == orderClaims + itemClaims;
    var perItem: seq<seq<ClaimStatus>> := [];
    while |perItem| < |items|
      invariant |perItem| <= |items|
      invariant forall i :: 0 <= i < |perItem| ==> Answered(made, claims, items[i]) && Lists(made, claims, items[i], perItem[i])
    {
      var item := items[|perItem|];
      var first := CollectStatuses(made, orderClaims, item);
      if first.None? {
        assert !Answered(made, claims, item);
        return None;
      }
      var second := CollectStatuses(made, itemClaims, item);
      if second.None? {
        assert !Answered(made, claims, item);
        return None;
      }
      Listed(made, orderClaims, itemClaims, item, first.value, second.value);
      perItem := perItem + [first.value + second.value];
    }
    ListsDecide(made, claims, items, perItem);
    if exists i :: 0 <= i < |perItem| && AllSupported(perItem[i]) {
      return Some(SufficientForApproval);
    }
    if forall i :: 0 <= i < |perItem| ==> Contradicted in perItem[i] {
      return Some(SufficientForDecline);
    }
    return Some(Insufficient);
  }

  predicate AllSupported(statuses: seq<ClaimStatus>) { forall k :: 0 <= k < |statuses| ==> statuses[k] == Supported }

  /** The statuses are exactly those of the claims for the item. */
  predicate Lists(made: map<Pair, Finding>, claims: set<ClaimId>, item: string, statuses: seq<ClaimStatus>) {
    forall status: ClaimStatus :: status in statuses <==> exists claim :: claim in claims && StatusIs(made, claim, item, status)
  }

  lemma Listed(made: map<Pair, Finding>, some: set<ClaimId>, others: set<ClaimId>, item: string, first: seq<ClaimStatus>, second: seq<ClaimStatus>)
    requires Lists(made, some, item, first) && Lists(made, others, item, second)
    requires Answered(made, some, item) && Answered(made, others, item)
    ensures Lists(made, some + others, item, first + second) && Answered(made, some + others, item)
  {
    forall status: ClaimStatus
      ensures status in first + second <==> exists claim :: claim in some + others && StatusIs(made, claim, item, status)
    {
      if status in first {
        var claim :| claim in some && StatusIs(made, claim, item, status);
        assert claim in some + others;
      } else if status in second {
        var claim :| claim in others && StatusIs(made, claim, item, status);
        assert claim in some + others;
      }
    }
  }

  lemma ListDecides(made: map<Pair, Finding>, claims: set<ClaimId>, item: string, statuses: seq<ClaimStatus>)
    requires Answered(made, claims, item) && Lists(made, claims, item, statuses)
    ensures AllSupported(statuses) <==> Supports(made, claims, item)
  {
    if AllSupported(statuses) {
      forall claim | claim in claims
        ensures StatusIs(made, claim, item, Supported)
      {
        assert StatusIs(made, claim, item, made[PairFor(claim, item)].status);
        assert made[PairFor(claim, item)].status in statuses;
      }
    } else {
      var k :| 0 <= k < |statuses| && statuses[k] != Supported;
      assert statuses[k] in statuses;
      var claim :| claim in claims && StatusIs(made, claim, item, statuses[k]);
      assert !StatusIs(made, claim, item, Supported);
    }
  }

  lemma ListsDecide(made: map<Pair, Finding>, claims: set<ClaimId>, items: seq<string>, perItem: seq<seq<ClaimStatus>>)
    requires |perItem| == |items|
    requires forall i :: 0 <= i < |items| ==> Answered(made, claims, items[i]) && Lists(made, claims, items[i], perItem[i])
    ensures forall i :: 0 <= i < |items| ==> (AllSupported(perItem[i]) <==> Supports(made, claims, items[i]))
    ensures forall i :: 0 <= i < |items| ==> (Contradicted in perItem[i] <==> Contradicts(made, claims, items[i]))
  {
    forall i | 0 <= i < |items|
      ensures AllSupported(perItem[i]) <==> Supports(made, claims, items[i])
      ensures Contradicted in perItem[i] <==> Contradicts(made, claims, items[i])
    {
      ListDecides(made, claims, items[i], perItem[i]);
    }
  }

  /** _supported_item_ids, written separately over the same claims. */
  method SupportedItemIds(findings: seq<Finding>, bundle: Bundle, items: seq<string>) returns (supported: Option<set<string>>)
    ensures supported.None? <==> exists i :: 0 <= i < |items| && !Answered(ByPair(findings), RequiredClaims(bundle), items[i])
    ensures supported.Some? ==> supported.value == SupportedItems(findings, bundle, items)
  {
    var made := ByPair(findings);
    var claims := GatherClaims(bundle);
    var found: set<string> := {};
    var i := 0;
    while i < |items|
      invariant 0 <= i <= |items|
      invariant forall k :: 0 <= k < i ==> Answered(made, claims, items[k])
      invariant found == set item | item in items[..i] && Supports(made, claims, item)
    {
      var statuses := CollectStatuses(made, claims, items[i]);
      if statuses.None? {
        return None;
      }
      ListDecides(made, claims, items[i], statuses.value);
      if AllSupported(statuses.value) {
        found := found + {items[i]};
      }
      assert items[..i + 1] == items[..i] + [items[i]];
      i := i + 1;
    }
    assert items[..i] == items;
    return Some(found);
  }

  // ------------------------------------------------------------------ decisions are exclusive

  /** Accepted findings raise no KeyError, and approval means that some item may be refunded. */
  lemma ApprovalMeansSupportedItem(findings: seq<Finding>, bundle: Bundle, order: Order, items: seq<string>)
    requires FindingsOk(findings, bundle, order, items)
    ensures forall i :: 0 <= i < |items| ==> Answered(ByPair(findings), RequiredClaims(bundle), items[i])
    ensures StatusOf(findings, bundle, items) == SufficientForApproval <==> SupportedItems(findings, bundle, items) != {}
  {
    forall i | 0 <= i < |items|
      ensures Answered(ByPair(findings), RequiredClaims(bundle), items[i])
    {
      forall claim | claim in RequiredClaims(bundle)
        ensures PairFor(claim, items[i]) in ByPair(findings)
      {
        FindingsAnswer(findings, bundle, order, items, claim, items[i]);
      }
    }
    if i :| 0 <= i < |items| && Supports(ByPair(findings), RequiredClaims(bundle), items[i]) {
      assert items[i] in SupportedItems(findings, bundle, items);
    }
  }

  /** Nothing is approved for nothing: but for a cooling-off request, an approval rests on a required claim that was found supported. */
  lemma ApprovalNeedsClaim(findings: seq<Finding>, bundle: Bundle, order: Order, items: seq<string>)
    requires BundleOk(bundle) && bundle.retrieved && FindingsOk(findings, bundle, order, items)
    requires StatusOf(findings, bundle, items) == SufficientForApproval && bundle.selected != Some(CoolingOff)
    ensures exists finding :: finding in findings && finding.status == Supported && finding.claim in RequiredClaims(bundle)
  {
    var item :| item in items && Supports(ByPair(findings), RequiredClaims(bundle), item);
    var claim := RequiredSomewhere(bundle);
    FindingsAnswer(findings, bundle, order, items, claim, item);
    assert StatusIs(ByPair(findings), claim, item, Supported);
  }

  lemma RequiredSomewhere(bundle: Bundle) returns (claim: ClaimId)
    requires BundleOk(bundle) && bundle.retrieved && bundle.selected != Some(CoolingOff)
    ensures claim in RequiredClaims(bundle)
  {
    if bundle.v2 { SelectedPathFixesClaims(bundle); } else { assert ActiveAt(bundle, 0); }
    var i :| 0 <= i < |bundle.clauses| && ActiveAt(bundle, i);
    assert ClauseOk(bundle.clauses[i]);
    claim := bundle.clauses[i].required[0];
    assert Requires(bundle, i, claim);
  }

  datatype ReturnDraft = PolicyDraft(requiredReason: bool) | JudgmentDraft(required: bool, basisRefs: seq<string>)

  /** A decision draft; a refund has a non-empty scope, a decline none. `amountFree` says that the rationale names no amount. */
  datatype Draft =
    | RefundDraft(scope: seq<string>, policyRefs: seq<string>, amountFree: bool, returnDraft: ReturnDraft)
    | DeclineDraft(policyRefs: seq<string>, amountFree: bool)

  datatype MissingClaim = MissingClaim(claim: ClaimId, subject: string)

  datatype EvidenceRequest = EvidenceRequest(missing: seq<MissingClaim>, accepted: seq<EvidenceType>)

  datatype Assessment = Assessment(findings: seq<Finding>, status: EvidenceStatus, request: Option<EvidenceRequest>)

  function ActionOf(draft: Draft): Action { if draft.RefundDraft? then FullRefund else Decline }

  predicate AllowedByAll(bundle: Bundle, action: Action) {
    forall i :: 0 <= i < |bundle.clauses| && ActiveAt(bundle, i) ==> action in bundle.clauses[i].allowed
  }

  predicate SomeReturns(bundle: Bundle, policy: ReturnPolicy) {
    exists i :: 0 <= i < |bundle.clauses| && ActiveAt(bundle, i) && bundle.clauses[i].returnPolicy == policy
  }

  /** _validate_action_against_policy: the return policy of the active clauses, or None when it raises. */
  function ReturnPolicyFor(bundle: Bundle, action: Action): Option<ReturnPolicy> {
    if bundle.clauses == [] || !AllowedByAll(bundle, action) then None
    else if SomeReturns(bundle, Required) && SomeReturns(bundle, NotRequired) then None
    else if SomeReturns(bundle, Required) then Some(Required)
    else if SomeReturns(bundle, NotRequired) then Some(NotRequired)
    else Some(ModelJudgment)
  }

  lemma UniformReturn(bundle: Bundle, action: Action, policy: ReturnPolicy)
    requires exists i :: 0 <= i < |bundle.clauses| && ActiveAt(bundle, i)
    requires forall i :: 0 <= i < |bundle.clauses| && ActiveAt(bundle, i) ==> bundle.clauses[i].returnPolicy == policy
    ensures ReturnPolicyFor(bundle, action) == if AllowedByAll(bundle, action) then Some(policy) else None
  {
    assert SomeReturns(bundle, policy) && forall other :: other != policy ==> !SomeReturns(bundle, other);
  }

  /** In an accepted v2 bundle the return policy is that of the selected path, and only the allowed actions matter. */
  lemma SelectedPathFixesReturn(bundle: Bundle, action: Action)
    requires BundleOk(bundle) && bundle.v2 && bundle.retrieved
    ensures bundle.selected.Some?
    ensures ReturnPolicyFor(bundle, action) == if AllowedByAll(bundle, action) then Some(PathReturnPolicy(bundle.selected.value)) else None
  {
    SelectedPathFixesClaims(bundle);
    UniformReturn(bundle, action, PathReturnPolicy(bundle.selected.value));
  }

  predicate RefsOk(refs: seq<string>, bundle: Bundle) {
    forall k :: 0 <= k < |refs| ==> exists i :: 0 <= i < |bundle.clauses| && bundle.clauses[i].clauseId == refs[k]
  }

  /** A clause of the bundle has the id. */
  predicate InRules(bundle: Bundle, ref: string) { exists clause :: clause in bundle.clauses && clause.clauseId == ref }

  lemma RefsAreInRules(refs: seq<string>, bundle: Bundle)
    ensures RefsOk(refs, bundle) <==> forall ref :: ref in refs ==> InRules(bundle, ref)
  {
    forall k | 0 <= k < |refs|
      ensures (exists i :: 0 <= i < |bundle.clauses| && bundle.clauses[i].clauseId == refs[k]) <==> InRules(bundle, refs[k])
    {
      if clause :| clause in bundle.clauses && clause.clauseId == refs[k] {
        var i :| 0 <= i < |bundle.clauses| && bundle.clauses[i] == clause;
        assert bundle.clauses[i].clauseId == refs[k];
      }
    }
    assert (forall k :: 0 <= k < |refs| ==> InRules(bundle, refs[k])) <==> forall ref :: ref in refs ==> InRules(bundle, ref);
  }

  predicate WellFormedDraft(draft: Draft) { draft.policyRefs != [] && (draft.RefundDraft? ==> draft.scope != [] && Unique(draft.scope)) }

  /** validate_evidence_assessment */
  predicate AssessmentOk(assessment: Assessment, bundle: Bundle, order: Order, items: seq<string>) {
    && FindingsOk(assessment.findings, bundle, order, items)
    && assessment.status == StatusOf(assessment.findings, bundle, items)
    && (assessment.status == Insufficient <==> assessment.request.Some?)
    && (assessment.request.Some? ==> RequestOk(assessment.request.value, assessment.findings, bundle, order, items))
  }

  /** validate_proposed_decision_draft */
  predicate DraftOk(draft: Draft, assessment: Assessment, bundle: Bundle, order: Order, items: seq<string>) {
    && WellFormedDraft(draft)
    && AssessmentOk(assessment, bundle, order, items)
    && RefsOk(draft.policyRefs, bundle) && draft.amountFree
    && var policy := ReturnPolicyFor(bundle, ActionOf(draft));
    && policy.Some?
    && match draft
       case DeclineDraft(_, _) => assessment.status == SufficientForDecline
       case RefundDraft(scope, _, _, returnDraft) =>
         && (forall k :: 0 <= k < |scope| ==> scope[k] in SupportedItems(assessment.findings, bundle, items))
         && (policy.value == ModelJudgment <==> returnDraft.JudgmentDraft?)
         && (policy.value == Required ==> returnDraft.requiredReason)
         && (policy.value == NotRequired ==> !returnDraft.requiredReason)
  }

  /** Decisions are exclusive: a refund draft needs an approving assessment, a decline draft a declining one. */
  lemma DraftNeedsItsStatus(draft: Draft, assessment: Assessment, bundle: Bundle, order: Order, items: seq<string>)
    requires DraftOk(draft, assessment, bundle, order, items)
    ensures assessment.status == if draft.RefundDraft? then SufficientForApproval else SufficientForDecline
  {
    ApprovalMeansSupportedItem(assessment.findings, bundle, order, items);
    if draft.RefundDraft? {
      assert draft.scope[0] in SupportedItems(assessment.findings, bundle, items);
    }
  }

  /** No two accepted assessments with the same findings admit both actions. */
  lemma NoFindingsAdmitBothActions(refund: Draft, decline: Draft, one: Assessment, other: Assessment, bundle: Bundle, order: Order, items: seq<string>)
    requires refund.RefundDraft? && decline.DeclineDraft? && one.findings == other.findings
    requires DraftOk(refund, one, bundle, order, items)
    ensures !DraftOk(decline, other, bundle, order, items)
  {
    DraftNeedsItsStatus(refund, one, bundle, order, items);
    if DraftOk(decline, other, bundle, order, items) {
      DraftNeedsItsStatus(decline, other, bundle, order, items);
      assert false;
    }
  }

  // ------------------------------------------------------------------ insufficient evidence can be asked for

  predicate Unresolved(findings: seq<Finding>, i: nat) {
    i < |findings| && findings[i].status == Unsupported && AcceptsUser(findings[i].claim)
  }

  function UnresolvedPairs(findings: seq<Finding>): set<Pair> {
    set i | 0 <= i < |findings| && Unresolved(findings, i) :: PairOf(findings[i])
  }

  function MissingPairs(request: EvidenceRequest): set<Pair> {
    set i | 0 <= i < |request.missing| :: (request.missing[i].claim, request.missing[i].subject)
  }

  /** accepted_evidence_types of the asked claims. */
  function AcceptedTypes(pairs: set<Pair>): set<EvidenceType> {
    set pair, t | pair in pairs && t in Definition(pair.0).accepted :: t
  }

  function TypesIn(list: seq<EvidenceType>): set<EvidenceType> { set t | t in list }

  /** validate_evidence_request: it asks for exactly the unresolved pairs that the user can satisfy. */
  predicate RequestOk(request: EvidenceRequest, findings: seq<Finding>, bundle: Bundle, order: Order, items: seq<string>) {
    && request.missing != [] && request.accepted != []
    && FindingsOk(findings, bundle, order, items)
    && Unique(request.missing)
    && MissingPairs(request) == UnresolvedPairs(findings)
    && TypesIn(request.accepted) == AcceptedTypes(MissingPairs(request))
  }

  /** The check gathers the accepted types pair by pair; its branch for system-only claims is never taken. */
  method ValidateEvidenceRequest(request: EvidenceRequest, findings: seq<Finding>, bundle: Bundle, order: Order, items: seq<string>)
    returns (ok: bool)
    requires request.missing != [] && request.accepted != []
    ensures ok <==> RequestOk(request, findings, bundle, order, items)
  {
    if !FindingsOk(findings, bundle, order, items) || !Unique(request.missing) {
      return false;
    }
    var missing := MissingPairs(request);
    if missing != UnresolvedPairs(findings) {
      return false;
    }
    var left: set<Pair>, types: set<EvidenceType> := missing, {};
    while left != {}
      invariant left <= missing
      invariant types == AcceptedTypes(missing - left)
      decreases left
    {
      var pair :| pair in left;
      if Definition(pair.0).satisfiableBy == [SystemFacts] {
        assert false;
      }
      assert missing - (left - {pair}) == missing - left + {pair};
      types := types + set t | t in Definition(pair.0).accepted;
      left := left - {pair};
    }
    assert missing - left == missing;
    return TypesIn(request.accepted) == types;
  }

  /** Insufficient evidence has a reason: some required pair is unsupported. */
  lemma InsufficientMeansUnsupported(findings: seq<Finding>, bundle: Bundle, order: Order, items: seq<string>)
    requires FindingsOk(findings, bundle, order, items) && StatusOf(findings, bundle, items) == Insufficient
    ensures exists i :: 0 <= i < |findings| && findings[i].status == Unsupported && findings[i].claim in RequiredClaims(bundle)
  {
    var made, claims := ByPair(findings), RequiredClaims(bundle);
    var k :| 0 <= k < |items| && !Contradicts(made, claims, items[k]);
    assert !Supports(made, claims, items[k]);
    var claim :| claim in claims && !StatusIs(made, claim, items[k], Supported);
    FindingsAnswer(findings, bundle, order, items, claim, items[k]);
    assert !StatusIs(made, claim, items[k], Contradicted);
  }

  function ToMissing(pair: Pair): MissingClaim { MissingClaim(pair.0, pair.1) }

  lemma {:induction false} ListPairs(pairs: set<Pair>)
    ensures exists missing: seq<MissingClaim> :: Unique(missing) && MissingPairs(EvidenceRequest(missing, [])) == pairs
    decreases pairs
  {
    if pairs == {} {
      assert Unique<MissingClaim>([]) && MissingPairs(EvidenceRequest([], [])) == pairs;
    } else {
      var pair :| pair in pairs;
      ListPairs(pairs - {pair});
      var rest: seq<MissingClaim> :| Unique(rest) && MissingPairs(EvidenceRequest(rest, [])) == pairs - {pair};
      var all := rest + [ToMissing(pair)];
      assert all[|rest|] == ToMissing(pair);
      forall i | 0 <= i < |rest|
        ensures all[i] == rest[i] && all[i] != ToMissing(pair)
      {
        assert (rest[i].claim, rest[i].subject) in MissingPairs(EvidenceRequest(rest, []));
      }
      var request := EvidenceRequest(all, []);
      forall p
        ensures p in MissingPairs(request) <==> p in pairs
      {
        if p in MissingPairs(EvidenceRequest(rest, [])) {
          var i :| 0 <= i < |rest| && (rest[i].claim, rest[i].subject) == p;
          assert (all[i].claim, all[i].subject) == p;
        }
        if p == pair { assert (all[|rest|].claim, all[|rest|].subject) == p; }
        if p in MissingPairs(request) {
          var i :| 0 <= i < |all| && (all[i].claim, all[i].subject) == p;
          if i < |rest| { assert (rest[i].claim, rest[i].subject) == p; }
        }
      }
      assert Unique(all) && MissingPairs(request) == pairs;
    }
  }

  lemma {:induction false} ListTypes(types: set<EvidenceType>)
    ensures exists list :: TypesIn(list) == types
    decreases types
  {
    if types == {} {
      assert TypesIn([]) == types;
    } else {
      var t :| t in types;
      ListTypes(types - {t});
      var rest :| TypesIn(rest) == types - {t};
      assert TypesIn(rest + [t]) == TypesIn(rest) + {t};
    }
  }

  /**
   A valid evidence request exists exactly when some unsupported pair can be satisfied by the user.
   Without one, insufficient evidence admits no accepted assessment at all.
   */
  lemma RequestExistsExactly(findings: seq<Finding>, bundle: Bundle, order: Order, items: seq<string>)
    requires FindingsOk(findings, bundle, order, items)
    ensures (exists request :: RequestOk(request, findings, bundle, order, items)) <==> (exists i :: 0 <= i < |findings| && Unresolved(findings, i))
  {
    if i :| 0 <= i < |findings| && Unresolved(findings, i) {
      var pairs := UnresolvedPairs(findings);
      assert PairOf(findings[i]) in pairs;
      ListPairs(pairs);
      var missing: seq<MissingClaim> :| Unique(missing) && MissingPairs(EvidenceRequest(missing, [])) == pairs;
      ListTypes(AcceptedTypes(pairs));
      var accepted :| TypesIn(accepted) == AcceptedTypes(pairs);
      EveryClaimIsListed(findings[i].claim);
      assert Definition(findings[i].claim).accepted[0] in Definition(PairOf(findings[i]).0).accepted;
      assert Definition(findings[i].claim).accepted[0] in TypesIn(accepted);
      var request := EvidenceRequest(missing, accepted);
      assert MissingPairs(request) == pairs;
      assert RequestOk(request, findings, bundle, order, items);
    }
    if request :| RequestOk(request, findings, bundle, order, items) {
      assert (request.missing[0].claim, request.missing[0].subject) in MissingPairs(request);
    }
  }

  /** When every required claim accepts user evidence, insufficient evidence can always be asked for. */
  lemma InsufficientIsActionable(findings: seq<Finding>, bundle: Bundle, order: Order, items: seq<string>)
    requires FindingsOk(findings, bundle, order, items) && StatusOf(findings, bundle, items) == Insufficient
    requires forall claim :: claim in RequiredClaims(bundle) ==> AcceptsUser(claim)
    ensures exists request ::
      && RequestOk(request, findings, bundle, order, items)
      && AssessmentOk(Assessment(findings, Insufficient, Some(request)), bundle, order, items)
  {
    InsufficientMeansUnsupported(findings, bundle, order, items);
    var i :| 0 <= i < |findings| && findings[i].status == Unsupported && findings[i].claim in RequiredClaims(bundle);
    assert Unresolved(findings, i);
    RequestExistsExactly(findings, bundle, order, items);
    var request :| RequestOk(request, findings, bundle, order, items);
    assert AssessmentOk(Assessment(findings, Insufficient, Some(request)), bundle, order, items);
  }

  // ------------------------------------------------------------------ what is admitted

  /** Accepted findings have an accepted assessment exactly if they decide, or leave something to ask the user for. */
  lemma AssessmentExistsExactly(findings: seq<Finding>, bundle: Bundle, order: Order, items: seq<string>)
    requires FindingsOk(findings, bundle, order, items)
    ensures (exists assessment: Assessment :: assessment.findings == findings && AssessmentOk(assessment, bundle, order, items)) <==>
      StatusOf(findings, bundle, items) != Insufficient || exists i :: 0 <= i < |findings| && Unresolved(findings, i)
  {
    RequestExistsExactly(findings, bundle, order, items);
    var status := StatusOf(findings, bundle, items);
    if status != Insufficient {
      var assessment := Assessment(findings, status, None);
      assert assessment.findings == findings && AssessmentOk(assessment, bundle, order, items);
    } else if request :| RequestOk(request, findings, bundle, order, items) {
      var assessment := Assessment(findings, status, Some(request));
      assert assessment.findings == findings && AssessmentOk(assessment, bundle, order, items);
    }
    if assessment: Assessment :| assessment.findings == findings && AssessmentOk(assessment, bundle, order, items) {
      if status == Insufficient { assert RequestOk(assessment.request.value, findings, bundle, order, items); }
    }
  }

  /** The return that a draft for the policy may state. */
  function FittingReturn(policy: ReturnPolicy): ReturnDraft {
    if policy == ModelJudgment then JudgmentDraft(true, []) else PolicyDraft(policy == Required)
  }

  /**
   With an accepted assessment a refund draft is accepted exactly if it approves, and a decline
   draft exactly if it declines, provided the active clauses allow the action and agree on the return.
   */
  lemma DraftExistsExactly(assessment: Assessment, bundle: Bundle, order: Order, items: seq<string>)
    requires AssessmentOk(assessment, bundle, order, items)
    ensures (exists draft: Draft :: draft.RefundDraft? && DraftOk(draft, assessment, bundle, order, items)) <==>
      assessment.status == SufficientForApproval && ReturnPolicyFor(bundle, FullRefund).Some?
    ensures (exists draft: Draft :: draft.DeclineDraft? && DraftOk(draft, assessment, bundle, order, items)) <==>
      assessment.status == SufficientForDecline && ReturnPolicyFor(bundle, Decline).Some?
  {
    ApprovalMeansSupportedItem(assessment.findings, bundle, order, items);
    var refs := [bundle.clauses[0].clauseId];
    assert RefsOk(refs, bundle);
    if assessment.status == SufficientForApproval && ReturnPolicyFor(bundle, FullRefund).Some? {
      var item :| item in SupportedItems(assessment.findings, bundle, items);
      var draft := RefundDraft([item], refs, true, FittingReturn(ReturnPolicyFor(bundle, FullRefund).value));
      assert draft.RefundDraft? && DraftOk(draft, assessment, bundle, order, items);
    }
    if assessment.status == SufficientForDecline && ReturnPolicyFor(bundle, Decline).Some? {
      var draft := DeclineDraft(refs, true);
      assert draft.DeclineDraft? && DraftOk(draft, assessment, bundle, order, items);
    }
    forall draft: Draft | DraftOk(draft, assessment, bundle, order, items)
      ensures assessment.status == if draft.RefundDraft? then SufficientForApproval else SufficientForDecline
    {
      DraftNeedsItsStatus(draft, assessment, bundle, order, items);
    }
  }

  /** The return that a path admits in a draft: judged on a damaged item, else by the policy of the path. */
  predicate DraftFits(path: PathId, returnDraft: ReturnDraft) {
    match returnDraft
    case PolicyDraft(required) => path != DamagedOnArrival && (required <==> path != UndeliveredItem)
    case JudgmentDraft(_, _) => path == DamagedOnArrival
  }

  /**
   Which drafts a v2 bundle accepts, exactly.  A refund needs some items, each once and each fully
   supported, a decline a declining assessment; both need the action allowed by every active clause,
   references to clauses of the bundle and to nothing else, and a rationale without amounts.
   */
  lemma DraftIsExact(draft: Draft, assessment: Assessment, bundle: Bundle, order: Order, items: seq<string>)
    requires BundleOk(bundle) && bundle.v2 && bundle.retrieved && AssessmentOk(assessment, bundle, order, items)
    ensures bundle.selected.Some?
    ensures DraftOk(draft, assessment, bundle, order, items) <==>
      && draft.policyRefs != [] && (forall ref :: ref in draft.policyRefs ==> InRules(bundle, ref)) && draft.amountFree
      && AllowedByAll(bundle, if draft.RefundDraft? then FullRefund else Decline)
      && match draft
         case DeclineDraft(_, _) => assessment.status == SufficientForDecline
         case RefundDraft(scope, _, _, returnDraft) =>
           && scope != [] && Unique(scope) && DraftFits(bundle.selected.value, returnDraft)
           && forall item :: item in scope ==> item in items && Supports(ByPair(assessment.findings), RequiredClaims(bundle), item)
  {
    SelectedPathFixesReturn(bundle, ActionOf(draft));
    RefsAreInRules(draft.policyRefs, bundle);
    if draft.RefundDraft? {
      var supported := SupportedItems(assessment.findings, bundle, items);
      assert (forall k :: 0 <= k < |draft.scope| ==> draft.scope[k] in supported) <==> forall item :: item in draft.scope ==> item in supported;
    }
  }

  predicate Asks(request: EvidenceRequest, claim: ClaimId, subject: string) { MissingClaim(claim, subject) in request.missing }

  /** The claim is unsupported for the subject, and the user may prove it. */
  predicate UserCanProve(findings: seq<Finding>, claim: ClaimId, subject: string) {
    AcceptsUser(claim) && exists finding :: finding in findings && finding.status == Unsupported && finding.claim == claim && finding.subject == subject
  }

  /** Which evidence requests are accepted, exactly: each thing the user can prove is asked once, nothing else is, and just what proves any of them is accepted. */
  lemma RequestIsExact(request: EvidenceRequest, findings: seq<Finding>, bundle: Bundle, order: Order, items: seq<string>)
    ensures RequestOk(request, findings, bundle, order, items) <==>
      && FindingsOk(findings, bundle, order, items) && request.missing != [] && request.accepted != []
      && (forall i, k :: 0 <= i < |request.missing| && 0 <= k < |request.missing| && request.missing[i] == request.missing[k] ==> i == k)
      && (forall claim, subject :: Asks(request, claim, subject) <==> UserCanProve(findings, claim, subject))
      && (forall t :: t in request.accepted <==> exists asked :: asked in request.missing && t in Definition(asked.claim).accepted)
  {
    forall claim, subject
      ensures (claim, subject) in MissingPairs(request) <==> Asks(request, claim, subject)
      ensures (claim, subject) in UnresolvedPairs(findings) <==> UserCanProve(findings, claim, subject)
    {
      AskedIs(request, claim, subject);
      UnresolvedIs(findings, claim, subject);
    }
    assert MissingPairs(request) == UnresolvedPairs(findings) <==>
      forall claim, subject :: Asks(request, claim, subject) <==> UserCanProve(findings, claim, subject) by {
      SamePairs(MissingPairs(request), UnresolvedPairs(findings));
    }
    forall t ensures t in AcceptedTypes(MissingPairs(request)) <==> exists asked :: asked in request.missing && t in Definition(asked.claim).accepted {
      TypeIs(request, t);
    }
    assert TypesIn(request.accepted) == AcceptedTypes(MissingPairs(request)) <==>
      forall t :: t in request.accepted <==> t in AcceptedTypes(MissingPairs(request)) by {
      assert forall t :: t in TypesIn(request.accepted) <==> t in request.accepted;
    }
  }

  lemma SamePairs(some: set<Pair>, others: set<Pair>)
    ensures some == others <==> forall claim: ClaimId, subject: string :: (claim, subject) in some <==> (claim, subject) in others
  {
    if forall claim: ClaimId, subject: string :: (claim, subject) in some <==> (claim, subject) in others {
      forall pair: Pair ensures pair in some <==> pair in others { assert pair == (pair.0, pair.1); }
    }
  }

  lemma AskedIs(request: EvidenceRequest, claim: ClaimId, subject: string)
    ensures (claim, subject) in MissingPairs(request) <==> Asks(request, claim, subject)
  {
    if Asks(request, claim, subject) {
      var i :| 0 <= i < |request.missing| && request.missing[i] == MissingClaim(claim, subject);
      assert (request.missing[i].claim, request.missing[i].subject) == (claim, subject);
    }
    if (claim, subject) in MissingPairs(request) {
      var i :| 0 <= i < |request.missing| && (request.missing[i].claim, request.missing[i].subject) == (claim, subject);
      assert request.missing[i] == MissingClaim(claim, subject);
    }
  }

  lemma UnresolvedIs(findings: seq<Finding>, claim: ClaimId, subject: string)
    ensures (claim, subject) in UnresolvedPairs(findings) <==> UserCanProve(findings, claim, subject)
  {
    if UserCanProve(findings, claim, subject) {
      var finding :| finding in findings && finding.status == Unsupported && finding.claim == claim && finding.subject == subject;
      var i :| 0 <= i < |findings| && findings[i] == finding;
      assert Unresolved(findings, i) && PairOf(findings[i]) == (claim, subject);
    }
  }

  lemma TypeIs(request: EvidenceRequest, t: EvidenceType)
    ensures t in AcceptedTypes(MissingPairs(request)) <==> exists asked :: asked in request.missing && t in Definition(asked.claim).accepted
  {
    if asked :| asked in request.missing && t in Definition(asked.claim).accepted {
      assert asked == MissingClaim(asked.claim, asked.subject);
      AskedIs(request, asked.claim, asked.subject);
      assert t in Definition((asked.claim, asked.subject).0).accepted;
    }
  }

  /** An active clause that requires the return and one that waives it exclude each other; one that leaves it open yields to both. */
  lemma ReturnPolicyExactly(bundle: Bundle, action: Action)
    ensures var some := bundle.clauses != [] && forall i :: 0 <= i < |bundle.clauses| && ActiveAt(bundle, i) ==> action in bundle.clauses[i].allowed;
      var required := exists i :: 0 <= i < |bundle.clauses| && ActiveAt(bundle, i) && bundle.clauses[i].returnPolicy == Required;
      var waived := exists i :: 0 <= i < |bundle.clauses| && ActiveAt(bundle, i) && bundle.clauses[i].returnPolicy == NotRequired;
      && (ReturnPolicyFor(bundle, action).None? <==> !some || (required && waived))
      && (ReturnPolicyFor(bundle, action) == Some(Required) <==> some && required && !waived)
      && (ReturnPolicyFor(bundle, action) == Some(NotRequired) <==> some && !required && waived)
  {
  }

  // ------------------------------------------------------------------ a dead end

  const STRANDED_CLAUSE := Clause(None, "clause", "version", 0, None, [DeliveryConfirmed], [FullRefund], Required)

  const STRANDED_BUNDLE := Bundle(false, [], None, "bundle", true, [STRANDED_CLAUSE])

  const STRANDED_ORDER := Order("snapshot", "order", "TWD", [LineItem("item", 1, 1)], 1, None)

  const STRANDED_FINDINGS := [Finding(DeliveryConfirmed, ORDER_SUBJECT, Unsupported, [])]

  lemma StrandedFindings()
    ensures RequiredClaims(STRANDED_BUNDLE) == {DeliveryConfirmed}
    ensures FindingsOk(STRANDED_FINDINGS, STRANDED_BUNDLE, STRANDED_ORDER, ["item"])
  {
    var items := ["item"];
    assert STRANDED_ORDER.items[0].id == items[0];
    assert Requires(STRANDED_BUNDLE, 0, DeliveryConfirmed);
    assert RequiredPairs({DeliveryConfirmed}, items) == {(DeliveryConfirmed, ORDER_SUBJECT)};
    assert PairOf(STRANDED_FINDINGS[0]) == (DeliveryConfirmed, ORDER_SUBJECT);
    assert (set i | 0 <= i < |STRANDED_FINDINGS| :: PairOf(STRANDED_FINDINGS[i])) == {(DeliveryConfirmed, ORDER_SUBJECT)};
  }

  lemma StrandedStatus()
    ensures StatusOf(STRANDED_FINDINGS, STRANDED_BUNDLE, ["item"]) == Insufficient
  {
    StrandedFindings();
    ByPairOfUnique(STRANDED_FINDINGS, 0);
    var items := ["item"];
    assert PairFor(DeliveryConfirmed, items[0]) == PairOf(STRANDED_FINDINGS[0]);
    assert !StatusIs(ByPair(STRANDED_FINDINGS), DeliveryConfirmed, items[0], Supported);
    assert !Contradicts(ByPair(STRANDED_FINDINGS), {DeliveryConfirmed}, items[0]);
  }

  /** An unsupported system fact alone is a dead end: no request is valid, so no assessment of these findings is. */
  lemma SystemFactsCanStrand(assessment: Assessment)
    requires assessment.findings == STRANDED_FINDINGS
    ensures BundleOk(STRANDED_BUNDLE) && FindingsOk(STRANDED_FINDINGS, STRANDED_BUNDLE, STRANDED_ORDER, ["item"])
    ensures !AssessmentOk(assessment, STRANDED_BUNDLE, STRANDED_ORDER, ["item"])
  {
    StrandedFindings();
    StrandedStatus();
    assert !Unresolved(STRANDED_FINDINGS, 0);
    RequestExistsExactly(STRANDED_FINDINGS, STRANDED_BUNDLE, STRANDED_ORDER, ["item"]);
  }
}
