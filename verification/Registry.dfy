/** The claim registry (apps/contracts/src/return_agent_contracts/registry.py). */
module Registry {
  datatype ClaimId =
    | DeliveryConfirmed | OrderWithinReturnWindow | ShipmentSealIntact | ItemPhysicallyDamaged | DamagePresentOnArrival
    | ItemFunctionallyImpaired | ItemDiffersFromListing | WrongItemReceived | ItemNotInShipment | ItemUnused
    | ItemConfirmedUndelivered

  datatype SubjectScope = OrderScope | LineItemScope

  datatype SatisfiableBy = UserEvidence | SystemFacts

  datatype EvidenceType = Image | Video | Text | Document

  datatype ClaimDefinition = ClaimDefinition(claimId: ClaimId, scope: SubjectScope, satisfiableBy: seq<SatisfiableBy>,
                                             accepted: seq<EvidenceType>, distinguishFrom: seq<ClaimId>)

  type Table = map<ClaimId, ClaimDefinition>

  /** get_claim_definition: the second version of the table. */
  function Definition(claim: ClaimId): ClaimDefinition {
    match claim
    case DeliveryConfirmed => ClaimDefinition(claim, OrderScope, [SystemFacts], [], [])
    case OrderWithinReturnWindow => ClaimDefinition(claim, OrderScope, [SystemFacts], [], [])
    case ShipmentSealIntact => ClaimDefinition(claim, OrderScope, [UserEvidence], [Image, Video], [])
    case ItemPhysicallyDamaged =>
      ClaimDefinition(claim, LineItemScope, [UserEvidence], [Image, Video], [DamagePresentOnArrival, ItemFunctionallyImpaired])
    case DamagePresentOnArrival => ClaimDefinition(claim, LineItemScope, [UserEvidence], [Image, Video], [ItemPhysicallyDamaged])
    case ItemFunctionallyImpaired =>
      ClaimDefinition(claim, LineItemScope, [UserEvidence], [Image, Video, Text], [ItemPhysicallyDamaged])
    case ItemDiffersFromListing => ClaimDefinition(claim, LineItemScope, [UserEvidence], [Image, Video], [WrongItemReceived])
    case WrongItemReceived =>
      ClaimDefinition(claim, LineItemScope, [UserEvidence], [Image], [ItemDiffersFromListing, ItemNotInShipment])
    case ItemNotInShipment =>
      ClaimDefinition(claim, LineItemScope, [UserEvidence, SystemFacts], [Image, Video], [WrongItemReceived])
    case ItemUnused => ClaimDefinition(claim, LineItemScope, [UserEvidence], [Image], [])
    case ItemConfirmedUndelivered => ClaimDefinition(claim, LineItemScope, [SystemFacts], [], [])
  }

  const CLAIMS_V1: set<ClaimId> :=
    {DeliveryConfirmed, OrderWithinReturnWindow, ShipmentSealIntact, ItemPhysicallyDamaged, DamagePresentOnArrival,
     ItemFunctionallyImpaired, ItemDiffersFromListing, WrongItemReceived, ItemNotInShipment, ItemUnused}

  const CLAIMS_V2: set<ClaimId> := CLAIMS_V1 + {ItemConfirmedUndelivered}

  function TableOf(claims: set<ClaimId>): Table { map claim | claim in claims :: Definition(claim) }

  predicate AcceptsUser(claim: ClaimId) { UserEvidence in Definition(claim).satisfiableBy }

  predicate Mutual(table: Table, claim: ClaimId, counterpart: ClaimId)
    requires claim in table
  {
    counterpart in table && claim in table[counterpart].distinguishFrom
  }

  /** An entry that validate_claim_registry lets pass. */
  predicate EntryOk(table: Table, claim: ClaimId)
    requires claim in table
  {
    && table[claim].claimId == claim
    && (UserEvidence in table[claim].satisfiableBy ==> table[claim].accepted != [])
    && forall counterpart :: counterpart in table[claim].distinguishFrom ==> Mutual(table, claim, counterpart)
  }

  /** validate_claim_registry accepts exactly the complete tables with sound and symmetric entries. */
  method ValidateClaimRegistry(table: Table, expected: set<ClaimId>) returns (ok: bool)
    ensures ok <==> table.Keys == expected && forall claim :: claim in table ==> EntryOk(table, claim)
  {
    if table.Keys != expected {
      return false;
    }
    var left := table.Keys;
    while left != {}
      invariant left <= table.Keys
      invariant forall claim :: claim in table && claim !in left ==> EntryOk(table, claim)
      decreases left
    {
      var claim :| claim in left;
      var definition := table[claim];
      if definition.claimId != claim || (UserEvidence in definition.satisfiableBy && definition.accepted == []) {
        return false;
      }
      var k := 0;
      while k < |definition.distinguishFrom|
        invariant 0 <= k <= |definition.distinguishFrom|
        invariant forall i :: 0 <= i < k ==> Mutual(table, claim, definition.distinguishFrom[i])
      {
        var counterpart := definition.distinguishFrom[k];
        if !Mutual(table, claim, counterpart) {
          return false;
        }
        k := k + 1;
      }
      left := left - {claim};
    }
    return true;
  }

  lemma DefinitionIsMutual(claim: ClaimId, counterpart: ClaimId)
    requires counterpart in Definition(claim).distinguishFrom
    ensures claim in Definition(counterpart).distinguishFrom
    ensures counterpart in CLAIMS_V1
  {
    match claim
    case ItemPhysicallyDamaged => assert counterpart == DamagePresentOnArrival || counterpart == ItemFunctionallyImpaired;
    case DamagePresentOnArrival => assert counterpart == ItemPhysicallyDamaged;
    case ItemFunctionallyImpaired => assert counterpart == ItemPhysicallyDamaged;
    case ItemDiffersFromListing => assert counterpart == WrongItemReceived;
    case WrongItemReceived => assert counterpart == ItemDiffersFromListing || counterpart == ItemNotInShipment;
    case ItemNotInShipment => assert counterpart == WrongItemReceived;
    case _ =>
  }

  lemma EveryClaimIsListed(claim: ClaimId)
    ensures claim in CLAIMS_V2
    ensures Definition(claim).claimId == claim && (AcceptsUser(claim) ==> Definition(claim).accepted != [])
  {
    match claim
    case DeliveryConfirmed => case OrderWithinReturnWindow => case ShipmentSealIntact => case ItemPhysicallyDamaged =>
    case DamagePresentOnArrival => case ItemFunctionallyImpaired => case ItemDiffersFromListing =>
    case WrongItemReceived => case ItemNotInShipment => case ItemUnused => case ItemConfirmedUndelivered =>
  }

  /** Both versions of the shipped table pass the check made when the module is loaded; the second one is complete. */
  lemma {:induction false} ShippedTablesAreValid(claim: ClaimId, claims: set<ClaimId>)
    requires claims == CLAIMS_V1 || claims == CLAIMS_V2
    ensures claim in CLAIMS_V2
    ensures claim in claims ==> EntryOk(TableOf(claims), claim)
  {
    EveryClaimIsListed(claim);
    if claim in claims {
      var table := TableOf(claims);
      forall counterpart | counterpart in table[claim].distinguishFrom
        ensures Mutual(table, claim, counterpart)
      {
        DefinitionIsMutual(claim, counterpart);
      }
    }
  }
}
