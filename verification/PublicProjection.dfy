/**
 What buyers and operators may see of a JSON value (apps/api/src/return_agent/auth.py,
 public_projection).  The risky-text search is a parameter; None is a raised TypeError.
 */
module PublicProjection {
  import opened Common

  datatype Field = Field(key: string, value: Json)

  datatype Json = Null | Bool(b: bool) | Number(n: real) | Text(s: string) | List(items: seq<Json>) | Object(fields: seq<Field>)

  const NEUTRAL := "案件處理進度已更新，請參考目前狀態。"

  const HIDDEN_KEYS: set<string> :=
    {"user_risk_snapshot", "user_risk_gate", "risk_score", "risk_tags", "account_age_days", "same_reason_claims_90d",
     "refunded_orders_90d", "orders_90d", "dossier", "review_note"}

  const BLANKED_KEYS: set<string> := {"human_review", "human_review_result"}

  const RISK_ROUTES: set<string> := {"HIGH_USER_RISK", "USER_RISK_UNAVAILABLE"}

  const RISK_CODES: set<string> :=
    {"HIGH_USER_RISK", "USER_RISK_UNAVAILABLE", "REPEATED_SAME_REASON_CLAIMS", "HIGH_REFUND_RATE", "NEW_ACCOUNT_REPEATED_CLAIMS"}

  /** The value of the first field with the key. */
  function Get(fields: seq<Field>, key: string): Option<Json> {
    if fields == [] then None
    else
      var found, last := Get(fields[..|fields| - 1], key), fields[|fields| - 1];
      if found.Some? then found else if last.key == key then Some(last.value) else None
  }

  predicate Hashable(v: Json) { !v.List? && !v.Object? }

  predicate Truthy(v: Json) {
    match v
    case Null => false
    case Bool(b) => b
    case Number(n) => n != 0.0
    case Text(s) => s != ""
    case List(items) => items != []
    case Object(fields) => fields != []
  }

  predicate IsText(v: Option<Json>, s: string) { v == Some(Text(s)) }

  predicate Narrates(fields: seq<Field>) {
    IsText(Get(fields, "type"), "narration") && Get(fields, "text").Some? && Truthy(Get(fields, "text").value)
  }

  /** The search of a narration's text raises when it is not a text. */
  predicate NarrationRaises(fields: seq<Field>) { Narrates(fields) && !Get(fields, "text").value.Text? }

  predicate Exposes(risky: string -> bool, fields: seq<Field>) {
    Narrates(fields) && Get(fields, "text").value.Text? && risky(Get(fields, "text").value.s)
  }

  predicate RiskCode(v: Json) { v.Text? && v.s in RISK_CODES }

  function Filter(items: seq<Json>): seq<Json> {
    if items == [] then []
    else
      var last := items[|items| - 1];
      Filter(items[..|items| - 1]) + if RiskCode(last) then [] else [last]
  }

  predicate AllHashable(items: seq<Json>) { forall k :: 0 <= k < |items| ==> Hashable(items[k]) }

  datatype Fate = Raises | Dropped | Kept(field: Field) | Descend

  predicate Blanked(fields: seq<Field>, key: string) {
    key in BLANKED_KEYS || (key == "review" && IsText(Get(fields, "interrupt_kind"), "HUMAN_REVIEW"))
  }

  /** What becomes of one field; `Descend` projects its value. */
  function FateOf(risky: string -> bool, fields: seq<Field>, field: Field): Fate {
    if field.key in HIDDEN_KEYS then Dropped
    else if Blanked(fields, field.key) then Kept(Field(field.key, Null))
    else if field.key == "routing_reason" && !Hashable(field.value) then Raises
    else if field.key == "routing_reason" && field.value.Text? && field.value.s in RISK_ROUTES then Dropped
    else if field.key == "reason_codes" && field.value.List? then
      if AllHashable(field.value.items) then Kept(Field(field.key, List(Filter(field.value.items)))) else Raises
    else if field.key == "text" && Exposes(risky, fields) then Kept(Field(field.key, Text(NEUTRAL)))
    else Descend
  }

  function Keep(fates: seq<Fate>): seq<Field> {
    if fates == [] then []
    else
      var last := fates[|fates| - 1];
      Keep(fates[..|fates| - 1]) + if last.Kept? then [last.field] else []
  }

  /** What becomes of the field at `k`, its value projected if need be. */
  function FateAt(risky: string -> bool, v: Json, k: nat): Fate
    requires v.Object? && k < |v.fields|
    decreases v, 0
  {
    var fate := FateOf(risky, v.fields, v.fields[k]);
    if !fate.Descend? then fate
    else
      var value := Project(risky, v.fields[k].value);
      if value.None? then Raises else Kept(Field(v.fields[k].key, value.value))
  }

  function Fates(risky: string -> bool, v: Json, n: nat): (fates: seq<Fate>)
    requires v.Object? && n <= |v.fields|
    decreases v, 1, n
  {
    if n == 0 then [] else Fates(risky, v, n - 1) + [FateAt(risky, v, n - 1)]
  }

  function ProjectItems(risky: string -> bool, v: Json, n: nat): Option<seq<Json>>
    requires v.List? && n <= |v.items|
    decreases v, 1, n
  {
    if n == 0 then Some([])
    else
      var init, last := ProjectItems(risky, v, n - 1), Project(risky, v.items[n - 1]);
      if init.None? || last.None? then None else Some(init.value + [last.value])
  }

  predicate SomeRaises(fates: seq<Fate>) { exists k :: 0 <= k < |fates| && fates[k].Raises? }

  /** public_projection */
  function Project(risky: string -> bool, v: Json): Option<Json>
    decreases v, 2
  {
    match v
    case List(items) =>
      var shown := ProjectItems(risky, v, |items|);
      if shown.None? then None else Some(List(shown.value))
    case Object(fields) =>
      if NarrationRaises(fields) then None
      else
        var fates := Fates(risky, v, |fields|);
        if SomeRaises(fates) then None else Some(Object(Keep(fates)))
    case _ => Some(v)
  }

  // ------------------------------------------------------------------ what the result is like

  predicate RouteOk(v: Json) { Hashable(v) && !(v.Text? && v.s in RISK_ROUTES) }

  predicate CodesOk(items: seq<Json>) { AllHashable(items) && forall k :: 0 <= k < |items| ==> !RiskCode(items[k]) }

  /** A field that may be shown, apart from what its value holds. */
  predicate FieldShown(fields: seq<Field>, field: Field) {
    && field.key !in HIDDEN_KEYS
    && (Blanked(fields, field.key) ==> field.value == Null)
    && (field.key == "routing_reason" ==> RouteOk(field.value))
    && (field.key == "reason_codes" && field.value.List? ==> CodesOk(field.value.items))
  }

  /** No hidden field, no risk reason, no human note and no risky narration, at any depth. */
  predicate Clean(risky: string -> bool, v: Json) {
    match v
    case List(items) => forall k :: 0 <= k < |items| ==> Clean(risky, items[k])
    case Object(fields) =>
      && !NarrationRaises(fields) && !Exposes(risky, fields)
      && forall k :: 0 <= k < |fields| ==> FieldShown(fields, fields[k]) && Clean(risky, fields[k].value)
    case _ => true
  }

  lemma {:induction false} FilterIsSafe(items: seq<Json>)
    requires AllHashable(items)
    ensures CodesOk(Filter(items))
    ensures (forall k :: 0 <= k < |items| ==> !RiskCode(items[k])) ==> Filter(items) == items
  {
    if items != [] { FilterIsSafe(items[..|items| - 1]); }
  }

  /** The fates keep the keys of the fields they keep. */
  predicate KeysKept(fields: seq<Field>, fates: seq<Fate>) {
    |fates| == |fields| && forall k :: 0 <= k < |fates| ==> fates[k].Kept? ==> fates[k].field.key == fields[k].key
  }

  /** A key that is never dropped is found at the same field before and after. */
  lemma {:induction false} GetKept(fields: seq<Field>, fates: seq<Fate>, key: string)
    requires KeysKept(fields, fates)
    requires forall k :: 0 <= k < |fates| ==> fields[k].key == key ==> fates[k].Kept?
    ensures Get(fields, key).Some? <==> Get(Keep(fates), key).Some?
    ensures Get(fields, key).Some? ==> exists k :: 0 <= k < |fields| && FoundAt(fields[k], fates[k], key, Get(fields, key).value, Get(Keep(fates), key).value)
  {
    if fields != [] {
      var n := |fields| - 1;
      GetKept(fields[..n], fates[..n], key);
      var init := Keep(fates[..n]);
      if fates[n].Kept? {
        assert Keep(fates) == init + [fates[n].field] && Keep(fates)[..|init|] == init;
      } else {
        assert Keep(fates) == init;
      }
      if Get(fields[..n], key).Some? {
        var k :| 0 <= k < n && FoundAt(fields[..n][k], fates[..n][k], key, Get(fields[..n], key).value, Get(init, key).value);
        assert FoundAt(fields[k], fates[k], key, Get(fields, key).value, Get(Keep(fates), key).value);
      } else if Get(fields, key).Some? {
        assert FoundAt(fields[n], fates[n], key, Get(fields, key).value, Get(Keep(fates), key).value);
      }
    }
  }

  /** The field with the key held `before`, and holds `after`. */
  predicate FoundAt(field: Field, fate: Fate, key: string, before: Json, after: Json) {
    field.key == key && field.value == before && fate.Kept? && fate.field.value == after
  }

  lemma {:induction false} KeepHas(fates: seq<Fate>, n: nat)
    requires n < |Keep(fates)|
    ensures exists k :: 0 <= k < |fates| && fates[k].Kept? && fates[k].field == Keep(fates)[n]
  {
    var last := |fates| - 1;
    if n < |Keep(fates[..last])| {
      KeepHas(fates[..last], n);
      var k :| 0 <= k < last && fates[..last][k].Kept? && fates[..last][k].field == Keep(fates[..last])[n];
      assert fates[k].field == Keep(fates)[n];
    } else {
      assert fates[last].Kept?;
    }
  }

  lemma {:induction false} KeepAll(fields: seq<Field>, fates: seq<Fate>)
    requires |fates| == |fields| && forall k :: 0 <= k < |fates| ==> fates[k] == Kept(fields[k])
    ensures Keep(fates) == fields
  {
    if fates != [] { KeepAll(fields[..|fields| - 1], fates[..|fates| - 1]); }
  }

  // ------------------------------------------------------------------ items and fates, one by one

  lemma {:induction false} FatesAre(risky: string -> bool, v: Json, n: nat)
    requires v.Object? && n <= |v.fields|
    ensures |Fates(risky, v, n)| == n && forall k :: 0 <= k < n ==> Fates(risky, v, n)[k] == FateAt(risky, v, k)
  {
    if n > 0 { FatesAre(risky, v, n - 1); }
  }

  lemma {:induction false} ItemsAre(risky: string -> bool, v: Json, n: nat)
    requires v.List? && n <= |v.items|
    ensures ProjectItems(risky, v, n).Some? <==> forall k :: 0 <= k < n ==> Project(risky, v.items[k]).Some?
    ensures ProjectItems(risky, v, n).Some? ==>
      && |ProjectItems(risky, v, n).value| == n
      && forall k :: 0 <= k < n ==> Project(risky, v.items[k]) == Some(ProjectItems(risky, v, n).value[k])
  {
    if n > 0 { ItemsAre(risky, v, n - 1); }
  }

  /** The kind of a value, every scalar, and what is empty. */
  predicate SameKind(v: Json, r: Json) {
    (Hashable(v) ==> r == v) && (v.List? <==> r.List?) && (v.Object? <==> r.Object?) && (!Truthy(v) ==> r == v)
  }

  lemma ProjectKeepsKind(risky: string -> bool, v: Json)
    requires Project(risky, v).Some?
    ensures SameKind(v, Project(risky, v).value)
  {
    if v.List? { ItemsAre(risky, v, |v.items|); }
    if v.Object? && v.fields == [] { FatesAre(risky, v, 0); }
  }

  /** No field of the object raises. */
  predicate Quiet(risky: string -> bool, v: Json)
    requires v.Object?
  {
    forall k :: 0 <= k < |v.fields| ==> !FateAt(risky, v, k).Raises?
  }

  function Shown(risky: string -> bool, v: Json): seq<Field>
    requires v.Object?
  {
    Keep(Fates(risky, v, |v.fields|))
  }

  lemma ProjectObject(risky: string -> bool, v: Json)
    requires v.Object?
    ensures Project(risky, v) == if NarrationRaises(v.fields) || !Quiet(risky, v) then None else Some(Object(Shown(risky, v)))
  {
    FatesAre(risky, v, |v.fields|);
    var fates := Fates(risky, v, |v.fields|);
    if !Quiet(risky, v) {
      var k :| 0 <= k < |v.fields| && FateAt(risky, v, k).Raises?;
      assert fates[k].Raises?;
    }
  }

  /** A key that is never dropped is found at the same field before and after. */
  lemma ShownHas(risky: string -> bool, v: Json, key: string)
    requires v.Object? && forall k :: 0 <= k < |v.fields| ==> v.fields[k].key == key ==> FateAt(risky, v, k).Kept?
    requires Quiet(risky, v)
    ensures Get(v.fields, key).Some? <==> Get(Shown(risky, v), key).Some?
    ensures Get(v.fields, key).Some? ==> exists k ::
      0 <= k < |v.fields| && FoundAt(v.fields[k], FateAt(risky, v, k), key, Get(v.fields, key).value, Get(Shown(risky, v), key).value)
  {
    var fates := Fates(risky, v, |v.fields|);
    FatesAre(risky, v, |v.fields|);
    forall k | 0 <= k < |fates| && fates[k].Kept?
      ensures fates[k].field.key == v.fields[k].key
    {
      assert fates[k] == FateAt(risky, v, k);
    }
    GetKept(v.fields, fates, key);
    if Get(v.fields, key).Some? {
      var k :| 0 <= k < |v.fields| && FoundAt(v.fields[k], fates[k], key, Get(v.fields, key).value, Get(Shown(risky, v), key).value);
      assert fates[k] == FateAt(risky, v, k);
    }
  }

  // ------------------------------------------------------------------ what is shown is clean

  /** A kept field is one that may be shown. */
  lemma FateIsShown(risky: string -> bool, v: Json, k: nat, shown: seq<Field>)
    requires v.Object? && k < |v.fields| && FateAt(risky, v, k).Kept?
    requires forall key :: Blanked(shown, key) <==> Blanked(v.fields, key)
    ensures FieldShown(shown, FateAt(risky, v, k).field)
  {
    var field := v.fields[k];
    var fate := FateOf(risky, v.fields, field);
    if fate.Descend? {
      ProjectKeepsKind(risky, field.value);
    } else if field.key == "reason_codes" && field.value.List? && !Blanked(v.fields, field.key) {
      FilterIsSafe(field.value.items);
    }
  }

  /** The keys "interrupt_kind" and "type", whose values only ever descend. */
  lemma TextUnchanged(risky: string -> bool, v: Json, key: string, s: string)
    requires v.Object? && Quiet(risky, v) && (key == "interrupt_kind" || key == "type")
    ensures IsText(Get(Shown(risky, v), key), s) <==> IsText(Get(v.fields, key), s)
  {
    forall k | 0 <= k < |v.fields| && v.fields[k].key == key
      ensures FateAt(risky, v, k).Kept? && Project(risky, v.fields[k].value) == Some(FateAt(risky, v, k).field.value)
    {
      assert FateOf(risky, v.fields, v.fields[k]).Descend?;
    }
    ShownHas(risky, v, key);
    if Get(v.fields, key).Some? {
      var k :| 0 <= k < |v.fields| && FoundAt(v.fields[k], FateAt(risky, v, k), key, Get(v.fields, key).value, Get(Shown(risky, v), key).value);
      ProjectKeepsKind(risky, v.fields[k].value);
    }
  }

  /** The text of a narration is neutralised, or keeps its kind. */
  predicate TextCalmed(risky: string -> bool, fields: seq<Field>, shown: seq<Field>) {
    var before, after := Get(fields, "text"), Get(shown, "text");
    if before.None? then after.None?
    else if Exposes(risky, fields) then after == Some(Text(NEUTRAL))
    else after.Some? && SameKind(before.value, after.value)
  }

  lemma TextFate(risky: string -> bool, v: Json, k: nat)
    requires v.Object? && k < |v.fields| && v.fields[k].key == "text" && !FateAt(risky, v, k).Raises?
    ensures var fate := FateAt(risky, v, k);
      && fate.Kept?
      && (Exposes(risky, v.fields) ==> fate.field.value == Text(NEUTRAL))
      && (!Exposes(risky, v.fields) ==> SameKind(v.fields[k].value, fate.field.value))
  {
    if Exposes(risky, v.fields) {
      assert FateOf(risky, v.fields, v.fields[k]) == Kept(Field("text", Text(NEUTRAL)));
    } else {
      assert FateOf(risky, v.fields, v.fields[k]) == Descend;
      ProjectKeepsKind(risky, v.fields[k].value);
    }
  }

  lemma TextIsCalmed(risky: string -> bool, v: Json)
    requires v.Object? && Quiet(risky, v)
    ensures TextCalmed(risky, v.fields, Shown(risky, v))
  {
    forall k | 0 <= k < |v.fields| && v.fields[k].key == "text"
      ensures FateAt(risky, v, k).Kept?
    {
      TextFate(risky, v, k);
    }
    ShownHas(risky, v, "text");
    if Get(v.fields, "text").Some? {
      var k :| 0 <= k < |v.fields| && FoundAt(v.fields[k], FateAt(risky, v, k), "text", Get(v.fields, "text").value, Get(Shown(risky, v), "text").value);
      TextFate(risky, v, k);
    }
  }

  /** What is kept of a narration, if any, is harmless. */
  lemma NarrationIsCalm(risky: string -> bool, fields: seq<Field>, shown: seq<Field>)
    requires !risky(NEUTRAL) && !NarrationRaises(fields) && TextCalmed(risky, fields, shown)
    requires IsText(Get(shown, "type"), "narration") <==> IsText(Get(fields, "type"), "narration")
    ensures !NarrationRaises(shown) && !Exposes(risky, shown)
  {
  }

  lemma KeptIsClean(risky: string -> bool, fields: seq<Field>, k: nat)
    requires k < |fields| && FateOf(risky, fields, fields[k]).Kept?
    ensures Clean(risky, FateOf(risky, fields, fields[k]).field.value)
  {
    var field := fields[k];
    if field.key == "reason_codes" && field.value.List? && !Blanked(fields, field.key) {
      FilterIsSafe(field.value.items);
    }
  }

  /** Whatever the value, what is shown of it is clean. */
  lemma {:induction false} ProjectionIsClean(risky: string -> bool, v: Json)
    requires !risky(NEUTRAL) && Project(risky, v).Some?
    ensures Clean(risky, Project(risky, v).value)
    decreases v, 1
  {
    if v.List? {
      ItemsAre(risky, v, |v.items|);
      forall k | 0 <= k < |v.items|
        ensures Clean(risky, Project(risky, v.items[k]).value)
      {
        ProjectionIsClean(risky, v.items[k]);
      }
    } else if v.Object? {
      ObjectIsClean(risky, v);
    }
  }

  lemma {:induction false} ObjectIsClean(risky: string -> bool, v: Json)
    requires !risky(NEUTRAL) && v.Object? && Project(risky, v).Some?
    ensures Clean(risky, Project(risky, v).value)
    decreases v, 0
  {
    ProjectObject(risky, v);
    var fates, shown := Fates(risky, v, |v.fields|), Shown(risky, v);
    FatesAre(risky, v, |v.fields|);
    TextIsCalmed(risky, v);
    TextUnchanged(risky, v, "type", "narration");
    NarrationIsCalm(risky, v.fields, shown);
    TextUnchanged(risky, v, "interrupt_kind", "HUMAN_REVIEW");
    forall n | 0 <= n < |shown|
      ensures FieldShown(shown, shown[n]) && Clean(risky, shown[n].value)
    {
      KeepHas(fates, n);
      var k :| 0 <= k < |fates| && fates[k].Kept? && fates[k].field == shown[n];
      assert fates[k] == FateAt(risky, v, k);
      FateIsShown(risky, v, k, shown);
      if FateOf(risky, v.fields, v.fields[k]).Descend? {
        ProjectionIsClean(risky, v.fields[k].value);
      } else {
        KeptIsClean(risky, v.fields, k);
      }
    }
  }

  /** A clean value is shown as it is. */
  lemma {:induction false} CleanIsFixed(risky: string -> bool, v: Json)
    requires Clean(risky, v)
    ensures Project(risky, v) == Some(v)
    decreases v
  {
    if v.List? {
      ItemsAre(risky, v, |v.items|);
      forall k | 0 <= k < |v.items|
        ensures Project(risky, v.items[k]) == Some(v.items[k])
      {
        CleanIsFixed(risky, v.items[k]);
      }
      assert ProjectItems(risky, v, |v.items|).value == v.items;
    } else if v.Object? {
      var fates := Fates(risky, v, |v.fields|);
      FatesAre(risky, v, |v.fields|);
      forall k | 0 <= k < |v.fields|
        ensures FateAt(risky, v, k) == Kept(v.fields[k])
      {
        assert FieldShown(v.fields, v.fields[k]);
        CleanIsFixed(risky, v.fields[k].value);
        if v.fields[k].key == "reason_codes" && v.fields[k].value.List? { FilterIsSafe(v.fields[k].value.items); }
      }
      ProjectObject(risky, v);
      KeepAll(v.fields, fates);
    }
  }

  /** Exactly the clean values are left as they are. */
  lemma FixedExactlyWhenClean(risky: string -> bool, v: Json)
    requires !risky(NEUTRAL)
    ensures Project(risky, v) == Some(v) <==> Clean(risky, v)
  {
    if Clean(risky, v) { CleanIsFixed(risky, v); }
    if Project(risky, v) == Some(v) { ProjectionIsClean(risky, v); }
  }

  /** Projecting twice is projecting once. */
  lemma ProjectionIsIdempotent(risky: string -> bool, v: Json)
    requires !risky(NEUTRAL) && Project(risky, v).Some?
    ensures Project(risky, Project(risky, v).value) == Project(risky, v)
  {
    ProjectionIsClean(risky, v);
    CleanIsFixed(risky, Project(risky, v).value);
  }

  // ------------------------------------------------------------------ what is still shown

  /** Fields that are left out. */
  predicate Hides(field: Field) {
    field.key in HIDDEN_KEYS || (field.key == "routing_reason" && field.value.Text? && field.value.s in RISK_ROUTES)
  }

  /** How many of the first `n` fields are not left out. */
  function Remaining(fields: seq<Field>, n: nat): nat
    requires n <= |fields|
  {
    if n == 0 then 0 else Remaining(fields, n - 1) + if Hides(fields[n - 1]) then 0 else 1
  }

  /** How many of the first `n` items are no risk codes. */
  function Harmless(items: seq<Json>, n: nat): nat
    requires n <= |items|
  {
    if n == 0 then 0 else Harmless(items, n - 1) + if RiskCode(items[n - 1]) then 0 else 1
  }

  /** The first `n` items without the risk codes, in order. */
  predicate HarmlessPart(items: seq<Json>, n: nat, left: seq<Json>)
    requires n <= |items|
  {
    && |left| == Harmless(items, n)
    && forall k :: 0 <= k < n && !RiskCode(items[k]) ==> Harmless(items, k) < |left| && left[Harmless(items, k)] == items[k]
  }

  predicate WithoutCodes(items: seq<Json>, left: seq<Json>) { HarmlessPart(items, |items|, left) }

  lemma OneMoreItem(items: seq<Json>, n: nat, left: seq<Json>)
    requires n < |items| && HarmlessPart(items, n, left)
    ensures HarmlessPart(items, n + 1, left + if RiskCode(items[n]) then [] else [items[n]])
  {
    var more := left + if RiskCode(items[n]) then [] else [items[n]];
    forall k | 0 <= k < n + 1 && !RiskCode(items[k]) ensures Harmless(items, k) < |more| && more[Harmless(items, k)] == items[k] {
      if k < n { assert left[Harmless(items, k)] == items[k]; }
    }
  }

  lemma {:induction false} FilterLeaves(items: seq<Json>, n: nat)
    requires n <= |items|
    ensures HarmlessPart(items, n, Filter(items[..n]))
  {
    if n > 0 {
      FilterLeaves(items, n - 1);
      OneMoreItem(items, n - 1, Filter(items[..n - 1]));
      assert items[..n][..n - 1] == items[..n - 1];
    }
  }

  /** What a field that is not left out is shown as: blanked, without risk codes, neutralised, or projected. */
  predicate ShownAs(risky: string -> bool, fields: seq<Field>, field: Field, shown: Field) {
    && shown.key == field.key
    && (if Blanked(fields, field.key) then shown.value == Null
        else if field.key == "reason_codes" && field.value.List? then shown.value.List? && WithoutCodes(field.value.items, shown.value.items)
        else if field.key == "text" && Exposes(risky, fields) then shown.value == Text(NEUTRAL)
        else Project(risky, field.value) == Some(shown.value))
  }

  /** The field cannot be shown: a test for membership meets a list or object, or its value cannot be projected. */
  predicate FieldRaises(risky: string -> bool, fields: seq<Field>, field: Field) {
    && !Hides(field) && !Blanked(fields, field.key)
    && (|| (field.key == "routing_reason" && !Hashable(field.value))
        || (field.key == "reason_codes" && field.value.List? && !AllHashable(field.value.items))
        || (!(field.key == "reason_codes" && field.value.List?) && !(field.key == "text" && Exposes(risky, fields))
            && Project(risky, field.value).None?))
  }

  lemma FateIs(risky: string -> bool, v: Json, k: nat)
    requires v.Object? && k < |v.fields|
    ensures var fate, field := FateAt(risky, v, k), v.fields[k];
      && (fate.Dropped? <==> Hides(field))
      && (fate.Raises? <==> FieldRaises(risky, v.fields, field))
      && (fate.Kept? ==> ShownAs(risky, v.fields, field, fate.field))
      && !fate.Descend?
  {
    if v.fields[k].value.List? {
      var items := v.fields[k].value.items;
      FilterLeaves(items, |items|);
      assert items[..|items|] == items;
    }
  }

  predicate KeptPart(fields: seq<Field>, fates: seq<Fate>, n: nat, left: seq<Field>)
    requires |fates| == |fields| && n <= |fields|
  {
    && |left| == Remaining(fields, n)
    && forall k :: 0 <= k < n && !Hides(fields[k]) ==>
         Remaining(fields, k) < |left| && fates[k].Kept? && left[Remaining(fields, k)] == fates[k].field
  }

  lemma OneMoreField(fields: seq<Field>, fates: seq<Fate>, n: nat, left: seq<Field>)
    requires |fates| == |fields| && n < |fields| && KeptPart(fields, fates, n, left)
    requires if Hides(fields[n]) then fates[n].Dropped? else fates[n].Kept?
    ensures KeptPart(fields, fates, n + 1, left + if fates[n].Kept? then [fates[n].field] else [])
  {
    var more := left + if fates[n].Kept? then [fates[n].field] else [];
    forall k | 0 <= k < n + 1 && !Hides(fields[k])
      ensures Remaining(fields, k) < |more| && fates[k].Kept? && more[Remaining(fields, k)] == fates[k].field
    {
      if k < n { assert left[Remaining(fields, k)] == fates[k].field; }
    }
  }

  /** The first fields that are not left out are the first ones shown. */
  lemma {:induction false} KeepIs(fields: seq<Field>, fates: seq<Fate>, n: nat)
    requires |fates| == |fields| && n <= |fields|
    requires forall k :: 0 <= k < |fates| ==> (fates[k].Dropped? <==> Hides(fields[k])) && (fates[k].Dropped? || fates[k].Kept?)
    ensures KeptPart(fields, fates, n, Keep(fates[..n]))
  {
    if n > 0 {
      KeepIs(fields, fates, n - 1);
      OneMoreField(fields, fates, n - 1, Keep(fates[..n - 1]));
      assert fates[..n][..n - 1] == fates[..n - 1];
    }
  }

  /**
   What is shown of an object, exactly: every field that is not left out, at its place among
   those, and shown as above; it raises exactly when a narration's text or some field does.
   */
  lemma {:induction false} ObjectIsShownAs(risky: string -> bool, v: Json)
    requires v.Object?
    ensures Project(risky, v).None? <==>
      NarrationRaises(v.fields) || exists k :: 0 <= k < |v.fields| && FieldRaises(risky, v.fields, v.fields[k])
    ensures Project(risky, v).Some? ==>
      && Project(risky, v).value.Object?
      && var shown := Project(risky, v).value.fields;
      && |shown| == Remaining(v.fields, |v.fields|)
      && forall k :: 0 <= k < |v.fields| && !Hides(v.fields[k]) ==>
           Remaining(v.fields, k) < |shown| && ShownAs(risky, v.fields, v.fields[k], shown[Remaining(v.fields, k)])
  {
    var fates := Fates(risky, v, |v.fields|);
    FatesAre(risky, v, |v.fields|);
    ProjectObject(risky, v);
    forall k | 0 <= k < |v.fields|
      ensures fates[k] == FateAt(risky, v, k)
      ensures (fates[k].Dropped? <==> Hides(v.fields[k])) && (fates[k].Raises? <==> FieldRaises(risky, v.fields, v.fields[k]))
      ensures fates[k].Kept? ==> ShownAs(risky, v.fields, v.fields[k], fates[k].field)
      ensures !fates[k].Descend?
    {
      FateIs(risky, v, k);
    }
    if Project(risky, v).Some? {
      KeepIs(v.fields, fates, |v.fields|);
      assert fates[..|v.fields|] == fates;
    }
  }

  /** A list is shown item by item, and raises exactly when an item does; anything else is shown as it is. */
  lemma ListIsShownAs(risky: string -> bool, v: Json)
    requires !v.Object?
    ensures v.List? ==>
      && (Project(risky, v).None? <==> exists k :: 0 <= k < |v.items| && Project(risky, v.items[k]).None?)
      && (Project(risky, v).Some? ==>
            && Project(risky, v).value.List? && |Project(risky, v).value.items| == |v.items|
            && forall k :: 0 <= k < |v.items| ==> Project(risky, v.items[k]) == Some(Project(risky, v).value.items[k]))
    ensures !v.List? ==> Project(risky, v) == Some(v)
  {
    if v.List? { ItemsAre(risky, v, |v.items|); }
  }
}
