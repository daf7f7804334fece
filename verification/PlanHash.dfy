/** The canonical JSON of a plan, the hash that binds an approval to it, and the stored form of a plan. */
module PlanHash {

  import opened Wrappers
  import opened Text
  import opened PlanSchema
  import Ordering
  import Json

  // ---------------------------------------------------------------------------
  // Key-sorted entries
  // ---------------------------------------------------------------------------

  function InsertEntry(e: Entry, s: seq<Entry>): seq<Entry> {
    if s == [] then [e]
    else if Ordering.Less(s[0].key, e.key) then [s[0]] + InsertEntry(e, s[1..])
    else [e] + s
  }

  /** `sorted(items, key=lambda item: item[0])`. */
  function SortEntries(entries: seq<Entry>): (r: seq<Entry>)
    ensures |r| == |entries|
  {
    if entries == [] then []
    else
      var rest := SortEntries(entries[1..]);
      InsertedLength(entries[0], rest);
      InsertEntry(entries[0], rest)
  }

  lemma {:induction false} InsertedLength(e: Entry, s: seq<Entry>)
    ensures |InsertEntry(e, s)| == |s| + 1
  {
    if s != [] {
      InsertedLength(e, s[1..]);
    }
  }

  function Keys(s: seq<Entry>): (r: seq<string>)
    ensures |r| == |s| && forall i :: 0 <= i < |s| ==> r[i] == s[i].key
  {
    seq(|s|, i requires 0 <= i < |s| => s[i].key)
  }

  ghost predicate DistinctKeys(s: seq<Entry>) {
    forall i, j :: 0 <= i < j < |s| ==> s[i].key != s[j].key
  }

  lemma {:induction false} InsertedMembers(e: Entry, s: seq<Entry>)
    ensures forall x :: x in InsertEntry(e, s) <==> x == e || x in s
  {
    if s != [] {
      InsertedMembers(e, s[1..]);
    }
  }

  lemma {:induction false} SortedMembers(entries: seq<Entry>)
    ensures forall x :: x in SortEntries(entries) <==> x in entries
  {
    if entries != [] {
      SortedMembers(entries[1..]);
      InsertedMembers(entries[0], SortEntries(entries[1..]));
    }
  }

  /** Keys increase strictly along the list. */
  ghost predicate KeysIncrease(s: seq<Entry>) {
    forall i, j :: 0 <= i < j < |s| ==> Ordering.Less(s[i].key, s[j].key)
  }

  lemma {:induction false} InsertKeepsIncreasing(e: Entry, s: seq<Entry>)
    requires KeysIncrease(s) && forall x :: x in s ==> x.key != e.key
    ensures KeysIncrease(InsertEntry(e, s))
  {
    if s != [] {
      if Ordering.Less(s[0].key, e.key) {
        InsertKeepsIncreasing(e, s[1..]);
        InsertedMembers(e, s[1..]);
        var rest := InsertEntry(e, s[1..]);
        forall k | 0 <= k < |rest| ensures Ordering.Less(s[0].key, rest[k].key) {
          assert rest[k] in rest;
        }
      } else {
        Ordering.LessIsTotal(s[0].key, e.key);
        assert s[0] in s;
        forall k | 0 < k < |s| ensures Ordering.Less(e.key, s[k].key) {
          Ordering.LessIsTransitive(e.key, s[0].key, s[k].key);
        }
      }
    }
  }

  lemma {:induction false} SortIncreases(entries: seq<Entry>)
    requires DistinctKeys(entries)
    ensures KeysIncrease(SortEntries(entries))
  {
    if entries != [] {
      SortIncreases(entries[1..]);
      SortedMembers(entries[1..]);
      InsertKeepsIncreasing(entries[0], SortEntries(entries[1..]));
    }
  }

  lemma DistinctKeysNameEntries(s: seq<Entry>, x: Entry, y: Entry)
    requires DistinctKeys(s) && x in s && y in s && x.key == y.key
    ensures x == y
  {
    var i :| 0 <= i < |s| && s[i] == x;
    var j :| 0 <= j < |s| && s[j] == y;
    assert i < j || j < i || i == j;
  }

  lemma IncreasingKeysAreDistinct(s: seq<Entry>)
    requires KeysIncrease(s)
    ensures DistinctKeys(s)
  {
    forall i, j | 0 <= i < j < |s| ensures s[i].key != s[j].key {
      Ordering.LessIsIrreflexive(s[i].key);
    }
  }

  /** A key-sorted list is determined by its entries. */
  lemma SortedEntriesAreUnique(s: seq<Entry>, t: seq<Entry>)
    requires KeysIncrease(s) && KeysIncrease(t)
    requires forall x :: x in s <==> x in t
    ensures s == t
  {
    forall k ensures k in Keys(s) <==> k in Keys(t) {
      if k in Keys(s) {
        var i :| 0 <= i < |s| && Keys(s)[i] == k;
        assert s[i] in t;
        var j :| 0 <= j < |t| && t[j] == s[i];
        assert Keys(t)[j] == k;
      }
      if k in Keys(t) {
        var i :| 0 <= i < |t| && Keys(t)[i] == k;
        assert t[i] in s;
        var j :| 0 <= j < |s| && s[j] == t[i];
        assert Keys(s)[j] == k;
      }
    }
    Ordering.SortedListsAreUnique(Keys(s), Keys(t));
    IncreasingKeysAreDistinct(s);
    forall i | 0 <= i < |s| ensures s[i] == t[i] {
      assert Keys(s)[i] == Keys(t)[i];
      assert t[i] in s && s[i] in s;
      DistinctKeysNameEntries(s, s[i], t[i]);
    }
  }

  // ---------------------------------------------------------------------------
  // Canonical data
  // ---------------------------------------------------------------------------

  /** Sort every dictionary by key and turn every tuple into a list. */
  function Canon(v: Value): Value {
    match v
    case List(items) => List(seq(|items|, i requires 0 <= i < |items| => Canon(items[i])))
    case Tuple(items) => List(seq(|items|, i requires 0 <= i < |items| => Canon(items[i])))
    case Dict(entries) => Dict(SortEntries(CanonEntries(entries)))
    case _ => v
  }

  function CanonEntries(entries: seq<Entry>): (r: seq<Entry>)
    ensures |r| == |entries|
    ensures forall i :: 0 <= i < |entries| ==> r[i] == Entry(entries[i].key, Canon(entries[i].value))
  {
    seq(|entries|, i requires 0 <= i < |entries| => Entry(entries[i].key, Canon(entries[i].value)))
  }

  /** Values a plan file can hold: dictionaries have distinct keys, floats are in printed form. */
  ghost predicate PlainValue(v: Value) {
    match v
    case Float(repr) => Json.IsFloatRepr(repr)
    case List(items) => forall i :: 0 <= i < |items| ==> PlainValue(items[i])
    case Tuple(items) => forall i :: 0 <= i < |items| ==> PlainValue(items[i])
    case Dict(entries) => DistinctKeys(entries) && forall i :: 0 <= i < |entries| ==> PlainValue(entries[i].value)
    case _ => true
  }

  ghost predicate PlainEntries(entries: seq<Entry>) {
    PlainValue(Dict(entries))
  }

  ghost predicate IsSequence(v: Value) {
    v.List? || v.Tuple?
  }

  ghost predicate HasKey(entries: seq<Entry>, key: string) {
    exists i :: 0 <= i < |entries| && entries[i].key == key
  }

  ghost predicate SameKeys(es: seq<Entry>, fs: seq<Entry>) {
    forall key :: HasKey(es, key) <==> HasKey(fs, key)
  }

  /** Equal up to dictionary order and list versus tuple. */
  ghost predicate Equivalent(v: Value, w: Value) {
    if IsSequence(v) && IsSequence(w) then
      |v.items| == |w.items| && forall i :: 0 <= i < |v.items| ==> Equivalent(v.items[i], w.items[i])
    else if v.Dict? && w.Dict? then
      && SameKeys(v.entries, w.entries)
      && forall i, j :: 0 <= i < |v.entries| && 0 <= j < |w.entries| && v.entries[i].key == w.entries[j].key ==>
           Equivalent(v.entries[i].value, w.entries[j].value)
    else v == w
  }

  lemma {:induction false} CanonIsJson(v: Value)
    requires PlainValue(v)
    ensures Json.JsonValue(Canon(v))
  {
    match v
    case List(items) =>
      forall i | 0 <= i < |items| ensures Json.JsonValue(Canon(items[i])) { CanonIsJson(items[i]); }
    case Tuple(items) =>
      forall i | 0 <= i < |items| ensures Json.JsonValue(Canon(items[i])) { CanonIsJson(items[i]); }
    case Dict(entries) =>
      forall i | 0 <= i < |entries| ensures Json.JsonValue(Canon(entries[i].value)) { CanonIsJson(entries[i].value); }
      var es, sorted := CanonEntries(entries), SortEntries(CanonEntries(entries));
      SortedMembers(es);
      forall k | 0 <= k < |sorted| ensures Json.JsonValue(sorted[k].value) {
        assert sorted[k] in es;
      }
    case _ =>
  }

  lemma CanonEntriesDistinct(entries: seq<Entry>)
    requires DistinctKeys(entries)
    ensures DistinctKeys(CanonEntries(entries)) && KeysIncrease(SortEntries(CanonEntries(entries)))
  {
    SortIncreases(CanonEntries(entries));
  }

  /** Two plain values have the same canonical form exactly when they are equivalent. */
  lemma {:induction false} CanonDecidesEquivalence(v: Value, w: Value)
    requires PlainValue(v) && PlainValue(w)
    ensures Canon(v) == Canon(w) <==> Equivalent(v, w)
    decreases v
  {
    if IsSequence(v) && IsSequence(w) {
      if |v.items| == |w.items| {
        forall i | 0 <= i < |v.items| ensures Canon(v.items[i]) == Canon(w.items[i]) <==>
            Equivalent(v.items[i], w.items[i]) {
          CanonDecidesEquivalence(v.items[i], w.items[i]);
        }
        CanonItems(v);
        CanonItems(w);
      } else {
        CanonItems(v);
        CanonItems(w);
        assert |Canon(v).items| == |v.items| && |Canon(w).items| == |w.items|;
      }
    } else if v.Dict? && w.Dict? {
      var es, fs := v.entries, w.entries;
      forall i, j | 0 <= i < |es| && 0 <= j < |fs|
        ensures Canon(es[i].value) == Canon(fs[j].value) <==> Equivalent(es[i].value, fs[j].value)
      {
        CanonDecidesEquivalence(es[i].value, fs[j].value);
      }
      DictsAgree(es, fs);
    }
  }

  lemma CanonItems(v: Value)
    requires IsSequence(v)
    ensures Canon(v).List? && |Canon(v).items| == |v.items|
    ensures forall i :: 0 <= i < |v.items| ==> Canon(v).items[i] == Canon(v.items[i])
  {
  }

  /** The dictionary case: sorted canonical entries agree exactly when keys agree and values agree key by key. */
  lemma DictsAgree(es: seq<Entry>, fs: seq<Entry>)
    requires DistinctKeys(es) && DistinctKeys(fs)
    ensures Canon(Dict(es)) == Canon(Dict(fs)) <==>
            SameKeys(es, fs) &&
            forall i, j :: 0 <= i < |es| && 0 <= j < |fs| && es[i].key == fs[j].key ==>
                Canon(es[i].value) == Canon(fs[j].value)
  {
    var ces, cfs := CanonEntries(es), CanonEntries(fs);
    CanonEntriesDistinct(es);
    CanonEntriesDistinct(fs);
    SortedMembers(ces);
    SortedMembers(cfs);
    if SortEntries(ces) == SortEntries(cfs) {
      assert forall x :: x in ces <==> x in cfs;
      SameCanonEntries(es, fs);
    }
    if SameKeys(es, fs) && forall i, j :: 0 <= i < |es| && 0 <= j < |fs| && es[i].key == fs[j].key ==>
        Canon(es[i].value) == Canon(fs[j].value) {
      CanonEntriesIncluded(es, fs);
      CanonEntriesIncluded(fs, es);
      SortedEntriesAreUnique(SortEntries(ces), SortEntries(cfs));
    }
  }

  lemma SameCanonEntries(es: seq<Entry>, fs: seq<Entry>)
    requires DistinctKeys(es) && DistinctKeys(fs)
    requires forall x :: x in CanonEntries(es) <==> x in CanonEntries(fs)
    ensures SameKeys(es, fs)
    ensures forall i, j :: 0 <= i < |es| && 0 <= j < |fs| && es[i].key == fs[j].key ==>
        Canon(es[i].value) == Canon(fs[j].value)
  {
    KeysIncluded(es, fs);
    KeysIncluded(fs, es);
    forall i, j | 0 <= i < |es| && 0 <= j < |fs| && es[i].key == fs[j].key
      ensures Canon(es[i].value) == Canon(fs[j].value)
    {
      assert CanonEntries(es)[i] in CanonEntries(fs) && CanonEntries(fs)[j] in CanonEntries(fs);
      CanonEntriesDistinct(fs);
      DistinctKeysNameEntries(CanonEntries(fs), CanonEntries(es)[i], CanonEntries(fs)[j]);
    }
  }

  lemma KeysIncluded(es: seq<Entry>, fs: seq<Entry>)
    requires forall x :: x in CanonEntries(es) ==> x in CanonEntries(fs)
    ensures forall key :: HasKey(es, key) ==> HasKey(fs, key)
  {
    forall key | HasKey(es, key) ensures HasKey(fs, key) {
      var i :| 0 <= i < |es| && es[i].key == key;
      assert CanonEntries(es)[i] in CanonEntries(fs);
      var j :| 0 <= j < |fs| && CanonEntries(fs)[j] == CanonEntries(es)[i];
      assert fs[j].key == key;
    }
  }

  lemma CanonEntriesIncluded(es: seq<Entry>, fs: seq<Entry>)
    requires SameKeys(es, fs)
    requires forall i, j :: 0 <= i < |es| && 0 <= j < |fs| && es[i].key == fs[j].key ==>
        Canon(es[i].value) == Canon(fs[j].value)
    ensures forall x :: x in CanonEntries(es) ==> x in CanonEntries(fs)
  {
    forall x | x in CanonEntries(es) ensures x in CanonEntries(fs) {
      var i :| 0 <= i < |es| && CanonEntries(es)[i] == x;
      assert HasKey(es, es[i].key);
      var j :| 0 <= j < |fs| && fs[j].key == es[i].key;
      assert CanonEntries(fs)[j] == x;
    }
  }

  // ---------------------------------------------------------------------------
  // Plans
  // ---------------------------------------------------------------------------

  function StepValue(step: ToolStep): Value {
    Dict([Entry("step_id", Int(step.stepId)), Entry("tool", Str(step.tool)),
          Entry("capability", Str(step.capability)), Entry("args", Dict(step.args))])
  }

  /** `asdict(plan)`. */
  function PlanValue(plan: Plan): Value {
    Dict([Entry("plan_id", Str(plan.planId)),
          Entry("steps", Tuple(seq(|plan.steps|, i requires 0 <= i < |plan.steps| => StepValue(plan.steps[i])))),
          Entry("metadata", Dict(plan.metadata))])
  }

  function CanonicalPlanJson(plan: Plan): string {
    Json.Print(Canon(PlanValue(plan)), Json.Compact)
  }

  /** The plan hash, for any digest function. */
  function ComputePlanHash(sha: string -> string, plan: Plan): string {
    sha(CanonicalPlanJson(plan))
  }

  /** No two texts have the same digest. */
  ghost predicate CollisionFree(sha: string -> string) {
    forall s, t :: sha(s) == sha(t) ==> s == t
  }

  ghost predicate PlainPlan(plan: Plan) {
    PlainEntries(plan.metadata) && forall i :: 0 <= i < |plan.steps| ==> PlainEntries(plan.steps[i].args)
  }

  ghost predicate SameStep(s: ToolStep, t: ToolStep) {
    s.stepId == t.stepId && s.tool == t.tool && s.capability == t.capability && Equivalent(Dict(s.args), Dict(t.args))
  }

  /** The same plan, up to dictionary order and list versus tuple inside its values. */
  ghost predicate SamePlan(p: Plan, q: Plan) {
    && p.planId == q.planId
    && |p.steps| == |q.steps|
    && (forall i :: 0 <= i < |p.steps| ==> SameStep(p.steps[i], q.steps[i]))
    && Equivalent(Dict(p.metadata), Dict(q.metadata))
  }

  lemma StepValueIsPlain(step: ToolStep)
    requires PlainEntries(step.args)
    ensures PlainValue(StepValue(step))
  {
  }

  lemma PlanValueIsPlain(plan: Plan)
    requires PlainPlan(plan)
    ensures PlainValue(PlanValue(plan))
  {
    var items := PlanValue(plan).entries[1].value.items;
    forall i | 0 <= i < |items| ensures PlainValue(items[i]) {
      StepValueIsPlain(plan.steps[i]);
    }
    assert PlainValue(Tuple(items));
  }

  lemma SameStepIsEquivalence(s: ToolStep, t: ToolStep)
    ensures Equivalent(StepValue(s), StepValue(t)) <==> SameStep(s, t)
  {
    var es, fs := StepValue(s).entries, StepValue(t).entries;
    MatchingKeys(es, fs);
    if Equivalent(StepValue(s), StepValue(t)) {
      assert Equivalent(es[0].value, fs[0].value) && Equivalent(es[1].value, fs[1].value);
      assert Equivalent(es[2].value, fs[2].value) && Equivalent(es[3].value, fs[3].value);
    }
  }

  lemma MatchingKeys(es: seq<Entry>, fs: seq<Entry>)
    requires |es| == |fs| && forall i :: 0 <= i < |es| ==> es[i].key == fs[i].key
    ensures SameKeys(es, fs)
  {
  }

  lemma SameStepsIsEquivalence(p: Plan, q: Plan)
    ensures Equivalent(PlanValue(p).entries[1].value, PlanValue(q).entries[1].value) <==>
            |p.steps| == |q.steps| && forall i :: 0 <= i < |p.steps| ==> SameStep(p.steps[i], q.steps[i])
  {
    var v, w := PlanValue(p).entries[1].value, PlanValue(q).entries[1].value;
    if |v.items| == |w.items| {
      forall i | 0 <= i < |v.items| ensures Equivalent(v.items[i], w.items[i]) <==> SameStep(p.steps[i], q.steps[i]) {
        SameStepIsEquivalence(p.steps[i], q.steps[i]);
      }
    }
  }

  lemma SamePlanIsEquivalence(p: Plan, q: Plan)
    ensures Equivalent(PlanValue(p), PlanValue(q)) <==> SamePlan(p, q)
  {
    var es, fs := PlanValue(p).entries, PlanValue(q).entries;
    MatchingKeys(es, fs);
    SameStepsIsEquivalence(p, q);
    if Equivalent(PlanValue(p), PlanValue(q)) {
      assert Equivalent(es[0].value, fs[0].value) && Equivalent(es[1].value, fs[1].value) &&
          Equivalent(es[2].value, fs[2].value);
    }
  }

  /** The canonical text says exactly which plan it is: equal texts for the same plan, different texts for different
      ones. */
  lemma CanonicalJsonIdentifiesPlan(p: Plan, q: Plan)
    requires PlainPlan(p) && PlainPlan(q)
    ensures CanonicalPlanJson(p) == CanonicalPlanJson(q) <==> SamePlan(p, q)
  {
    PlanValueIsPlain(p);
    PlanValueIsPlain(q);
    CanonIsJson(PlanValue(p));
    CanonIsJson(PlanValue(q));
    CanonDecidesEquivalence(PlanValue(p), PlanValue(q));
    SamePlanIsEquivalence(p, q);
    if CanonicalPlanJson(p) == CanonicalPlanJson(q) {
      Json.PrintIsInjective(Canon(PlanValue(p)), Canon(PlanValue(q)), Json.Compact);
    }
  }

  /** Under a collision-free digest, the plan hash identifies the plan. */
  lemma HashIdentifiesPlan(sha: string -> string, p: Plan, q: Plan)
    requires CollisionFree(sha) && PlainPlan(p) && PlainPlan(q)
    ensures ComputePlanHash(sha, p) == ComputePlanHash(sha, q) <==> SamePlan(p, q)
  {
    CanonicalJsonIdentifiesPlan(p, q);
  }

  // ---------------------------------------------------------------------------
  // The stored form
  // ---------------------------------------------------------------------------

  /** The text of a plan file: indented, keys sorted. */
  function StoredText(plan: Plan): string {
    Json.Print(Canon(PlanValue(plan)), Json.Indented(0))
  }

  function Lookup(entries: seq<Entry>, key: string): Option<Value> {
    if entries == [] then None
    else if entries[0].key == key then Some(entries[0].value)
    else Lookup(entries[1..], key)
  }

  predicate KnownStepKeys(entries: seq<Entry>) {
    forall i :: 0 <= i < |entries| ==> entries[i].key in {"step_id", "tool", "capability", "args"}
  }

  /** `ToolStep(**data)`: the three required fields, optional args, nothing else. */
  function StepFromValue(v: Value): Option<ToolStep> {
    if !v.Dict? || !KnownStepKeys(v.entries) then None
    else
      match (Lookup(v.entries, "step_id"), Lookup(v.entries, "tool"), Lookup(v.entries, "capability"),
             Lookup(v.entries, "args"))
      case (Some(Int(id)), Some(Str(tool)), Some(Str(capability)), Some(Dict(args))) =>
        Some(ToolStep(id, tool, capability, args))
      case (Some(Int(id)), Some(Str(tool)), Some(Str(capability)), None) => Some(ToolStep(id, tool, capability, []))
      case _ => None
  }

  function StepsFromValues(items: seq<Value>): Option<seq<ToolStep>> {
    if items == [] then Some([])
    else
      match (StepFromValue(items[0]), StepsFromValues(items[1..]))
      case (Some(step), Some(rest)) => Some([step] + rest)
      case _ => None
  }

  /** A plan from loaded data; the metadata may be missing, the plan id must not be blank. */
  function PlanFromValue(v: Value): Option<Plan> {
    if !v.Dict? then None
    else
      match (Lookup(v.entries, "plan_id"), Lookup(v.entries, "steps"))
      case (Some(Str(id)), Some(List(items))) =>
        if IsBlank(id) || StepsFromValues(items).None? then None
        else
          var steps := StepsFromValues(items).value;
          (match Lookup(v.entries, "metadata")
           case Some(Dict(metadata)) => Some(Plan(id, steps, metadata))
           case None => Some(Plan(id, steps, []))
           case _ => None)
      case _ => None
  }

  function ReadPlan(text: string): Option<Plan> {
    match Json.Loads(text)
    case None => None
    case Some(v) => PlanFromValue(v)
  }

  function CanonStep(step: ToolStep): ToolStep {
    step.(args := SortEntries(CanonEntries(step.args)))
  }

  /** The plan with its values in canonical form. */
  function CanonPlan(plan: Plan): Plan {
    Plan(plan.planId, seq(|plan.steps|, i requires 0 <= i < |plan.steps| => CanonStep(plan.steps[i])),
         SortEntries(CanonEntries(plan.metadata)))
  }

  lemma {:induction false} LookupFinds(entries: seq<Entry>, e: Entry)
    requires DistinctKeys(entries) && e in entries
    ensures Lookup(entries, e.key) == Some(e.value)
  {
    if entries[0] != e {
      assert e in entries[1..];
      var j :| 0 <= j < |entries| && entries[j] == e;
      assert entries[0].key != entries[j].key;
      LookupFinds(entries[1..], e);
    }
  }

  /** Each key of a dictionary keeps its value, in canonical form. */
  lemma LookupInCanon(entries: seq<Entry>, i: nat)
    requires DistinctKeys(entries) && i < |entries|
    ensures Lookup(SortEntries(CanonEntries(entries)), entries[i].key) == Some(Canon(entries[i].value))
  {
    CanonEntriesDistinct(entries);
    SortedMembers(CanonEntries(entries));
    IncreasingKeysAreDistinct(SortEntries(CanonEntries(entries)));
    var e := CanonEntries(entries)[i];
    assert e in CanonEntries(entries);
    LookupFinds(SortEntries(CanonEntries(entries)), e);
  }

  lemma StepKeys(step: ToolStep)
    ensures var es := Canon(StepValue(step)).entries;
            && Lookup(es, "step_id") == Some(Int(step.stepId))
            && Lookup(es, "tool") == Some(Str(step.tool))
            && Lookup(es, "capability") == Some(Str(step.capability))
            && Lookup(es, "args") == Some(Canon(Dict(step.args)))
  {
    var es := StepValue(step).entries;
    LookupInCanon(es, 0);
    LookupInCanon(es, 1);
    LookupInCanon(es, 2);
    LookupInCanon(es, 3);
  }

  lemma StepKeysAreKnown(step: ToolStep)
    ensures KnownStepKeys(Canon(StepValue(step)).entries)
  {
    var ces := CanonEntries(StepValue(step).entries);
    var sorted := SortEntries(ces);
    SortedMembers(ces);
    forall k | 0 <= k < |sorted| ensures sorted[k].key in {"step_id", "tool", "capability", "args"} {
      assert sorted[k] in ces;
    }
  }

  lemma StepReadsBack(step: ToolStep)
    ensures StepFromValue(Canon(StepValue(step))) == Some(CanonStep(step))
  {
    StepKeys(step);
    StepKeysAreKnown(step);
  }

  lemma {:induction false} StepsReadBack(steps: seq<ToolStep>, items: seq<Value>)
    requires |items| == |steps| && forall i :: 0 <= i < |steps| ==> items[i] == Canon(StepValue(steps[i]))
    ensures StepsFromValues(items).Some? && |StepsFromValues(items).value| == |steps|
    ensures forall i :: 0 <= i < |steps| ==> StepsFromValues(items).value[i] == CanonStep(steps[i])
  {
    if steps != [] {
      StepReadsBack(steps[0]);
      StepsReadBack(steps[1..], items[1..]);
    }
  }

  /** The canonical data of a plan, key by key. */
  lemma PlanKeys(plan: Plan)
    ensures var es := Canon(PlanValue(plan)).entries;
            && Lookup(es, "plan_id") == Some(Str(plan.planId))
            && Lookup(es, "steps") == Some(Canon(PlanValue(plan).entries[1].value))
            && Lookup(es, "metadata") == Some(Canon(Dict(plan.metadata)))
  {
    var es := PlanValue(plan).entries;
    LookupInCanon(es, 0);
    LookupInCanon(es, 1);
    LookupInCanon(es, 2);
  }

  lemma PlanFromParts(v: Value, id: string, items: seq<Value>, metadata: seq<Entry>)
    requires v.Dict? && !IsBlank(id) && StepsFromValues(items).Some?
    requires Lookup(v.entries, "plan_id") == Some(Str(id))
    requires Lookup(v.entries, "steps") == Some(List(items))
    requires Lookup(v.entries, "metadata") == Some(Dict(metadata))
    ensures PlanFromValue(v) == Some(Plan(id, StepsFromValues(items).value, metadata))
  {
  }

  lemma PlanReadsBack(plan: Plan)
    requires !IsBlank(plan.planId)
    ensures PlanFromValue(Canon(PlanValue(plan))) == Some(CanonPlan(plan))
  {
    var v := PlanValue(plan).entries[1].value;
    CanonItems(v);
    var items := Canon(v).items;
    StepsReadBack(plan.steps, items);
    assert StepsFromValues(items).value == CanonPlan(plan).steps;
    PlanKeys(plan);
    PlanFromParts(Canon(PlanValue(plan)), plan.planId, items, CanonPlan(plan).metadata);
  }

  lemma {:induction false} CanonIsIdempotent(v: Value)
    requires PlainValue(v)
    ensures PlainValue(Canon(v)) && Canon(Canon(v)) == Canon(v)
  {
    match v
    case List(items) => CanonItemsIdempotent(v);
    case Tuple(items) => CanonItemsIdempotent(v);
    case Dict(entries) =>
      var ces := CanonEntries(entries);
      var sorted := SortEntries(ces);
      CanonEntriesDistinct(entries);
      IncreasingKeysAreDistinct(sorted);
      SortedMembers(ces);
      forall i | 0 <= i < |entries| ensures PlainValue(ces[i].value) && Canon(ces[i].value) == ces[i].value {
        CanonIsIdempotent(entries[i].value);
      }
      forall k | 0 <= k < |sorted| ensures PlainValue(sorted[k].value) && Canon(sorted[k].value) == sorted[k].value {
        assert sorted[k] in ces;
      }
      assert CanonEntries(sorted) == sorted;
      SortedMembers(sorted);
      SortIncreases(sorted);
      SortedEntriesAreUnique(SortEntries(sorted), sorted);
    case _ =>
  }

  lemma {:induction false} CanonItemsIdempotent(v: Value)
    requires IsSequence(v) && PlainValue(v)
    ensures PlainValue(Canon(v)) && Canon(Canon(v)) == Canon(v)
    decreases v, 0
  {
    forall i | 0 <= i < |v.items| ensures PlainValue(Canon(v.items[i])) &&
        Canon(Canon(v.items[i])) == Canon(v.items[i]) {
      CanonIsIdempotent(v.items[i]);
    }
    CanonItems(v);
    CanonItems(Canon(v));
    assert Canon(Canon(v)).items == Canon(v).items;
  }

  lemma DictEquivalentToCanon(entries: seq<Entry>)
    requires PlainEntries(entries)
    ensures PlainEntries(SortEntries(CanonEntries(entries)))
    ensures Equivalent(Dict(entries), Dict(SortEntries(CanonEntries(entries))))
  {
    CanonIsIdempotent(Dict(entries));
    CanonDecidesEquivalence(Dict(entries), Canon(Dict(entries)));
  }

  /** Storing a plan and loading it again gives the same plan, with the same hash under every digest. */
  lemma StoredPlanReloads(sha: string -> string, plan: Plan)
    requires PlainPlan(plan) && !IsBlank(plan.planId)
    ensures ReadPlan(StoredText(plan)) == Some(CanonPlan(plan))
    ensures SamePlan(plan, CanonPlan(plan)) && ComputePlanHash(sha, CanonPlan(plan)) == ComputePlanHash(sha, plan)
  {
    PlanValueIsPlain(plan);
    CanonIsJson(PlanValue(plan));
    Json.LoadsPrinted(Canon(PlanValue(plan)), Json.Indented(0));
    PlanReadsBack(plan);
    DictEquivalentToCanon(plan.metadata);
    forall i | 0 <= i < |plan.steps|
      ensures SameStep(plan.steps[i], CanonPlan(plan).steps[i]) && PlainEntries(CanonPlan(plan).steps[i].args)
    {
      DictEquivalentToCanon(plan.steps[i].args);
    }
    CanonicalJsonIdentifiesPlan(plan, CanonPlan(plan));
  }

  // ---------------------------------------------------------------------------
  // Reading other plan files
  // ---------------------------------------------------------------------------

  /** A stored step has its three required fields and no unknown one; missing arguments are none. */
  lemma StepReads(v: Value, step: ToolStep)
    ensures StepFromValue(v) == Some(step) <==>
            && v.Dict?
            && (forall i :: 0 <= i < |v.entries| ==>
                  v.entries[i].key == "step_id" || v.entries[i].key == "tool" || v.entries[i].key == "capability"
                  || v.entries[i].key == "args")
            && Lookup(v.entries, "step_id") == Some(Int(step.stepId))
            && Lookup(v.entries, "tool") == Some(Str(step.tool))
            && Lookup(v.entries, "capability") == Some(Str(step.capability))
            && (Lookup(v.entries, "args") == Some(Dict(step.args))
                || (Lookup(v.entries, "args") == None && step.args == []))
  {
  }

  lemma {:induction false} StepsRead(items: seq<Value>, steps: seq<ToolStep>)
    ensures StepsFromValues(items) == Some(steps) <==>
            |items| == |steps| && forall i :: 0 <= i < |items| ==> StepFromValue(items[i]) == Some(steps[i])
  {
    if items != [] && steps != [] {
      StepsRead(items[1..], steps[1..]);
      assert steps == [steps[0]] + steps[1..];
    }
  }

  /** A stored plan has a non-blank id and a list of steps; missing metadata is none, other keys are ignored. */
  lemma PlanReads(v: Value, plan: Plan)
    ensures PlanFromValue(v) == Some(plan) <==>
            && v.Dict? && !IsBlank(plan.planId)
            && Lookup(v.entries, "plan_id") == Some(Str(plan.planId))
            && (exists items ::
                  Lookup(v.entries, "steps") == Some(List(items)) && StepsFromValues(items) == Some(plan.steps))
            && (Lookup(v.entries, "metadata") == Some(Dict(plan.metadata))
                || (Lookup(v.entries, "metadata") == None && plan.metadata == []))
  {
  }
}
