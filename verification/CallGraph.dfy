/** Impact propagation over the static call graph: from changed functions back to the tests that reach them. */
module CallGraph {

  import opened Wrappers
  import opened Text
  import opened Paths
  import opened ArtifactId
  import opened Ordering

  /** `caller` contains a static call of `callee`. */
  datatype Edge = Edge(caller: string, callee: string)

  datatype FileNode = FileNode(path: string, tests: seq<string>, calls: seq<Edge>)

  type Graph = seq<FileNode>

  const NOT_A_FUNCTION := "requires FUNC artifact"

  // ---------------------------------------------------------------------------
  // Edges and functions
  // ---------------------------------------------------------------------------

  ghost predicate Calls(graph: Graph, caller: string, callee: string) {
    exists node, e :: node in graph && e in node.calls && e.caller == caller && e.callee == callee
  }

  /** The text of a FUNC id, or nothing for any other text. */
  predicate IsFunction(f: string) {
    Parse(f).Some? && Parse(f).value.kind == "FUNC"
  }

  predicate IsTest(t: string) {
    Parse(t).Some? && Parse(t).value.kind == "TEST"
  }

  /** All call edges are between FUNC ids, and all tests are TEST ids. */
  ghost predicate WellFormed(graph: Graph) {
    && (forall caller, callee :: Calls(graph, caller, callee) ==> IsFunction(caller) && IsFunction(callee))
    && (forall node, t :: node in graph && t in node.tests ==> IsTest(t))
  }

  /** `calls_from` or `called_by` on one file's edges. */
  function CallersIn(edges: seq<Edge>, callee: string): (r: seq<string>)
    ensures forall c :: c in r <==> Edge(c, callee) in edges
  {
    if edges == [] then []
    else (if edges[0].callee == callee then [edges[0].caller] else []) + CallersIn(edges[1..], callee)
  }

  function AllCallers(graph: Graph, callee: string): (r: seq<string>)
    ensures forall c :: c in r <==> Calls(graph, c, callee)
  {
    if graph == [] then []
    else
      var rest := AllCallers(graph[1..], callee);
      CallsSplit(graph, callee);
      CallersIn(graph[0].calls, callee) + rest
  }

  lemma CallsSplit(graph: Graph, callee: string)
    requires graph != []
    ensures forall c :: Calls(graph, c, callee) <==> Edge(c, callee) in graph[0].calls || Calls(graph[1..], c, callee)
  {
    forall c ensures Calls(graph, c, callee) <==> Edge(c, callee) in graph[0].calls || Calls(graph[1..], c, callee) {
      if Edge(c, callee) in graph[0].calls {
        assert graph[0] in graph;
      }
      if Calls(graph[1..], c, callee) {
        var node, e :| node in graph[1..] && e in node.calls && e.caller == c && e.callee == callee;
        assert node in graph;
      }
      if Calls(graph, c, callee) {
        var node, e :| node in graph && e in node.calls && e.caller == c && e.callee == callee;
        assert e == Edge(c, callee);
        assert node == graph[0] || node in graph[1..];
      }
    }
  }

  /** `called_by`: the direct callers of a function, sorted and without duplicates. */
  function CalledBy(graph: Graph, f: string): (r: Result<seq<string>, string>)
    ensures r.Success? <==> IsFunction(f)
    ensures r.Success? ==> StrictlySorted(r.value) && forall c :: c in r.value <==> Calls(graph, c, f)
  {
    if !IsFunction(f) then Failure(NOT_A_FUNCTION) else Success(SortedDistinct(AllCallers(graph, f)))
  }

  // ---------------------------------------------------------------------------
  // Reachability
  // ---------------------------------------------------------------------------

  /** A chain of calls, each element calling the next. */
  ghost predicate IsChain(graph: Graph, chain: seq<string>) {
    |chain| > 0 && forall i :: 0 <= i < |chain| - 1 ==> Calls(graph, chain[i], chain[i + 1])
  }

  /** `f` reaches `g` by zero or more calls. */
  ghost predicate Reaches(graph: Graph, f: string, g: string) {
    exists chain :: IsChain(graph, chain) && chain[0] == f && chain[|chain| - 1] == g
  }

  ghost predicate ReachesAny(graph: Graph, f: string, changed: seq<string>) {
    exists g :: g in changed && Reaches(graph, f, g)
  }

  lemma ReachesItself(graph: Graph, f: string)
    ensures Reaches(graph, f, f)
  {
    assert IsChain(graph, [f]);
  }

  lemma CallerReaches(graph: Graph, caller: string, f: string, changed: seq<string>)
    requires Calls(graph, caller, f) && ReachesAny(graph, f, changed)
    ensures ReachesAny(graph, caller, changed)
  {
    var g :| g in changed && Reaches(graph, f, g);
    var chain :| IsChain(graph, chain) && chain[0] == f && chain[|chain| - 1] == g;
    var longer := [caller] + chain;
    forall i | 0 <= i < |longer| - 1 ensures Calls(graph, longer[i], longer[i + 1]) {
      if i > 0 {
        assert longer[i] == chain[i - 1] && longer[i + 1] == chain[i - 1 + 1];
      }
    }
    assert IsChain(graph, longer);
    assert Reaches(graph, caller, g);
  }

  ghost predicate ClosedUnderCallers(graph: Graph, s: set<string>) {
    forall caller, f :: f in s && Calls(graph, caller, f) ==> caller in s
  }

  /** A set closed under callers that holds the end of a chain holds its start. */
  lemma {:induction false} ClosedSetHoldsChain(graph: Graph, s: set<string>, chain: seq<string>)
    requires ClosedUnderCallers(graph, s) && IsChain(graph, chain) && chain[|chain| - 1] in s
    ensures chain[0] in s
    decreases |chain|
  {
    if |chain| > 1 {
      var tail := chain[1..];
      forall i | 0 <= i < |tail| - 1 ensures Calls(graph, tail[i], tail[i + 1]) {
        assert Calls(graph, chain[i + 1], chain[i + 1 + 1]);
      }
      ClosedSetHoldsChain(graph, s, tail);
      assert Calls(graph, chain[0], chain[0 + 1]);
    }
  }

  lemma ClosedSetHoldsReachers(graph: Graph, s: set<string>, changed: seq<string>)
    requires ClosedUnderCallers(graph, s) && forall g :: g in changed ==> g in s
    ensures forall f :: ReachesAny(graph, f, changed) ==> f in s
  {
    forall f | ReachesAny(graph, f, changed) ensures f in s {
      var g :| g in changed && Reaches(graph, f, g);
      var chain :| IsChain(graph, chain) && chain[0] == f && chain[|chain| - 1] == g;
      ClosedSetHoldsChain(graph, s, chain);
    }
  }

  // ---------------------------------------------------------------------------
  // The worklist
  // ---------------------------------------------------------------------------

  /** Every function the worklist can ever meet. */
  function Universe(graph: Graph, changed: seq<string>): (s: set<string>)
    ensures forall f :: f in changed ==> f in s
    ensures forall caller, f :: Calls(graph, caller, f) ==> caller in s
  {
    (set f | f in changed) + set node, e | node in graph && e in node.calls :: e.caller
  }

  /** Everything on the worklist or done reaches a changed function. */
  ghost predicate Sound(graph: Graph, changed: seq<string>, impacted: set<string>, pending: seq<string>) {
    && (forall f :: f in impacted ==> ReachesAny(graph, f, changed))
    && (forall f :: f in pending ==> ReachesAny(graph, f, changed))
  }

  /** Nothing is forgotten: changed functions and callers of done functions are done or on the worklist. */
  ghost predicate Complete(graph: Graph, changed: seq<string>, impacted: set<string>, pending: seq<string>) {
    && (forall g :: g in changed ==> g in impacted || g in pending)
    && (forall caller, f :: f in impacted && Calls(graph, caller, f) ==> caller in impacted || caller in pending)
  }

  function NotIn(items: seq<string>, s: set<string>): (r: seq<string>)
    ensures forall x :: x in r <==> x in items && x !in s
  {
    if items == [] then [] else (if items[0] in s then [] else [items[0]]) + NotIn(items[1..], s)
  }

  ghost predicate WithinUniverse(graph: Graph, changed: seq<string>, impacted: set<string>, pending: seq<string>) {
    impacted <= Universe(graph, changed) && forall f :: f in pending ==> f in Universe(graph, changed)
  }

  ghost predicate WorklistHolds(graph: Graph, changed: seq<string>, impacted: set<string>, pending: seq<string>) {
    && WithinUniverse(graph, changed, impacted, pending)
    && Sound(graph, changed, impacted, pending)
    && Complete(graph, changed, impacted, pending)
  }

  lemma WorklistStarts(graph: Graph, changed: seq<string>)
    ensures WorklistHolds(graph, changed, {}, changed)
  {
    forall g | g in changed ensures ReachesAny(graph, g, changed) {
      ReachesItself(graph, g);
    }
  }

  lemma WorklistSkips(graph: Graph, changed: seq<string>, impacted: set<string>, pending: seq<string>)
    requires pending != [] && pending[0] in impacted && WorklistHolds(graph, changed, impacted, pending)
    ensures WorklistHolds(graph, changed, impacted, pending[1..])
  {
    assert forall f :: f in pending <==> f == pending[0] || f in pending[1..];
  }

  lemma WorklistTakes(graph: Graph, changed: seq<string>, impacted: set<string>, pending: seq<string>,
                      callers: seq<string>)
    requires pending != [] && WorklistHolds(graph, changed, impacted, pending)
    requires forall c :: c in callers <==> Calls(graph, c, pending[0])
    ensures WorklistHolds(graph, changed, impacted + {pending[0]},
        pending[1..] + NotIn(callers, impacted + {pending[0]}))
  {
    var current := pending[0];
    assert forall f :: f in pending <==> f == current || f in pending[1..];
    forall c | Calls(graph, c, current) ensures ReachesAny(graph, c, changed) {
      CallerReaches(graph, c, current, changed);
    }
  }

  predicate AllFunctions(items: seq<string>) {
    forall f :: f in items ==> IsFunction(f)
  }

  /** Every id given must name a function. */
  method RequireFunctions(changed: seq<string>) returns (ok: bool)
    ensures ok <==> AllFunctions(changed)
  {
    for k := 0 to |changed|
      invariant AllFunctions(changed[..k])
    {
      if !IsFunction(changed[k]) {
        assert changed[k] in changed;
        return false;
      }
      assert changed[..k + 1] == changed[..k] + [changed[k]];
    }
    assert changed[..|changed|] == changed;
    ok := true;
  }

  /** On a well-formed graph the worklist holds function ids only. */
  ghost predicate PendingNamed(graph: Graph, pending: seq<string>) {
    WellFormed(graph) ==> AllFunctions(pending)
  }

  lemma NamesStay(graph: Graph, f: string, callers: seq<string>, pending: seq<string>, impacted: set<string>)
    requires PendingNamed(graph, pending) && pending != []
    requires forall c :: c in callers <==> Calls(graph, c, f)
    ensures PendingNamed(graph, pending[1..]) && PendingNamed(graph, pending[1..] + NotIn(callers, impacted))
  {
  }

  /** The reverse-call worklist computes exactly reverse reachability, on any graph, cycles included. */
  method ImpactedFunctions(graph: Graph, changed: seq<string>) returns (r: Result<set<string>, string>)
    ensures r.Success? ==> forall f :: f in r.value <==> ReachesAny(graph, f, changed)
    ensures !AllFunctions(changed) ==> r.Failure?
    ensures WellFormed(graph) && AllFunctions(changed) ==> r.Success?
  {
    var ok := RequireFunctions(changed);
    if !ok {
      return Failure(NOT_A_FUNCTION);
    }
    var pending := changed;
    var impacted: set<string> := {};
    WorklistStarts(graph, changed);
    while pending != []
      invariant WorklistHolds(graph, changed, impacted, pending)
      invariant PendingNamed(graph, pending)
      decreases Universe(graph, changed) - impacted, |pending|
    {
      var current := pending[0];
      if current in impacted {
        assert PendingNamed(graph, pending[1..]);
        WorklistSkips(graph, changed, impacted, pending);
        pending := pending[1..];
        continue;
      }
      assert current in pending;
      var callers := CalledBy(graph, current);
      if callers.Failure? {
        return Failure(NOT_A_FUNCTION);
      }
      WorklistTakes(graph, changed, impacted, pending, callers.value);
      NamesStay(graph, current, callers.value, pending, impacted + {current});
      impacted := impacted + {current};
      pending := pending[1..] + NotIn(callers.value, impacted);
    }
    ClosedSetHoldsReachers(graph, impacted, changed);
    r := Success(impacted);
  }

  // ---------------------------------------------------------------------------
  // Impacted tests
  // ---------------------------------------------------------------------------

  /** `s.replace(old, new, 1)`. */
  function ReplaceFirst(s: string, old': string, new': string): string {
    var i := FindFrom(s, old', 0);
    if i == -1 then s else s[..i] + new' + s[i + |old'|..]
  }

  const TEST_PREFIX := "TEST::"
  const FUNC_PREFIX := "FUNC::"

  /** The function id of a test id. */
  function FunctionOf(test: string): string {
    ReplaceFirst(test, TEST_PREFIX, FUNC_PREFIX)
  }

  /** For a TEST id the replacement hits the kind: the counterpart names the same path and symbol. */
  lemma CounterpartOfTest(a: ArtifactID)
    requires Valid(a) && a.kind == "TEST"
    ensures FunctionOf(ToString(a)) == ToString(a.(kind := "FUNC"))
  {
    var s := ToString(a);
    var tail := a.path + SEP + a.symbol.value;
    assert s == TEST_PREFIX + tail && ToString(a.(kind := "FUNC")) == FUNC_PREFIX + tail;
    assert s[..6] == TEST_PREFIX && s[6..] == tail;
    FindFromSkipsNothing(s, TEST_PREFIX, 0, 0);
  }

  ghost predicate IsTestOf(graph: Graph, t: string) {
    exists node :: node in graph && t in node.tests
  }

  ghost predicate IsImpactedTest(graph: Graph, changed: seq<string>, t: string) {
    IsTestOf(graph, t) && ReachesAny(graph, FunctionOf(t), changed)
  }

  /** The selected tests are exactly those whose function reaches a change, sorted and without duplicates. */
  method ImpactedTests(graph: Graph, changed: seq<string>) returns (r: Result<seq<string>, string>)
    ensures r.Success? ==> StrictlySorted(r.value) && forall t :: t in r.value <==> IsImpactedTest(graph, changed, t)
    ensures !AllFunctions(changed) ==> r.Failure?
    ensures WellFormed(graph) && AllFunctions(changed) ==> r.Success?
  {
    var impacted := ImpactedFunctions(graph, changed);
    if impacted.Failure? {
      return Failure(impacted.error);
    }
    if impacted.value == {} {
      return Success([]);
    }
    var selected: seq<string> := [];
    var i := 0;
    while i < |graph|
      invariant 0 <= i <= |graph|
      invariant forall t :: t in selected <==> IsTestOf(graph[..i], t) && FunctionOf(t) in impacted.value
    {
      var here := TestsIn(graph[i].tests, impacted.value);
      InOneMoreFile(graph, i);
      selected := selected + here;
      i := i + 1;
    }
    assert graph[..i] == graph;
    r := Success(SortedDistinct(selected));
  }

  lemma InOneMoreFile(graph: Graph, i: nat)
    requires i < |graph|
    ensures forall t :: IsTestOf(graph[..i + 1], t) <==> IsTestOf(graph[..i], t) || t in graph[i].tests
  {
    assert graph[..i + 1] == graph[..i] + [graph[i]];
    assert graph[i] in graph[..i + 1];
    forall t | IsTestOf(graph[..i], t) ensures IsTestOf(graph[..i + 1], t) {
      var node :| node in graph[..i] && t in node.tests;
      assert node in graph[..i + 1];
    }
  }

  method TestsIn(tests: seq<string>, impacted: set<string>) returns (selected: seq<string>)
    ensures forall t :: t in selected <==> t in tests && FunctionOf(t) in impacted
  {
    selected := [];
    for k := 0 to |tests|
      invariant forall t :: t in selected <==> t in tests[..k] && FunctionOf(t) in impacted
    {
      assert tests[..k + 1] == tests[..k] + [tests[k]];
      if FunctionOf(tests[k]) in impacted {
        selected := selected + [tests[k]];
      }
    }
    assert tests[..|tests|] == tests;
  }

  /** The text of a valid id that can be told from its text. */
  predicate IsTextOf(id: string, a: ArtifactID) {
    Valid(a) && Printable(a) && id == ToString(a)
  }

  /** A function id is the text of a FUNC artifact, a test id that of a TEST artifact. */
  lemma IdsMean(id: string)
    ensures IsFunction(id) <==> exists a: ArtifactID :: a.kind == "FUNC" && IsTextOf(id, a)
    ensures IsTest(id) <==> exists a: ArtifactID :: a.kind == "TEST" && IsTextOf(id, a)
  {
    if Parse(id).Some? {
      ParsedExactly(id, Parse(id).value);
    }
    forall a ensures Parse(id) == Some(a) <==> IsTextOf(id, a) {
      ParsedExactly(id, a);
    }
  }
}
