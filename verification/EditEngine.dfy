/** The exact-text edit engine: greedy matching, the choice of an occurrence, and the fold over an edit list. */
module EditEngine {

  import opened Wrappers
  import opened Text

  datatype Edit = Edit(oldText: string, newText: string, occurrence: Option<int>)

  datatype EditError =
    | EmptyOldText(index: nat)
    | OldTextNotFound(index: nat)
    | AmbiguousMatch(index: nat)
    | OccurrenceOutOfRange(index: nat)

  type EditResult = Result<string, EditError>

  // ---------------------------------------------------------------------------
  // Greedy matching
  // ---------------------------------------------------------------------------

  /** The positions found by searching again just past each match. */
  function GreedyFrom(content: string, pattern: string, start: nat): (positions: seq<nat>)
    requires pattern != ""
    decreases |content| - start
  {
    var p := FindFrom(content, pattern, start);
    if p == -1 then [] else [p] + GreedyFrom(content, pattern, p + |pattern|)
  }

  function Greedy(content: string, pattern: string): seq<nat>
    requires pattern != ""
  {
    GreedyFrom(content, pattern, 0)
  }

  /** Each position leaves room for `width` characters before the next one. */
  ghost predicate Spaced(positions: seq<nat>, width: nat) {
    forall i, j :: 0 <= i < j < |positions| ==> positions[i] + width <= positions[j]
  }

  /** `q` lies after the end of the previous chosen match and before the next one. */
  ghost predicate InGap(pattern: string, positions: seq<nat>, start: nat, q: nat) {
    start <= q && forall p :: p in positions ==> q < p || p + |pattern| <= q
  }

  /** Every chosen position is a match at or after `start`. */
  lemma {:induction false} GreedyMatches(content: string, pattern: string, start: nat)
    requires pattern != ""
    ensures forall p :: p in GreedyFrom(content, pattern, start) ==> start <= p && MatchAt(content, pattern, p)
    decreases |content| - start
  {
    var p := FindFrom(content, pattern, start);
    if p != -1 {
      FindFromMatches(content, pattern, start);
      GreedyMatches(content, pattern, p + |pattern|);
    }
  }

  lemma SpacedCons(p: nat, rest: seq<nat>, width: nat)
    requires Spaced(rest, width)
    requires forall q :: q in rest ==> p + width <= q
    ensures Spaced([p] + rest, width)
  {
    var all := [p] + rest;
    forall i, j | 0 <= i < j < |all| ensures all[i] + width <= all[j] {
      assert all[j] == rest[j - 1] && rest[j - 1] in rest;
    }
  }

  /** The chosen positions increase without overlapping. */
  lemma {:induction false} GreedyIsSpaced(content: string, pattern: string, start: nat)
    requires pattern != ""
    ensures Spaced(GreedyFrom(content, pattern, start), |pattern|)
    decreases |content| - start
  {
    var p := FindFrom(content, pattern, start);
    if p != -1 {
      var next := p + |pattern|;
      GreedyIsSpaced(content, pattern, next);
      GreedyMatches(content, pattern, next);
      SpacedCons(p, GreedyFrom(content, pattern, next), |pattern|);
    }
  }

  /** No match starts in a gap between chosen positions or after the last one. */
  lemma {:induction false} GreedySkipsNothing(content: string, pattern: string, start: nat, q: nat)
    requires pattern != ""
    requires InGap(pattern, GreedyFrom(content, pattern, start), start, q)
    ensures !MatchAt(content, pattern, q)
    decreases |content| - start
  {
    if MatchAt(content, pattern, q) {
      FindFromSkipsNothing(content, pattern, start, q);
      var p := FindFrom(content, pattern, start);
      var next := p + |pattern|;
      var all, rest := GreedyFrom(content, pattern, start), GreedyFrom(content, pattern, next);
      assert p in all;
      forall r | r in rest ensures q < r || r + |pattern| <= q {
        assert r in all;
      }
      GreedySkipsNothing(content, pattern, next, q);
    }
  }

  /** A set of occurrences no two of which overlap. */
  ghost predicate IndependentMatches(content: string, pattern: string, family: set<nat>, start: nat) {
    && (forall p :: p in family ==> start <= p && MatchAt(content, pattern, p))
    && (forall p, q :: p in family && q in family && p < q ==> p + |pattern| <= q)
  }

  /** No family of pairwise non-overlapping occurrences is larger than the greedy one. */
  lemma {:induction false} GreedyIsMaximum(content: string, pattern: string, start: nat, family: set<nat>)
    requires pattern != ""
    requires IndependentMatches(content, pattern, family, start)
    ensures |family| <= |GreedyFrom(content, pattern, start)|
    decreases |content| - start
  {
    var p := FindFrom(content, pattern, start);
    forall q | q in family ensures p != -1 && p <= q {
      FindFromSkipsNothing(content, pattern, start, q);
    }
    if p == -1 {
      assert family == {};
    } else {
      var far := BeyondFirst(family, p, |pattern|);
      GreedyIsMaximum(content, pattern, p + |pattern|, far);
    }
  }

  /** Of spaced positions from `p` on, at most one starts within the first `width` characters. */
  lemma BeyondFirst(family: set<nat>, p: nat, width: nat) returns (far: set<nat>)
    requires forall q :: q in family ==> p <= q
    requires forall q, r :: q in family && r in family && q < r ==> q + width <= r
    ensures far <= family && (forall q :: q in far ==> p + width <= q)
    ensures |family| <= 1 + |far|
  {
    var near := set q | q in family && q < p + width;
    far := family - near;
    assert family == near + far;
    if near != {} {
      var q :| q in near;
      forall r | r in near ensures r == q {
        assert !(q < r) && !(r < q);
      }
      assert near == {q};
    }
  }

  function Elements(s: seq<nat>): set<nat> {
    set p | p in s
  }

  /** The greedy positions as a family: they attain the maximum above. */
  lemma GreedyAttainsMaximum(content: string, pattern: string)
    requires pattern != ""
    ensures IndependentMatches(content, pattern, Elements(Greedy(content, pattern)), 0)
    ensures |Elements(Greedy(content, pattern))| == |Greedy(content, pattern)|
  {
    GreedyMatches(content, pattern, 0);
    GreedyIsSpaced(content, pattern, 0);
    var positions := Greedy(content, pattern);
    SpacedElements(positions, |pattern|);
    forall p, q | p in positions && q in positions && p < q ensures p + |pattern| <= q {
      SpacedPairs(positions, |pattern|, p, q);
    }
  }

  lemma {:induction false} SpacedElements(s: seq<nat>, width: nat)
    requires width > 0 && Spaced(s, width)
    ensures |Elements(s)| == |s|
  {
    if s != [] {
      SpacedElements(s[1..], width);
      assert Elements(s) == {s[0]} + Elements(s[1..]);
      assert s[0] !in s[1..];
    }
  }

  lemma SpacedPairs(s: seq<nat>, width: nat, p: nat, q: nat)
    requires Spaced(s, width) && p in s && q in s && p < q
    ensures p + width <= q
  {
    var i :| 0 <= i < |s| && s[i] == p;
    var j :| 0 <= j < |s| && s[j] == q;
    assert i < j || j < i;
  }

  // ---------------------------------------------------------------------------
  // Overlaps: when one greedy match means one occurrence
  // ---------------------------------------------------------------------------

  /** A proper border: a non-empty proper suffix that is also a prefix; shifting by `k` overlaps `s` with itself. */
  predicate BorderAt(s: string, k: int) {
    0 < k < |s| && s[k..] == s[..|s| - k]
  }

  ghost predicate BorderFree(s: string) {
    forall k :: !BorderAt(s, k)
  }

  /** Two overlapping occurrences expose a border. */
  lemma OverlapGivesBorder(content: string, pattern: string, p: nat, q: nat)
    requires MatchAt(content, pattern, p) && MatchAt(content, pattern, q)
    requires p < q < p + |pattern|
    ensures BorderAt(pattern, q - p)
  {
    var k := q - p;
    var window := content[q..p + |pattern|];
    assert pattern[k..] == content[p..p + |pattern|][k..] == window;
    assert pattern[..|pattern| - k] == content[q..q + |pattern|][..|pattern| - k] == window;
  }

  /** With a border-free pattern the greedy list is the list of all occurrences. */
  lemma GreedyFindsAllWhenBorderFree(content: string, pattern: string, q: nat)
    requires pattern != "" && BorderFree(pattern) && MatchAt(content, pattern, q)
    ensures q in Greedy(content, pattern)
  {
    var ps := Greedy(content, pattern);
    GreedyMatches(content, pattern, 0);
    if InGap(pattern, ps, 0, q) {
      GreedySkipsNothing(content, pattern, 0, q);
    } else {
      var p :| p in ps && p <= q < p + |pattern|;
      if p < q {
        OverlapGivesBorder(content, pattern, p, q);
      }
    }
  }

  /** A pattern with a border overlaps itself in a text where the greedy scan sees a single match. */
  lemma BorderDefeatsUniqueness(pattern: string, k: int)
    requires BorderAt(pattern, k)
    ensures var content := pattern[..k] + pattern;
            |Greedy(content, pattern)| == 1 && MatchAt(content, pattern, 0) && MatchAt(content, pattern, k)
  {
    var content := pattern[..k] + pattern;
    assert content[..|pattern|] == pattern[..k] + pattern[..|pattern| - k] == pattern[..k] + pattern[k..] == pattern;
    assert content[k..k + |pattern|] == pattern;
    assert FindFrom(content, pattern, 0) == 0;
    assert FindFrom(content, pattern, |pattern|) == -1;
    assert GreedyFrom(content, pattern, |pattern|) == [];
  }

  ghost predicate SingleMatchMeansSingleOccurrence(pattern: string)
    requires pattern != ""
  {
    forall content, p: nat, q: nat ::
      |Greedy(content, pattern)| == 1 && MatchAt(content, pattern, p) && MatchAt(content, pattern, q) ==> p == q
  }

  /** The ambiguity test detects every ambiguous target exactly for patterns without a proper border. */
  lemma AmbiguityTestIsExact(pattern: string)
    requires pattern != ""
    ensures SingleMatchMeansSingleOccurrence(pattern) <==> BorderFree(pattern)
  {
    if BorderFree(pattern) {
      forall content, p: nat, q: nat |
        |Greedy(content, pattern)| == 1 && MatchAt(content, pattern, p) && MatchAt(content, pattern, q)
        ensures p == q
      {
        GreedyFindsAllWhenBorderFree(content, pattern, p);
        GreedyFindsAllWhenBorderFree(content, pattern, q);
      }
    } else {
      var k :| BorderAt(pattern, k);
      BorderDefeatsUniqueness(pattern, k);
      var shift: nat, origin: nat := k, 0;
      assert MatchAt(pattern[..k] + pattern, pattern, origin) && MatchAt(pattern[..k] + pattern, pattern, shift);
    }
  }

  // ---------------------------------------------------------------------------
  // One edit
  // ---------------------------------------------------------------------------

  function ReplaceAt(content: string, at: nat, length: nat, newText: string): string
    requires at + length <= |content|
  {
    content[..at] + newText + content[at + length..]
  }

  /** The position an edit applies to, given the greedy positions. */
  function Choose(positions: seq<nat>, occurrence: Option<int>, index: nat): (r: Result<nat, EditError>)
  {
    if |positions| == 0 then Failure(OldTextNotFound(index))
    else match occurrence
      case None => if |positions| != 1 then Failure(AmbiguousMatch(index)) else Success(positions[0])
      case Some(n) =>
        if n < 1 || n > |positions| then Failure(OccurrenceOutOfRange(index)) else Success(positions[n - 1])
  }

  function SingleEdit(content: string, edit: Edit, index: nat): (r: EditResult)
  {
    if edit.oldText == edit.newText then Success(content)
    else if edit.oldText == "" then Failure(EmptyOldText(index))
    else
      var positions := Greedy(content, edit.oldText);
      match Choose(positions, edit.occurrence, index)
      case Failure(e) => Failure(e)
      case Success(at) =>
        GreedyMatches(content, edit.oldText, 0);
        assert at in positions;
        Success(ReplaceAt(content, at, |edit.oldText|, edit.newText))
  }

  /** The search loop that grows `positions`, each search starting just past the previous match. */
  method ScanPositions(content: string, pattern: string) returns (positions: seq<nat>)
    requires pattern != ""
    ensures positions == Greedy(content, pattern)
  {
    positions := [];
    var start := 0;
    while true
      invariant 0 <= start <= |content|
      invariant Greedy(content, pattern) == positions + GreedyFrom(content, pattern, start)
      decreases |content| - start
    {
      var pos := FindFrom(content, pattern, start);
      if pos == -1 {
        return;
      }
      ghost var rest := GreedyFrom(content, pattern, pos + |pattern|);
      assert positions + ([pos] + rest) == positions + [pos] + rest;
      positions := positions + [pos];
      start := pos + |pattern|;
    }
  }

  /** One edit: scan, choose, splice. */
  method ApplySingleEdit(content: string, edit: Edit, index: nat) returns (r: EditResult)
    ensures r == SingleEdit(content, edit, index)
  {
    if edit.oldText == edit.newText {
      return Success(content);
    }
    if edit.oldText == "" {
      return Failure(EmptyOldText(index));
    }
    var positions := ScanPositions(content, edit.oldText);
    if |positions| == 0 {
      return Failure(OldTextNotFound(index));
    }
    var chosen;
    match edit.occurrence {
      case None =>
        if |positions| != 1 {
          return Failure(AmbiguousMatch(index));
        }
        chosen := positions[0];
      case Some(n) =>
        if n < 1 || n > |positions| {
          return Failure(OccurrenceOutOfRange(index));
        }
        chosen := positions[n - 1];
    }
    GreedyMatches(content, edit.oldText, 0);
    assert chosen in positions;
    var end := chosen + |edit.oldText|;
    r := Success(content[..chosen] + edit.newText + content[end..]);
  }

  /** An edit that would change nothing succeeds on any content, matching or not. */
  lemma NoOpEditNeedsNoMatch(content: string, text: string, occurrence: Option<int>, index: nat)
    ensures SingleEdit(content, Edit(text, text, occurrence), index) == Success(content)
  {
  }

  /** A real edit is accepted exactly when the requested match exists, and it replaces that match and nothing else. */
  lemma RealEditReplacesChosenMatch(content: string, edit: Edit, index: nat)
    requires edit.oldText != edit.newText
    ensures SingleEdit(content, edit, index).Success? <==>
            edit.oldText != "" &&
            var n := |Greedy(content, edit.oldText)|;
            if edit.occurrence.None? then n == 1 else 1 <= edit.occurrence.value <= n
    ensures SingleEdit(content, edit, index).Success? ==>
            exists at: nat ::
              && MatchAt(content, edit.oldText, at)
              && at == Greedy(content, edit.oldText)[if edit.occurrence.None? then 0 else edit.occurrence.value - 1]
              && SingleEdit(content, edit, index).value == content[..at] + edit.newText + content[at + |edit.oldText|..]
  {
    if edit.oldText != "" {
      GreedyMatches(content, edit.oldText, 0);
    }
  }

  /** A real edit accepted without `occurrence` on a border-free text hits its only occurrence. */
  lemma UnqualifiedEditIsUnambiguous(content: string, edit: Edit, index: nat, p: nat, q: nat)
    requires edit.oldText != edit.newText && edit.occurrence.None? && edit.oldText != ""
    requires SingleEdit(content, edit, index).Success? && BorderFree(edit.oldText)
    requires MatchAt(content, edit.oldText, p) && MatchAt(content, edit.oldText, q)
    ensures p == q
  {
    AmbiguityTestIsExact(edit.oldText);
  }

  // ---------------------------------------------------------------------------
  // An edit list
  // ---------------------------------------------------------------------------

  /** The left fold of the edits over the content; edits are numbered from `index`. */
  function FoldEdits(content: string, edits: seq<Edit>, index: nat): (r: EditResult)
    decreases |edits|
  {
    if edits == [] then Success(content)
    else
      match SingleEdit(content, edits[0], index)
      case Failure(e) => Failure(e)
      case Success(next) => FoldEdits(next, edits[1..], index + 1)
  }

  /** The edits applied one after another to a local copy, failing at the first edit that does not apply. */
  method ApplyEdits(content: string, edits: seq<Edit>) returns (r: EditResult)
    ensures r == FoldEdits(content, edits, 1)
  {
    var updated := content;
    var i := 0;
    while i < |edits|
      invariant 0 <= i <= |edits|
      invariant FoldEdits(content, edits, 1) == FoldEdits(updated, edits[i..], i + 1)
    {
      var one := ApplySingleEdit(updated, edits[i], i + 1);
      assert edits[i..][1..] == edits[i + 1..];
      if one.Failure? {
        return Failure(one.error);
      }
      updated := one.value;
      i := i + 1;
    }
    r := Success(updated);
  }

  function TotalGrowth(edits: seq<Edit>): int {
    if edits == [] then 0 else |edits[0].newText| - |edits[0].oldText| + TotalGrowth(edits[1..])
  }

  lemma SingleEditLength(content: string, edit: Edit, index: nat)
    requires SingleEdit(content, edit, index).Success?
    ensures |SingleEdit(content, edit, index).value| == |content| + |edit.newText| - |edit.oldText|
  {
    if edit.oldText != edit.newText {
      GreedyMatches(content, edit.oldText, 0);
      var positions := Greedy(content, edit.oldText);
      var at := Choose(positions, edit.occurrence, index).value;
      assert at in positions;
    }
  }

  /** An accepted edit list changes the length by exactly the sum of the edits' own length changes. */
  lemma {:induction false} FoldLength(content: string, edits: seq<Edit>, index: nat)
    requires FoldEdits(content, edits, index).Success?
    ensures |FoldEdits(content, edits, index).value| == |content| + TotalGrowth(edits)
    decreases |edits|
  {
    if edits != [] {
      SingleEditLength(content, edits[0], index);
      FoldLength(SingleEdit(content, edits[0], index).value, edits[1..], index + 1);
    }
  }

  /** The fold stops with the error of the first edit that does not apply. */
  lemma {:induction false} FoldStopsAt(content: string, edits: seq<Edit>, index: nat, k: nat)
    requires k < |edits| && FoldEdits(content, edits[..k], index).Success?
    requires SingleEdit(FoldEdits(content, edits[..k], index).value, edits[k], index + k).Failure?
    ensures FoldEdits(content, edits, index) ==
            Failure(SingleEdit(FoldEdits(content, edits[..k], index).value, edits[k], index + k).error)
    decreases k
  {
    if k > 0 {
      assert edits[..k][0] == edits[0] && edits[..k][1..] == edits[1..][..k - 1];
      FoldStopsAt(SingleEdit(content, edits[0], index).value, edits[1..], index + 1, k - 1);
    }
  }

  /** A rejected edit list names the first edit that cannot be applied, and every earlier edit could be. */
  lemma {:induction false} FoldFailsAtFirstBadEdit(content: string, edits: seq<Edit>, index: nat)
    requires FoldEdits(content, edits, index).Failure?
    ensures var at := FoldEdits(content, edits, index).error.index - index;
            && 0 <= at < |edits|
            && FoldEdits(content, edits[..at], index).Success?
            && SingleEdit(FoldEdits(content, edits[..at], index).value, edits[at], index + at)
               == Failure(FoldEdits(content, edits, index).error)
    decreases |edits|
  {
    match SingleEdit(content, edits[0], index)
    case Failure(e) =>
    case Success(next) =>
      FoldFailsAtFirstBadEdit(next, edits[1..], index + 1);
      var at := FoldEdits(content, edits, index).error.index - index;
      assert edits[..at][1..] == edits[1..][..at - 1];
  }
}
