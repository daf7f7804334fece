/** Artifact ids: their text form and its round trips. */
module ArtifactId {

  import opened Wrappers
  import opened Text
  import opened Paths

  datatype ArtifactID = ArtifactID(kind: string, path: string, symbol: Option<string>)

  const SEP := "::"

  predicate IsPathKind(kind: string) {
    kind == "FILE" || kind == "MODULE"
  }

  predicate IsSymbolKind(kind: string) {
    kind == "FUNC" || kind == "TEST"
  }

  /** What the constructor checks. */
  predicate Valid(a: ArtifactID) {
    && (IsPathKind(a.kind) || IsSymbolKind(a.kind))
    && SafeRelativePath(a.path)
    && (IsPathKind(a.kind) ==> a.symbol.None?)
    && (IsSymbolKind(a.kind) ==> a.symbol.Some? && ValidSymbol(a.symbol.value))
  }

  predicate ValidSymbol(symbol: string) {
    !IsBlank(symbol) && !Contains(symbol, SEP) && '/' !in symbol && '\\' !in symbol
  }

  function ToString(a: ArtifactID): string {
    match a.symbol
    case None => a.kind + SEP + a.path
    case Some(symbol) => a.kind + SEP + a.path + SEP + symbol
  }

  /** `s.split("::")`. */
  function SplitPairs(s: string): (parts: seq<string>)
    ensures |parts| > 0
    decreases |s|
  {
    var i := FindFrom(s, SEP, 0);
    if i == -1 then [s] else [s[..i]] + SplitPairs(s[i + 2..])
  }

  /** The constructor applied to parsed parts. */
  function Make(a: ArtifactID): Option<ArtifactID> {
    if Valid(a) then Some(a) else None
  }

  function Parse(value: string): Option<ArtifactID> {
    if IsBlank(value) then None
    else
      var parts := SplitPairs(value);
      if |parts| == 2 then Make(ArtifactID(parts[0], parts[1], None))
      else if |parts| == 3 then Make(ArtifactID(parts[0], parts[1], Some(parts[2])))
      else None
  }

  // ---------------------------------------------------------------------------
  // Splitting on double colons
  // ---------------------------------------------------------------------------

  function JoinPairs(parts: seq<string>): string {
    if |parts| == 0 then "" else if |parts| == 1 then parts[0] else parts[0] + SEP + JoinPairs(parts[1..])
  }

  lemma {:induction false} JoinSplitPairs(s: string)
    ensures JoinPairs(SplitPairs(s)) == s
    decreases |s|
  {
    var i := FindFrom(s, SEP, 0);
    if i != -1 {
      FindFromMatches(s, SEP, 0);
      JoinSplitPairs(s[i + 2..]);
      assert s == s[..i] + SEP + s[i + 2..];
    }
  }

  predicate EndsInColon(s: string) {
    s != "" && s[|s| - 1] == ':'
  }

  /** A text with no double colon that is followed by one without running into it. */
  predicate CleanBeforeSeparator(s: string) {
    !Contains(s, SEP) && !EndsInColon(s)
  }

  lemma TwoColons(s: string, j: nat)
    requires j + 1 < |s| && s[j] == ':' && s[j + 1] == ':'
    ensures MatchAt(s, SEP, j)
  {
    assert s[j..j + 2] == [s[j], s[j + 1]];
  }

  lemma ColonsOfMatch(s: string, j: int)
    requires MatchAt(s, SEP, j)
    ensures 0 <= j && j + 1 < |s| && s[j] == ':' && s[j + 1] == ':'
  {
    assert s[j..j + 2][0] == ':' && s[j..j + 2][1] == ':';
  }

  /** The text before the leftmost separator is clean. */
  lemma HeadIsClean(s: string)
    requires FindFrom(s, SEP, 0) != -1
    ensures CleanBeforeSeparator(s[..FindFrom(s, SEP, 0)])
  {
    var i := FindFrom(s, SEP, 0);
    var head := s[..i];
    if Contains(head, SEP) {
      var j := FindFrom(head, SEP, 0);
      FindFromMatches(head, SEP, 0);
      ColonsOfMatch(head, j);
      TwoColons(s, j);
      FindFromSkipsNothing(s, SEP, 0, j);
    }
    if EndsInColon(head) {
      FindFromMatches(s, SEP, 0);
      ColonsOfMatch(s, i);
      TwoColons(s, i - 1);
      FindFromSkipsNothing(s, SEP, 0, i - 1);
    }
  }

  /** Parts contain no double colon, and no part but the last ends in a colon: the leftmost separator wins. */
  lemma {:induction false} PartsAreClean(s: string, k: nat)
    requires k < |SplitPairs(s)|
    ensures !Contains(SplitPairs(s)[k], SEP)
    ensures k < |SplitPairs(s)| - 1 ==> CleanBeforeSeparator(SplitPairs(s)[k])
    decreases |s|
  {
    var i := FindFrom(s, SEP, 0);
    if i != -1 {
      if k == 0 {
        HeadIsClean(s);
      } else {
        PartsAreClean(s[i + 2..], k - 1);
      }
    }
  }

  /** After a clean text the separator that follows it is the first one. */
  lemma SplitAtSeparator(head: string, rest: string)
    requires CleanBeforeSeparator(head)
    ensures SplitPairs(head + SEP + rest) == [head] + SplitPairs(rest)
  {
    var s := head + SEP + rest;
    var n := |head|;
    TwoColons(s, n);
    FindFromSkipsNothing(s, SEP, 0, n);
    FindFromMatches(s, SEP, 0);
    var i := FindFrom(s, SEP, 0);
    if i < n {
      ColonsOfMatch(s, i);
      if i < n - 1 {
        TwoColons(head, i);
        FindFromSkipsNothing(head, SEP, 0, i);
      }
    }
    assert s[..n] == head && s[n + 2..] == rest;
  }

  lemma SplitOfClean(s: string)
    requires !Contains(s, SEP)
    ensures SplitPairs(s) == [s]
  {
  }

  lemma KindIsClean(kind: string)
    requires IsPathKind(kind) || IsSymbolKind(kind)
    ensures CleanBeforeSeparator(kind)
  {
    assert forall i :: 0 <= i < |kind| ==> kind[i] != ':';
    if Contains(kind, SEP) {
      FindFromMatches(kind, SEP, 0);
      ColonsOfMatch(kind, FindFrom(kind, SEP, 0));
    }
  }

  // ---------------------------------------------------------------------------
  // Round trips
  // ---------------------------------------------------------------------------

  lemma JoinTwo(parts: seq<string>)
    requires |parts| == 2
    ensures JoinPairs(parts) == parts[0] + SEP + parts[1]
  {
    assert JoinPairs(parts[1..]) == parts[1];
  }

  lemma JoinThree(parts: seq<string>)
    requires |parts| == 3
    ensures JoinPairs(parts) == parts[0] + SEP + parts[1] + SEP + parts[2]
  {
    JoinTwo(parts[1..]);
    var tail := parts[1] + SEP + parts[2];
    assert parts[0] + SEP + tail == parts[0] + SEP + parts[1] + SEP + parts[2];
  }

  /** Printing a parsed id gives the text back. */
  lemma ParseThenPrint(value: string)
    requires Parse(value).Some?
    ensures ToString(Parse(value).value) == value && Valid(Parse(value).value)
  {
    JoinSplitPairs(value);
    var parts := SplitPairs(value);
    if |parts| == 2 {
      JoinTwo(parts);
    } else {
      JoinThree(parts);
    }
  }

  /** The paths an id can carry through its text form. */
  predicate Printable(a: ArtifactID) {
    !Contains(a.path, SEP) && (IsSymbolKind(a.kind) ==> !EndsInColon(a.path))
  }

  lemma PrintedParts(a: ArtifactID)
    requires Valid(a) && Printable(a)
    ensures SplitPairs(ToString(a)) == [a.kind, a.path] + if a.symbol.Some? then [a.symbol.value] else []
  {
    KindIsClean(a.kind);
    match a.symbol
    case None =>
      SplitAtSeparator(a.kind, a.path);
      SplitOfClean(a.path);
    case Some(symbol) =>
      assert ToString(a) == a.kind + SEP + (a.path + SEP + symbol);
      SplitAtSeparator(a.kind, a.path + SEP + symbol);
      SplitAtSeparator(a.path, symbol);
      SplitOfClean(symbol);
  }

  /** Parsing a printed id gives the id back exactly when its path has no `::` and, before a symbol, no final colon. */
  lemma PrintThenParse(a: ArtifactID)
    requires Valid(a)
    ensures Parse(ToString(a)) == Some(a) <==> Printable(a)
  {
    var text := ToString(a);
    if Printable(a) {
      PrintedParts(a);
      assert !IsBlank(text) by {
        assert text[0] == a.kind[0] && text[0] in text && !IsSpace(text[0]);
      }
    }
    if Parse(text) == Some(a) {
      var parts := SplitPairs(text);
      assert parts[1] == a.path && (IsSymbolKind(a.kind) ==> |parts| == 3);
      PartsAreClean(text, 1);
    }
  }

  /** The ids the constructor takes, kind by kind. */
  lemma ValidMeans(a: ArtifactID)
    ensures Valid(a) <==>
            && SafeRelativePath(a.path)
            && if a.symbol.None? then a.kind == "FILE" || a.kind == "MODULE"
               else
                 && (a.kind == "FUNC" || a.kind == "TEST")
                 && !IsBlank(a.symbol.value)
                 && (forall i :: 0 <= i < |a.symbol.value| ==> a.symbol.value[i] != '/' && a.symbol.value[i] != '\\')
                 && forall i :: !MatchAt(a.symbol.value, "::", i)
  {
    assert IsPathKind(a.kind) ==> !IsSymbolKind(a.kind);
    if a.symbol.Some? {
      var symbol := a.symbol.value;
      if Contains(symbol, SEP) {
        FindFromMatches(symbol, SEP, 0);
      }
      if i :| MatchAt(symbol, SEP, i) {
        FindFromSkipsNothing(symbol, SEP, 0, i);
      }
    }
  }

  /** A text parses as an id exactly when it is that id's text, and the id is valid and can be told from its text. */
  lemma ParsedExactly(value: string, a: ArtifactID)
    ensures Parse(value) == Some(a) <==> Valid(a) && Printable(a) && value == ToString(a)
  {
    if Parse(value).Some? {
      ParseThenPrint(value);
      PrintThenParse(Parse(value).value);
    }
    if Valid(a) {
      PrintThenParse(a);
    }
  }
}
