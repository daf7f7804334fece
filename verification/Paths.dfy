/** Workspace paths: the plan validator's path rule, and path resolution in a tree without links. */
module Paths {

  import opened Wrappers
  import opened Text

  /** An absolute path as its list of components, outermost first. */
  type Path = seq<string>

  const NUL: char := 0 as char

  predicate IsComponent(c: string) {
    c != "" && c != "." && c != ".." && '/' !in c && NUL !in c
  }

  ghost predicate IsPath(p: Path) {
    forall c :: c in p ==> IsComponent(c)
  }

  // ---------------------------------------------------------------------------
  // Resolution
  // ---------------------------------------------------------------------------

  /** Follow the raw parts from `base`: empty and dot parts stay, `..` goes up and stops at the top. */
  function Walk(base: Path, parts: seq<string>): Path
    decreases |parts|
  {
    if parts == [] then base
    else if parts[0] == "" || parts[0] == "." then Walk(base, parts[1..])
    else if parts[0] == ".." then Walk(if base == [] then [] else base[..|base| - 1], parts[1..])
    else Walk(base + [parts[0]], parts[1..])
  }

  /** `(root / raw).resolve()`; an absolute `raw` replaces the root, and a null byte raises. */
  function Resolve(root: Path, raw: string): Option<Path> {
    if NUL in raw then None
    else Some(Walk(if raw != "" && raw[0] == '/' then [] else root, Split(raw, '/')))
  }

  /** `path.relative_to(root)` succeeds. */
  predicate Under(root: Path, p: Path) {
    root <= p
  }

  /** Resolve and require the result to lie in the workspace. */
  function ResolveUnder(root: Path, raw: string): Option<Path> {
    match Resolve(root, raw)
    case None => None
    case Some(p) => if Under(root, p) then Some(p) else None
  }

  /** The capability store's path rule: blank values and paths outside the workspace have no bound path. */
  function BoundPath(root: Path, raw: string): Option<Path> {
    if IsBlank(raw) then None else ResolveUnder(root, raw)
  }

  /** The approval gate's path rule: relative, no parent parts, inside the workspace. */
  function ResolvePlanPath(root: Path, raw: string): Option<Path> {
    if IsBlank(raw) || (raw != "" && raw[0] == '/') || ".." in Split(raw, '/') then None
    else ResolveUnder(root, raw)
  }

  /** `str(path)` of an absolute path. */
  function Render(p: Path): string {
    "/" + Join(p, '/')
  }

  // ---------------------------------------------------------------------------
  // The plan validator's rule
  // ---------------------------------------------------------------------------

  predicate IsForbiddenPart(part: string) {
    part == "" || part == "." || part == ".."
  }

  /** The strings the plan validator accepts as a mutation path. */
  predicate SafeRelativePath(value: string) {
    && !IsBlank(value)
    && NUL !in value
    && value[0] != '/' && value[0] != '\\'
    && !(|value| >= 2 && value[1] == ':')
    && forall part :: part in Split(ReplaceChar(value, '\\', '/'), '/') ==> !IsForbiddenPart(part)
  }

  /** A `/`-part without backslashes is still a part after backslashes become slashes. */
  lemma {:induction false} PartSurvivesNormalizing(v: string, k: nat) returns (j: nat)
    requires k < |Split(v, '/')| && '\\' !in Split(v, '/')[k]
    ensures j < |Split(ReplaceChar(v, '\\', '/'), '/')|
    ensures Split(ReplaceChar(v, '\\', '/'), '/')[j] == Split(v, '/')[k]
    ensures j == 0 <==> k == 0
  {
    if v == "" {
      j := 0;
    } else {
      var w := ReplaceChar(v, '\\', '/');
      assert w[1..] == ReplaceChar(v[1..], '\\', '/');
      var rest, wrest := Split(v[1..], '/'), Split(w[1..], '/');
      if v[0] == '/' {
        if k == 0 {
          j := 0;
        } else {
          var i := PartSurvivesNormalizing(v[1..], k - 1);
          assert ([""] + wrest)[i + 1] == wrest[i];
          j := i + 1;
        }
      } else {
        assert Split(v, '/')[k] == if k == 0 then [v[0]] + rest[0] else rest[k];
        if v[0] == '\\' {
          assert Split(v, '/')[0][0] == '\\' && Split(v, '/')[0][0] in Split(v, '/')[0];
          var i := PartSurvivesNormalizing(v[1..], k);
          assert ([""] + wrest)[i + 1] == wrest[i];
          j := i + 1;
        } else {
          if k == 0 {
            assert forall c :: c in rest[0] ==> c in Split(v, '/')[0];
          }
          j := PartSurvivesNormalizing(v[1..], k);
          assert Split(w, '/')[j] == if j == 0 then [v[0]] + wrest[0] else wrest[j];
        }
      }
    }
  }

  lemma {:induction false} SplitKeepsOut(s: string, sep: char, c: char)
    requires c !in s
    ensures forall p :: p in Split(s, sep) ==> c !in p
  {
    if s != "" {
      SplitKeepsOut(s[1..], sep, c);
    }
  }

  /** Every `/`-part of an accepted path is a proper component. */
  lemma SafePathParts(value: string)
    requires SafeRelativePath(value)
    ensures IsPath(Split(value, '/'))
  {
    SplitKeepsOut(value, '/', NUL);
    forall part | part in Split(value, '/')
      ensures IsComponent(part)
    {
      if '\\' !in part {
        var k :| 0 <= k < |Split(value, '/')| && Split(value, '/')[k] == part;
        var j := PartSurvivesNormalizing(value, k);
        assert !IsForbiddenPart(Split(ReplaceChar(value, '\\', '/'), '/')[j]);
      }
    }
  }

  /** Walking down proper components only appends them. */
  lemma {:induction false} WalkDown(base: Path, parts: Path)
    requires IsPath(parts)
    ensures Walk(base, parts) == base + parts
    decreases |parts|
  {
    if parts != [] {
      assert IsComponent(parts[0]);
      WalkDown(base + [parts[0]], parts[1..]);
    }
  }

  /** An accepted path resolves to a strict descendant of the root, the same one in every later boundary check. */
  lemma SafePathIsStrictDescendant(root: Path, value: string)
    requires SafeRelativePath(value)
    ensures var target := root + Split(value, '/');
            && |target| > |root|
            && Under(root, target)
            && Resolve(root, value) == Some(target)
            && ResolveUnder(root, value) == Some(target)
            && ResolvePlanPath(root, value) == Some(target)
  {
    SafePathParts(value);
    WalkDown(root, Split(value, '/'));
    assert ".." in Split(value, '/') ==> IsComponent("..");
  }

  /** Accepted paths written differently name different files. */
  lemma SafePathsAreDistinct(root: Path, v: string, w: string)
    requires SafeRelativePath(v) && SafeRelativePath(w)
    requires Resolve(root, v) == Resolve(root, w)
    ensures v == w
  {
    SafePathIsStrictDescendant(root, v);
    SafePathIsStrictDescendant(root, w);
    assert Split(v, '/') == (root + Split(v, '/'))[|root|..] == (root + Split(w, '/'))[|root|..] == Split(w, '/');
    JoinSplit(v, '/');
    JoinSplit(w, '/');
  }

  // ---------------------------------------------------------------------------
  // What the rules mean
  // ---------------------------------------------------------------------------

  /** At least one name, and no name empty, a dot, a double dot or with a slash in it. */
  ghost predicate AreNames(names: seq<string>) {
    names != [] && forall name :: name in names ==> name != "" && name != "." && name != ".." && '/' !in name
  }

  /** A mutation path is accepted exactly when, with backslashes read as slashes, it is names joined by slashes, and it
      is
      not blank, has no null byte and does not start like a drive. */
  lemma SafePathMeans(value: string)
    ensures SafeRelativePath(value) <==>
            && !IsBlank(value) && NUL !in value && !(|value| >= 2 && value[1] == ':')
            && exists names :: AreNames(names) && Join(names, '/') == ReplaceChar(value, '\\', '/')
  {
    var w := ReplaceChar(value, '\\', '/');
    if SafeRelativePath(value) {
      JoinSplit(w, '/');
      assert AreNames(Split(w, '/'));
    }
    if names :| AreNames(names) && Join(names, '/') == w {
      SplitJoin(names, '/');
      assert names[0] in names;
      JoinHead(names);
      assert value != "" ==> w[0] == names[0][0] && names[0][0] in names[0];
    }
  }

  lemma JoinHead(names: seq<string>)
    requires names != []
    ensures names[0] <= Join(names, '/')
  {
  }

  /** `n` steps up. */
  function Ups(n: nat): (ups: seq<string>)
    ensures |ups| == n
  {
    seq(n, i => "..")
  }

  /** Going up and then down: each step up drops one component and stops at the top, proper components are appended. */
  lemma {:induction false} UpThenDown(base: Path, n: nat, parts: Path)
    requires IsPath(parts)
    ensures Walk(base, Ups(n) + parts) == (if n <= |base| then base[..|base| - n] else []) + parts
    decreases n
  {
    if n == 0 {
      assert Ups(0) + parts == parts && base[..|base|] == base;
      WalkDown(base, parts);
    } else {
      var up := if base == [] then [] else base[..|base| - 1];
      assert (Ups(n) + parts)[0] == ".." && (Ups(n) + parts)[1..] == Ups(n - 1) + parts;
      UpThenDown(up, n - 1, parts);
    }
  }

  /** Walking part by part. */
  lemma {:induction false} WalkConcat(base: Path, a: seq<string>, b: seq<string>)
    ensures Walk(base, a + b) == Walk(Walk(base, a), b)
    decreases |a|
  {
    if a == [] {
      assert a + b == b;
    } else {
      assert (a + b)[1..] == a[1..] + b;
      WalkConcat(if a[0] == "" || a[0] == "." then base
                 else if a[0] == ".." then (if base == [] then [] else base[..|base| - 1])
                 else base + [a[0]], a[1..], b);
    }
  }

  /** Empty and dot parts make no difference. */
  lemma WalkIgnoresDots(base: Path, a: seq<string>, dot: string, b: seq<string>)
    requires dot == "" || dot == "."
    ensures Walk(base, a + [dot] + b) == Walk(base, a + b)
  {
    WalkConcat(base, a + [dot], b);
    WalkConcat(base, a, [dot]);
    WalkConcat(base, a, b);
    assert [dot][1..] == [];
  }

  lemma {:induction false} WalkIsPath(base: Path, parts: seq<string>)
    requires IsPath(base) && forall c :: c in parts ==> '/' !in c && NUL !in c
    ensures IsPath(Walk(base, parts))
    decreases |parts|
  {
    if parts != [] {
      WalkIsPath(if parts[0] == "" || parts[0] == "." then base
                 else if parts[0] == ".." then (if base == [] then [] else base[..|base| - 1])
                 else base + [parts[0]], parts[1..]);
    }
  }

  /** What a text resolves to is a proper path. */
  lemma ResolveIsPath(root: Path, raw: string)
    requires IsPath(root) && Resolve(root, raw).Some?
    ensures IsPath(Resolve(root, raw).value)
  {
    SplitKeepsOut(raw, '/', NUL);
    WalkIsPath(if raw != "" && raw[0] == '/' then [] else root, Split(raw, '/'));
  }

  lemma {:induction false} JoinKeepsOut(parts: seq<string>, sep: char, c: char)
    requires c != sep && forall p :: p in parts ==> c !in p
    ensures c !in Join(parts, sep)
  {
    if |parts| > 1 {
      JoinKeepsOut(parts[1..], sep, c);
    }
  }

  /** Rendering an absolute path and resolving the text gives the path back, whatever the root. */
  lemma RenderResolves(root: Path, p: Path)
    requires IsPath(p)
    ensures Resolve(root, Render(p)) == Some(p)
    ensures Under(root, p) ==> BoundPath(root, Render(p)) == Some(p)
  {
    var text := Render(p);
    forall c | c in p ensures NUL !in c { assert IsComponent(c); }
    JoinKeepsOut(p, '/', NUL);
    assert NUL !in text;
    assert text[0] == '/' && text[1..] == Join(p, '/');
    if p == [] {
      assert Split(text, '/') == ["", ""];
      assert Walk([], ["", ""]) == Walk([], [""]) == [];
    } else {
      SplitJoin(p, '/');
      var parts := Split(text, '/');
      assert parts == [""] + p && parts[1..] == p;
      WalkDown([], p);
      assert Walk([], parts) == Walk([], p) == [] + p == p;
    }
    assert !IsBlank(text) by {
      assert text[0] in text && !IsSpace('/');
    }
  }

  /** The token scope written for an accepted path binds to exactly the file the step targets. */
  lemma TokenScopeMatchesTarget(root: Path, value: string)
    requires IsPath(root) && SafeRelativePath(value)
    ensures var target := root + Split(value, '/');
            BoundPath(root, Render(target)) == Some(target) && BoundPath(root, value) == Some(target)
  {
    SafePathIsStrictDescendant(root, value);
    SafePathParts(value);
    RenderResolves(root, root + Split(value, '/'));
  }
}
