/** The workspace fingerprint: which files it covers, and that its payload says exactly what they hold. */
module Fingerprint {

  import opened Wrappers
  import opened Text
  import opened Paths
  import Ordering
  import opened Workspace
  import PlanHash

  const EXCLUDED_TOP_LEVEL := {"plans", ".runtime_state"}
  const CHUNK := 65536

  // ---------------------------------------------------------------------------
  // The order of the listing
  // ---------------------------------------------------------------------------

  /** Paths compare component by component. */
  predicate PathLess(p: Path, q: Path) {
    if q == [] then false
    else if p == [] then true
    else if p[0] != q[0] then Ordering.Less(p[0], q[0])
    else PathLess(p[1..], q[1..])
  }

  lemma {:induction false} PathLessIsTransitive(p: Path, q: Path, r: Path)
    requires PathLess(p, q) && PathLess(q, r)
    ensures PathLess(p, r)
  {
    if p != [] {
      if p[0] == q[0] == r[0] {
        PathLessIsTransitive(p[1..], q[1..], r[1..]);
      } else if p[0] != q[0] && q[0] != r[0] {
        Ordering.LessIsTransitive(p[0], q[0], r[0]);
        Ordering.LessIsIrreflexive(p[0]);
      }
    }
  }

  lemma {:induction false} PathLessIsTotal(p: Path, q: Path)
    ensures p == q || PathLess(p, q) || PathLess(q, p)
  {
    if p != [] && q != [] {
      if p[0] == q[0] {
        PathLessIsTotal(p[1..], q[1..]);
        assert p == [p[0]] + p[1..] && q == [q[0]] + q[1..];
      } else {
        Ordering.LessIsTotal(p[0], q[0]);
      }
    }
  }

  lemma {:induction false} PathLessIsIrreflexive(p: Path)
    ensures !PathLess(p, p)
  {
    if p != [] {
      PathLessIsIrreflexive(p[1..]);
    }
  }

  predicate Sorted(s: seq<Path>) {
    forall i, j :: 0 <= i < j < |s| ==> PathLess(s[i], s[j])
  }

  function Insert(p: Path, s: seq<Path>): (r: seq<Path>)
    ensures forall q :: q in r <==> q == p || q in s
  {
    if s == [] then [p]
    else if p == s[0] then s
    else if PathLess(p, s[0]) then [p] + s
    else [s[0]] + Insert(p, s[1..])
  }

  lemma {:induction false} InsertKeepsSorted(p: Path, s: seq<Path>)
    requires Sorted(s)
    ensures Sorted(Insert(p, s))
  {
    if s != [] && p != s[0] {
      PathLessIsTotal(p, s[0]);
      if PathLess(p, s[0]) {
        forall k | 0 < k < |s| ensures PathLess(p, s[k]) { PathLessIsTransitive(p, s[0], s[k]); }
      } else {
        InsertKeepsSorted(p, s[1..]);
        var rest := Insert(p, s[1..]);
        forall k | 0 <= k < |rest| ensures PathLess(s[0], rest[k]) {
          assert rest[k] in rest;
        }
      }
    }
  }

  /** `sorted(entries)`, for a directory scan that yields each entry once. */
  function SortPaths(entries: seq<Path>): (r: seq<Path>)
    ensures Sorted(r)
    ensures forall p :: p in r <==> p in entries
  {
    if entries == [] then []
    else
      var rest := SortPaths(entries[1..]);
      InsertKeepsSorted(entries[0], rest);
      Insert(entries[0], rest)
  }

  /** A sorted listing is determined by its members. */
  lemma {:induction false} SortedPathsAreUnique(s: seq<Path>, t: seq<Path>)
    requires Sorted(s) && Sorted(t)
    requires forall x :: x in s <==> x in t
    ensures s == t
  {
    assert t != [] ==> t[0] in s;
    if s != [] {
      assert s[0] in t;
      assert t[0] in s;
      FirstPathsAgree(s, t);
      forall x ensures x in s[1..] <==> x in t[1..] {
        PathLessIsIrreflexive(s[0]);
        assert x in s <==> x == s[0] || x in s[1..];
        assert x in t <==> x == t[0] || x in t[1..];
      }
      SortedPathsAreUnique(s[1..], t[1..]);
      assert s == [s[0]] + s[1..] && t == [t[0]] + t[1..];
    }
  }

  lemma FirstPathsAgree(s: seq<Path>, t: seq<Path>)
    requires Sorted(s) && Sorted(t)
    requires |s| > 0 && |t| > 0 && s[0] in t && t[0] in s
    ensures s[0] == t[0]
  {
    if s[0] != t[0] {
      var i :| 0 <= i < |t| && t[i] == s[0];
      var j :| 0 <= j < |s| && s[j] == t[0];
      assert PathLess(t[0], t[i]) && PathLess(s[0], s[j]);
      PathLessIsTransitive(s[0], t[0], s[0]);
      PathLessIsIrreflexive(s[0]);
    }
  }

  // ---------------------------------------------------------------------------
  // Rows
  // ---------------------------------------------------------------------------

  /** The suffix rule: the last dot is neither the first nor the last character of the name. */
  predicate IsBytecode(name: string) {
    |name| > 4 && name[|name| - 4..] == ".pyc"
  }

  /** The files the fingerprint covers, by workspace-relative path. */
  predicate Covered(rel: Path) {
    rel != [] && rel[0] !in EXCLUDED_TOP_LEVEL && "__pycache__" !in rel && !IsBytecode(rel[|rel| - 1])
  }

  predicate CoveredFile(root: Path, files: Files, p: Path) {
    p in files && Under(root, p) && Covered(p[|root|..])
  }

  function RowText(rel: string, size: nat, digest: string): string {
    rel + "|" + Decimal(size) + "|" + digest
  }

  function Row(sha: string -> string, root: Path, files: Files, p: Path): string
    requires CoveredFile(root, files, p)
  {
    RowText(Join(p[|root|..], '/'), Utf8Size(files[p]), sha(files[p]))
  }

  /** The covered files of a listing, in its order. */
  function Kept(root: Path, files: Files, listing: seq<Path>): (r: seq<Path>)
    ensures forall p :: p in r <==> p in listing && CoveredFile(root, files, p)
  {
    if listing == [] then []
    else if CoveredFile(root, files, listing[0]) then [listing[0]] + Kept(root, files, listing[1..])
    else Kept(root, files, listing[1..])
  }

  lemma {:induction false} KeptIsSorted(root: Path, files: Files, listing: seq<Path>)
    requires Sorted(listing)
    ensures Sorted(Kept(root, files, listing))
  {
    if listing != [] {
      KeptIsSorted(root, files, listing[1..]);
      var rest := Kept(root, files, listing[1..]);
      forall k | 0 <= k < |rest| ensures PathLess(listing[0], rest[k]) {
        assert rest[k] in rest;
        var j :| 0 <= j < |listing[1..]| && listing[1..][j] == rest[k];
        assert PathLess(listing[0], listing[j + 1]);
      }
    }
  }

  function Rows(sha: string -> string, root: Path, files: Files, kept: seq<Path>): (rows: seq<string>)
    requires forall p :: p in kept ==> CoveredFile(root, files, p)
    ensures |rows| == |kept|
  {
    seq(|kept|, i requires 0 <= i < |kept| => Row(sha, root, files, kept[i]))
  }

  /** The covered files that a scan finds, sorted. */
  function CoveredPaths(root: Path, files: Files, entries: seq<Path>): (r: seq<Path>)
    ensures forall p :: p in r ==> CoveredFile(root, files, p)
    ensures Scans(root, files, entries) ==> forall p :: CoveredFile(root, files, p) ==> p in r
    ensures Sorted(r)
  {
    KeptIsSorted(root, files, SortPaths(entries));
    Kept(root, files, SortPaths(entries))
  }

  /** The text that is hashed, for the entries of a directory scan in any order. */
  function Payload(sha: string -> string, root: Path, files: Files, entries: seq<Path>): string {
    Join(Rows(sha, root, files, CoveredPaths(root, files, entries)), '\n')
  }

  function WorkspaceFingerprint(sha: string -> string, root: Path, files: Files, entries: seq<Path>): string {
    sha(Payload(sha, root, files, entries))
  }

  /** The digest of a file, fed to the hasher in chunks. */
  method HashFile(sha: string -> string, content: string) returns (digest: string)
    ensures digest == sha(content)
  {
    var fed, position := "", 0;
    while position < |content|
      invariant 0 <= position <= |content| && fed == content[..position]
    {
      var next := if position + CHUNK < |content| then position + CHUNK else |content|;
      fed := fed + content[position..next];
      position := next;
    }
    assert content[..position] == content;
    digest := sha(fed);
  }

  /** The fingerprint of the files as they are, with its row list built entry by entry. */
  method ComputeWorkspaceFingerprint(sha: string -> string, root: Path, files: Files, entries: seq<Path>)
    returns (digest: string)
    ensures digest == WorkspaceFingerprint(sha, root, files, entries)
  {
    var listing := SortPaths(entries);
    var rows: seq<string> := [];
    var i := 0;
    while i < |listing|
      invariant 0 <= i <= |listing|
      invariant rows + Rows(sha, root, files, Kept(root, files, listing[i..]))
             == Rows(sha, root, files, Kept(root, files, listing))
    {
      var p := listing[i];
      assert listing[i..][0] == p && listing[i..][1..] == listing[i + 1..];
      if CoveredFile(root, files, p) {
        var fileHash := HashFile(sha, files[p]);
        var row := RowText(Join(p[|root|..], '/'), Utf8Size(files[p]), fileHash);
        RowsOfCons(sha, root, files, p, Kept(root, files, listing[i + 1..]));
        rows := rows + [row];
      }
      i := i + 1;
    }
    assert listing[i..] == [];
    assert rows + [] == rows;
    digest := sha(Join(rows, '\n'));
  }

  lemma RowsOfCons(sha: string -> string, root: Path, files: Files, p: Path, kept: seq<Path>)
    requires CoveredFile(root, files, p) && forall q :: q in kept ==> CoveredFile(root, files, q)
    ensures Rows(sha, root, files, [p] + kept) == [Row(sha, root, files, p)] + Rows(sha, root, files, kept)
  {
  }

  // ---------------------------------------------------------------------------
  // The payload is unambiguous
  // ---------------------------------------------------------------------------

  predicate IsHexDigit(c: char) { '0' <= c <= '9' || 'a' <= c <= 'f' }

  /** Digests are written in hexadecimal. */
  ghost predicate HexDigests(sha: string -> string) {
    forall s, i :: 0 <= i < |sha(s)| ==> IsHexDigit(sha(s)[i])
  }

  predicate OneLine(p: Path) {
    forall c :: c in p ==> '\n' !in c
  }

  /** A scan of the tree lists every file under the root. */
  ghost predicate Scans(root: Path, files: Files, entries: seq<Path>) {
    forall p :: p in files && Under(root, p) ==> p in entries
  }

  /** Every path is a proper path; its names may hold any other character. */
  ghost predicate ProperNames(files: Files) {
    forall p :: p in files ==> IsPath(p)
  }

  /** Every path is a proper path on one line. */
  ghost predicate PlainNames(files: Files) {
    forall p :: p in files ==> IsPath(p) && OneLine(p)
  }

  /** The covered files and their texts. */
  function CoveredFiles(root: Path, files: Files): Files {
    map p | p in files && CoveredFile(root, files, p) :: files[p]
  }

  /** A row reads back from the right, even when the path contains the separator. */
  lemma RowIsUnambiguous(rel: string, size: nat, digest: string, rel': string, size': nat, digest': string)
    requires '|' !in digest && '|' !in digest'
    requires RowText(rel, size, digest) == RowText(rel', size', digest')
    ensures rel == rel' && size == size' && digest == digest'
  {
    LastSeparatorIsUnique(rel + "|" + Decimal(size), digest, rel' + "|" + Decimal(size'), digest', '|');
    DigitsAreNot(Decimal(size), '|');
    DigitsAreNot(Decimal(size'), '|');
    LastSeparatorIsUnique(rel, Decimal(size), rel', Decimal(size'), '|');
    DecimalRoundTrip(size);
    DecimalRoundTrip(size');
  }

  /** Joined lines split back, and no line list but the empty one joins to the empty text. */
  lemma LinesAreUnambiguous(s: seq<string>, t: seq<string>)
    requires forall x :: x in s ==> x != "" && '\n' !in x
    requires forall x :: x in t ==> x != "" && '\n' !in x
    requires Join(s, '\n') == Join(t, '\n')
    ensures s == t
  {
    assert s != [] ==> s[0] in s;
    assert t != [] ==> t[0] in t;
    if s != [] {
      SplitJoin(s, '\n');
    }
    if t != [] {
      SplitJoin(t, '\n');
    }
  }

  lemma RelativeParts(root: Path, p: Path)
    requires IsPath(p) && Under(root, p) && root != p
    ensures Split(Join(p[|root|..], '/'), '/') == p[|root|..]
  {
    var rel := p[|root|..];
    forall c | c in rel ensures '/' !in c {
      assert c in p;
    }
    SplitJoin(rel, '/');
  }

  lemma RowIsOneLine(sha: string -> string, root: Path, files: Files, p: Path)
    requires HexDigests(sha) && PlainNames(files) && CoveredFile(root, files, p)
    ensures Row(sha, root, files, p) != "" && '\n' !in Row(sha, root, files, p)
  {
    var rel := p[|root|..];
    JoinKeepsOut(rel, '/', '\n');
    DigitsAreNot(Decimal(Utf8Size(files[p])), '\n');
  }

  lemma HexHasNoBar(sha: string -> string, text: string)
    requires HexDigests(sha)
    ensures '|' !in sha(text) && '\n' !in sha(text) && '/' !in sha(text) && NUL !in sha(text)
  {
  }

  lemma RowNamesFile(sha: string -> string, root: Path, f: Files, g: Files, p: Path, q: Path)
    requires HexDigests(sha) && ProperNames(f) && ProperNames(g)
    requires CoveredFile(root, f, p) && CoveredFile(root, g, q)
    requires Row(sha, root, f, p) == Row(sha, root, g, q)
    ensures p == q && sha(f[p]) == sha(g[q]) && Utf8Size(f[p]) == Utf8Size(g[q])
  {
    HexHasNoBar(sha, f[p]);
    HexHasNoBar(sha, g[q]);
    var rel, rel' := p[|root|..], q[|root|..];
    RowIsUnambiguous(Join(rel, '/'), Utf8Size(f[p]), sha(f[p]), Join(rel', '/'), Utf8Size(g[q]), sha(g[q]));
    RelativeParts(root, p);
    RelativeParts(root, q);
    assert p == root + rel && q == root + rel';
  }

  /** What the payload says about one file. */
  ghost predicate SameEntry(sha: string -> string, f: Files, g: Files, p: Path) {
    p in f && p in g && sha(f[p]) == sha(g[p]) && Utf8Size(f[p]) == Utf8Size(g[p])
  }

  /** The same covered paths, with the same sizes and digests. */
  ghost predicate SameCovered(sha: string -> string, root: Path, f: Files, g: Files) {
    forall p :: CoveredFile(root, f, p) || CoveredFile(root, g, p) ==> SameEntry(sha, f, g, p)
  }

  /** Payloads agree exactly when the covered paths, sizes and digests agree; no assumption on collisions. */
  lemma PayloadIdentifiesEntries(sha: string -> string, root: Path, f: Files, g: Files, es: seq<Path>, fs: seq<Path>)
    requires HexDigests(sha) && PlainNames(f) && PlainNames(g) && Scans(root, f, es) && Scans(root, g, fs)
    ensures Payload(sha, root, f, es) == Payload(sha, root, g, fs) <==>
            SameCovered(sha, root, f, g)
  {
    var kf, kg := CoveredPaths(root, f, es), CoveredPaths(root, g, fs);
    var rf, rg := Rows(sha, root, f, kf), Rows(sha, root, g, kg);
    if Join(rf, '\n') == Join(rg, '\n') {
      RowsAreOneLine(sha, root, f, kf);
      RowsAreOneLine(sha, root, g, kg);
      LinesAreUnambiguous(rf, rg);
      SameRowsSameEntries(sha, root, f, g, kf, kg);
    }
    if SameCovered(sha, root, f, g) {
      SameEntriesSameRows(sha, root, f, g, kf, kg);
    }
  }

  lemma SameEntriesSameRows(sha: string -> string, root: Path, f: Files, g: Files, kf: seq<Path>, kg: seq<Path>)
    requires Sorted(kf) && Sorted(kg)
    requires forall p :: p in kf <==> CoveredFile(root, f, p)
    requires forall p :: p in kg <==> CoveredFile(root, g, p)
    requires SameCovered(sha, root, f, g)
    ensures Rows(sha, root, f, kf) == Rows(sha, root, g, kg)
  {
    forall p ensures p in kf <==> p in kg {
      assert CoveredFile(root, f, p) || CoveredFile(root, g, p) ==> SameEntry(sha, f, g, p);
    }
    SortedPathsAreUnique(kf, kg);
    var rf, rg := Rows(sha, root, f, kf), Rows(sha, root, g, kg);
    forall i | 0 <= i < |kf| ensures rf[i] == rg[i] {
      assert kf[i] in kf;
      assert SameEntry(sha, f, g, kf[i]);
    }
  }

  lemma RowsAreOneLine(sha: string -> string, root: Path, files: Files, kept: seq<Path>)
    requires HexDigests(sha) && PlainNames(files) && forall p :: p in kept ==> CoveredFile(root, files, p)
    ensures forall x :: x in Rows(sha, root, files, kept) ==> x != "" && '\n' !in x
  {
    var rows := Rows(sha, root, files, kept);
    forall x | x in rows ensures x != "" && '\n' !in x {
      var i :| 0 <= i < |rows| && rows[i] == x;
      RowIsOneLine(sha, root, files, kept[i]);
    }
  }

  lemma SameRowsSameEntries(sha: string -> string, root: Path, f: Files, g: Files, kf: seq<Path>, kg: seq<Path>)
    requires HexDigests(sha) && ProperNames(f) && ProperNames(g)
    requires forall p :: p in kf <==> CoveredFile(root, f, p)
    requires forall p :: p in kg <==> CoveredFile(root, g, p)
    requires Rows(sha, root, f, kf) == Rows(sha, root, g, kg)
    ensures SameCovered(sha, root, f, g)
  {
    var rf, rg := Rows(sha, root, f, kf), Rows(sha, root, g, kg);
    forall p | CoveredFile(root, f, p) || CoveredFile(root, g, p) ensures SameEntry(sha, f, g, p) {
      if p in kf {
        var i :| 0 <= i < |kf| && kf[i] == p;
        assert rf[i] == rg[i] && kg[i] in kg;
        RowNamesFile(sha, root, f, g, kf[i], kg[i]);
      } else {
        var i :| 0 <= i < |kg| && kg[i] == p;
        assert rf[i] == rg[i] && kf[i] in kf;
        RowNamesFile(sha, root, f, g, kf[i], kg[i]);
      }
    }
  }

  lemma SameEntriesSameFiles(sha: string -> string, root: Path, f: Files, g: Files)
    requires PlanHash.CollisionFree(sha)
    ensures SameCovered(sha, root, f, g) <==> CoveredFiles(root, f) == CoveredFiles(root, g)
  {
    var cf, cg := CoveredFiles(root, f), CoveredFiles(root, g);
    if cf == cg {
      forall p | CoveredFile(root, f, p) || CoveredFile(root, g, p) ensures SameEntry(sha, f, g, p) {
        assert p in cf && p in cg && cf[p] == cg[p];
      }
    }
    if SameCovered(sha, root, f, g) {
      forall p ensures p in cf <==> p in cg {
        assert CoveredFile(root, f, p) || CoveredFile(root, g, p) ==> SameEntry(sha, f, g, p);
      }
      forall p | p in cf ensures cf[p] == cg[p] {
        assert SameEntry(sha, f, g, p);
      }
    }
  }

  /** Under a collision-free digest, fingerprints agree exactly when the covered files and their texts agree. */
  lemma FingerprintIdentifiesFiles(sha: string -> string, root: Path, f: Files, g: Files, es: seq<Path>, fs: seq<Path>)
    requires HexDigests(sha) && PlanHash.CollisionFree(sha)
    requires PlainNames(f) && PlainNames(g) && Scans(root, f, es) && Scans(root, g, fs)
    ensures WorkspaceFingerprint(sha, root, f, es) == WorkspaceFingerprint(sha, root, g, fs) <==>
            CoveredFiles(root, f) == CoveredFiles(root, g)
  {
    PayloadIdentifiesEntries(sha, root, f, g, es, fs);
    SameEntriesSameFiles(sha, root, f, g);
  }

  // ---------------------------------------------------------------------------
  // What the drift check sees
  // ---------------------------------------------------------------------------

  /** The index of the last dot, or -1. */
  function LastDot(name: string): (i: int)
    ensures -1 <= i < |name|
    ensures i >= 0 ==> name[i] == '.'
    ensures forall j :: i < j < |name| ==> name[j] != '.'
  {
    if name == "" then -1
    else if name[|name| - 1] == '.' then |name| - 1
    else LastDot(name[..|name| - 1])
  }

  /** `path.suffix`: from the last dot on, unless the name starts or ends with it. */
  function Suffix(name: string): string {
    var i := LastDot(name);
    if 0 < i < |name| - 1 then name[i..] else ""
  }

  lemma BytecodeIsSuffix(name: string)
    ensures IsBytecode(name) <==> Suffix(name) == ".pyc"
  {
    var i, n := LastDot(name), |name|;
    assert ".pyc" == ['.', 'p', 'y', 'c'];
    if IsBytecode(name) {
      assert name[n - 4..][0] == name[n - 4] && name[n - 4..][1] == name[n - 3];
      assert name[n - 4..][2] == name[n - 2] && name[n - 4..][3] == name[n - 1];
      assert i == n - 4;
    }
    if Suffix(name) == ".pyc" {
      assert |name[i..]| == 4;
    }
  }

  /** A path below the root is left out exactly when it is under `plans` or `.runtime_state`, has a `__pycache__` part,
      or
      has the suffix `.pyc`. */
  lemma CoveredMeans(rel: Path)
    requires rel != []
    ensures !Covered(rel) <==>
            || rel[0] == "plans" || rel[0] == ".runtime_state"
            || (exists k :: 0 <= k < |rel| && rel[k] == "__pycache__")
            || Suffix(rel[|rel| - 1]) == ".pyc"
  {
    BytecodeIsSuffix(rel[|rel| - 1]);
  }

  /** Creating, changing or removing one file changes the fingerprint exactly when the file is covered. */
  lemma DriftCheckSees(sha: string -> string, root: Path, f: Files, rel: Path, state: Option<string>, es: seq<Path>,
                       fs: seq<Path>)
    requires HexDigests(sha) && PlanHash.CollisionFree(sha)
    requires PlainNames(f) && IsPath(root + rel) && OneLine(root + rel) && rel != []
    requires StateAt(f, root + rel) != state
    requires Scans(root, f, es) && Scans(root, SetState(f, root + rel, state), fs)
    ensures WorkspaceFingerprint(sha, root, f, es) == WorkspaceFingerprint(sha,
        root, SetState(f, root + rel, state), fs)
            <==> !Covered(rel)
  {
    var p, g := root + rel, SetState(f, root + rel, state);
    assert p[|root|..] == rel && Under(root, p);
    FingerprintIdentifiesFiles(sha, root, f, g, es, fs);
    OneFileCovered(root, f, p, state);
  }

  lemma OneFileCovered(root: Path, f: Files, p: Path, state: Option<string>)
    requires StateAt(f, p) != state && Under(root, p)
    ensures CoveredFiles(root, f) == CoveredFiles(root, SetState(f, p, state)) <==> !Covered(p[|root|..])
  {
    var g := SetState(f, p, state);
    var cf, cg := CoveredFiles(root, f), CoveredFiles(root, g);
    if Covered(p[|root|..]) {
      assert StateAt(cf, p) == StateAt(f, p) && StateAt(cg, p) == state;
    } else {
      forall q ensures StateAt(cf, q) == StateAt(cg, q) {
        assert q != p ==> StateAt(f, q) == StateAt(g, q);
      }
      forall q | q in cf ensures q in cg && cf[q] == cg[q] { assert StateAt(cf, q) == StateAt(cg, q); }
      forall q | q in cg ensures q in cf { assert StateAt(cf, q) == StateAt(cg, q); }
    }
  }
}
