/** The limit of the fingerprint's row format: which file sets share their payload with differently named files. */
module FingerprintTwins {

  import opened Text
  import opened Paths
  import Ordering
  import opened Workspace
  import opened Fingerprint
  import PlanHash

  // ---------------------------------------------------------------------------
  // Joining
  // ---------------------------------------------------------------------------

  lemma {:induction false} JoinConcat(a: seq<string>, b: seq<string>, sep: char)
    requires a != [] && b != []
    ensures Join(a + b, sep) == Join(a, sep) + [sep] + Join(b, sep)
  {
    if |a| == 1 {
      assert (a + b)[1..] == b;
    } else {
      assert (a + b)[1..] == a[1..] + b;
      JoinConcat(a[1..], b, sep);
    }
  }

  /** A run of lines joined into one line changes nothing in the joined text. */
  lemma JoinRegroup(a: seq<string>, b: seq<string>, c: seq<string>, sep: char)
    requires b != []
    ensures Join(a + [Join(b, sep)] + c, sep) == Join(a + b + c, sep)
  {
    var one := [Join(b, sep)];
    assert Join(one, sep) == Join(b, sep);
    JoinTail(one, b, c, sep);
    if a != [] {
      JoinConcat(a, one + c, sep);
      JoinConcat(a, b + c, sep);
      assert a + one + c == a + (one + c) && a + b + c == a + (b + c);
    } else {
      assert a + one + c == one + c && a + b + c == b + c;
    }
  }

  lemma JoinTail(a: seq<string>, b: seq<string>, c: seq<string>, sep: char)
    requires a != [] && b != [] && Join(a, sep) == Join(b, sep)
    ensures Join(a + c, sep) == Join(b + c, sep)
  {
    if c != [] {
      JoinConcat(a, c, sep);
      JoinConcat(b, c, sep);
    } else {
      assert a + c == a && b + c == b;
    }
  }

  // ---------------------------------------------------------------------------
  // Gluing names
  // ---------------------------------------------------------------------------

  /** The path whose text is that of `a`, then `s`, then that of `b`. */
  function Glue(a: Path, s: string, b: Path): (r: Path)
    requires a != [] && b != []
    ensures |r| == |a| + |b| - 1
  {
    a[..|a| - 1] + [a[|a| - 1] + s + b[0]] + b[1..]
  }

  lemma JoinFirst(x: string, y: string, rest: seq<string>, sep: char)
    ensures Join([x + y] + rest, sep) == x + Join([y] + rest, sep)
  {
    assert ([x + y] + rest)[1..] == rest && ([y] + rest)[1..] == rest;
    if rest != [] {
      assert (x + y) + [sep] + Join(rest, sep) == x + (y + [sep] + Join(rest, sep));
    }
  }

  lemma {:induction false} JoinGlue(a: Path, s: string, b: Path)
    requires a != [] && b != []
    ensures Join(Glue(a, s, b), '/') == Join(a, '/') + s + Join(b, '/')
  {
    if |a| == 1 {
      assert Glue(a, s, b) == [a[0] + s + b[0]] + b[1..] && [b[0]] + b[1..] == b;
      JoinFirst(a[0] + s, b[0], b[1..], '/');
    } else {
      JoinGlue(a[1..], s, b);
      assert Glue(a, s, b) == [a[0]] + Glue(a[1..], s, b);
      assert Glue(a, s, b)[1..] == Glue(a[1..], s, b);
      assert a[0] + ['/'] + (Join(a[1..], '/') + s + Join(b, '/')) ==
          (a[0] + ['/'] + Join(a[1..], '/')) + s + Join(b, '/');
    }
  }

  predicate EndsInPyc(name: string) {
    |name| >= 4 && name[|name| - 4..] == ".pyc"
  }

  /** A covered path that stays covered when more text is glued in front of it. */
  ghost predicate Gluable(c: Path) {
    IsPath(c) && Covered(c) && (|c| == 1 ==> !EndsInPyc(c[0]))
  }

  /** The text glued between two names: the end of a row and the line break. */
  ghost predicate IsRowEnd(s: string) {
    |s| > 0 && s[|s| - 1] == '\n' && '|' in s && '/' !in s && NUL !in s
  }

  lemma GluedNameIsComponent(x: string, s: string, y: string)
    requires IsComponent(x) && IsComponent(y) && IsRowEnd(s)
    ensures var name := x + s + y;
            && IsComponent(name) && '|' in name && '\n' in name
            && (EndsInPyc(name) ==> EndsInPyc(y))
  {
    var name := x + s + y;
    assert forall c :: c in name <==> c in x || c in s || c in y;
    assert '\n' in s by { assert s[|s| - 1] in s; }
    assert '|' !in "." && '|' !in "..";
    EndOfGlued(x + s, y);
  }

  lemma EndOfGlued(front: string, y: string)
    requires |front| > 0 && front[|front| - 1] == '\n'
    ensures EndsInPyc(front + y) ==> EndsInPyc(y)
  {
    var name := front + y;
    assert '\n' !in ".pyc";
    if |name| >= 4 && |y| < 4 {
      assert name[|name| - 4..][3 - |y|] == front[|front| - 1];
    } else if |name| >= 4 {
      assert name[|name| - 4..] == y[|y| - 4..];
    }
  }

  lemma BarredNamesAreOrdinary(name: string)
    requires '|' in name
    ensures name !in EXCLUDED_TOP_LEVEL && name != "__pycache__"
  {
    assert '|' !in "plans" && '|' !in ".runtime_state" && '|' !in "__pycache__";
  }

  /** Gluing covered names gives a covered name. */
  lemma GlueIsGluable(a: Path, s: string, b: Path)
    requires IsPath(a) && Covered(a) && Gluable(b) && IsRowEnd(s)
    ensures Gluable(Glue(a, s, b)) && !OneLine(Glue(a, s, b))
  {
    var r, k := Glue(a, s, b), |a| - 1;
    assert a[k] in a && b[0] in b;
    GluedNameIsComponent(a[k], s, b[0]);
    BarredNamesAreOrdinary(r[k]);
    assert r[k] in r;
    forall c | c in r ensures IsComponent(c) && c != "__pycache__" {
      assert c == r[k] || c in a || c in b;
    }
    assert r[0] == if k == 0 then a[0] + s + b[0] else a[0];
    assert r[|r| - 1] == if |b| == 1 then r[k] else b[|b| - 1];
  }

  // ---------------------------------------------------------------------------
  // Listings as entries
  // ---------------------------------------------------------------------------

  /** A covered file: its workspace-relative path and its text. */
  datatype Entry = Entry(rel: Path, text: string)

  function EntryRow(sha: string -> string, e: Entry): string {
    RowText(Join(e.rel, '/'), Utf8Size(e.text), sha(e.text))
  }

  function EntryRows(sha: string -> string, es: seq<Entry>): (rows: seq<string>)
    ensures |rows| == |es| && forall k :: 0 <= k < |es| ==> rows[k] == EntryRow(sha, es[k])
  {
    seq(|es|, k requires 0 <= k < |es| => EntryRow(sha, es[k]))
  }

  /** A listing the fingerprint could have: covered paths with proper names, sorted. */
  ghost predicate IsListing(es: seq<Entry>) {
    && (forall k :: 0 <= k < |es| ==> IsPath(es[k].rel) && Covered(es[k].rel))
    && (forall i, j :: 0 <= i < j < |es| ==> PathLess(es[i].rel, es[j].rel))
  }

  function EntryOf(root: Path, f: Files, p: Path): Entry
    requires CoveredFile(root, f, p)
  {
    Entry(p[|root|..], f[p])
  }

  function EntriesOf(root: Path, f: Files, kept: seq<Path>): (es: seq<Entry>)
    requires forall k :: 0 <= k < |kept| ==> CoveredFile(root, f, kept[k])
    ensures |es| == |kept|
    ensures forall k :: 0 <= k < |kept| ==> es[k] == EntryOf(root, f, kept[k])
  {
    seq(|kept|, k requires 0 <= k < |kept| => EntryOf(root, f, kept[k]))
  }

  lemma {:induction false} PathLessUnderRoot(root: Path, a: Path, b: Path)
    ensures PathLess(root + a, root + b) <==> PathLess(a, b)
  {
    if root != [] {
      PathLessUnderRoot(root[1..], a, b);
      assert (root + a)[1..] == root[1..] + a && (root + b)[1..] == root[1..] + b;
    } else {
      assert root + a == a && root + b == b;
    }
  }

  /** The covered files of a scan are such a listing, and its rows make up the payload. */
  lemma ListingOfFiles(sha: string -> string, root: Path, f: Files, scan: seq<Path>)
    requires ProperNames(f)
    ensures var es := EntriesOf(root, f, CoveredPaths(root, f, scan));
            && IsListing(es)
            && Rows(sha, root, f, CoveredPaths(root, f, scan)) == EntryRows(sha, es)
            && Payload(sha, root, f, scan) == Join(EntryRows(sha, es), '\n')
  {
    var kept := CoveredPaths(root, f, scan);
    assert forall k :: 0 <= k < |kept| ==> kept[k] in kept;
    var es := EntriesOf(root, f, kept);
    forall k | 0 <= k < |es| ensures IsPath(es[k].rel) && Covered(es[k].rel) && kept[k] == root + es[k].rel {
      assert kept[k] in kept;
      forall c | c in es[k].rel ensures IsComponent(c) { assert c in kept[k]; }
    }
    forall i, j | 0 <= i < j < |es| ensures PathLess(es[i].rel, es[j].rel) {
      assert PathLess(kept[i], kept[j]);
      PathLessUnderRoot(root, es[i].rel, es[j].rel);
    }
    assert Rows(sha, root, f, kept) == EntryRows(sha, es);
  }

  /** The files of a listing. */
  function FilesOf(root: Path, es: seq<Entry>): Files {
    if es == [] then map[] else FilesOf(root, es[..|es| - 1])[root + es[|es| - 1].rel := es[|es| - 1].text]
  }

  function PathsOf(root: Path, es: seq<Entry>): (ps: seq<Path>)
    ensures |ps| == |es| && forall k :: 0 <= k < |es| ==> ps[k] == root + es[k].rel
  {
    seq(|es|, k requires 0 <= k < |es| => root + es[k].rel)
  }

  lemma LastRelIsNew(root: Path, es: seq<Entry>)
    requires IsListing(es) && es != []
    ensures forall k :: 0 <= k < |es| - 1 ==> root + es[k].rel != root + es[|es| - 1].rel
  {
    var last := es[|es| - 1].rel;
    forall k | 0 <= k < |es| - 1 ensures root + es[k].rel != root + last {
      assert PathLess(es[k].rel, last);
      PathLessIsIrreflexive(last);
      assert (root + es[k].rel)[|root|..] == es[k].rel && (root + last)[|root|..] == last;
    }
  }

  lemma {:induction false} FilesOfHolds(root: Path, es: seq<Entry>)
    requires IsListing(es)
    ensures forall k :: 0 <= k < |es| ==> HasEntry(FilesOf(root, es), root, es[k])
    ensures forall p :: p in FilesOf(root, es) ==> p in PathsOf(root, es)
  {
    if es != [] {
      var n := |es| - 1;
      FilesOfHolds(root, es[..n]);
      LastRelIsNew(root, es);
      forall k | 0 <= k < n ensures HasEntry(FilesOf(root, es), root, es[k]) {
        assert es[..n][k] == es[k];
      }
      var paths, before := PathsOf(root, es), PathsOf(root, es[..n]);
      assert paths == before + [root + es[n].rel];
    }
  }

  predicate HasEntry(files: Files, root: Path, e: Entry) {
    root + e.rel in files && files[root + e.rel] == e.text
  }

  lemma {:induction false} KeepsAll(root: Path, files: Files, listing: seq<Path>)
    requires forall p :: p in listing ==> CoveredFile(root, files, p)
    ensures Kept(root, files, listing) == listing
  {
    if listing != [] {
      KeepsAll(root, files, listing[1..]);
      assert listing == [listing[0]] + listing[1..];
    }
  }

  /** Every listing is that of a file set with proper names. */
  lemma ListingIsRealized(sha: string -> string, root: Path, es: seq<Entry>)
    requires IsPath(root) && IsListing(es)
    ensures var g, scan := FilesOf(root, es), PathsOf(root, es);
            && ProperNames(g) && Scans(root, g, scan)
            && (forall k :: 0 <= k < |es| ==> CoveredFile(root, g, root + es[k].rel))
            && Payload(sha, root, g, scan) == Join(EntryRows(sha, es), '\n')
  {
    var g, scan := FilesOf(root, es), PathsOf(root, es);
    FilesOfHolds(root, es);
    forall k | 0 <= k < |es| ensures CoveredFile(root, g, scan[k]) && IsPath(scan[k]) {
      assert scan[k][|root|..] == es[k].rel;
    }
    forall i, j | 0 <= i < j < |scan| ensures PathLess(scan[i], scan[j]) {
      PathLessUnderRoot(root, es[i].rel, es[j].rel);
    }
    SortedPathsAreUnique(SortPaths(scan), scan);
    KeepsAll(root, g, scan);
    assert CoveredPaths(root, g, scan) == scan;
    var rows := Rows(sha, root, g, scan);
    forall k | 0 <= k < |es| ensures rows[k] == EntryRow(sha, es[k]) {
      assert scan[k][|root|..] == es[k].rel;
    }
    assert rows == EntryRows(sha, es);
  }

  // ---------------------------------------------------------------------------
  // One name for several rows
  // ---------------------------------------------------------------------------

  function RowEnd(sha: string -> string, text: string): string {
    "|" + Decimal(Utf8Size(text)) + "|" + sha(text) + "\n"
  }

  ghost predicate HaveNames(group: seq<Entry>) {
    forall k :: 0 <= k < |group| ==> group[k].rel != []
  }

  /** The name whose row is the rows of the whole group: all rows but the last, and then the last name. */
  ghost function MergedName(sha: string -> string, group: seq<Entry>): (r: Path)
    requires group != [] && HaveNames(group)
    ensures r != []
  {
    if |group| == 1 then group[0].rel
    else Glue(group[0].rel, RowEnd(sha, group[0].text), MergedName(sha, group[1..]))
  }

  ghost function Merged(sha: string -> string, group: seq<Entry>): Entry
    requires group != [] && HaveNames(group)
  {
    Entry(MergedName(sha, group), group[|group| - 1].text)
  }

  lemma RowEndIsRowEnd(sha: string -> string, text: string)
    requires HexDigests(sha)
    ensures IsRowEnd(RowEnd(sha, text))
  {
    var digits := Decimal(Utf8Size(text));
    HexHasNoBar(sha, text);
    DigitsAreNot(digits, '/');
    DigitsAreNot(digits, NUL);
    var s := RowEnd(sha, text);
    assert s[0] == '|' && s[0] in s;
  }

  lemma RowOfGlued(first: string, size: nat, digest: string, rel: string, size': nat, digest': string)
    ensures RowText(first + ("|" + Decimal(size) + "|" + digest + "\n") + rel, size', digest')
         == RowText(first, size, digest) + ['\n'] + RowText(rel, size', digest')
  {
  }

  /** The row of the merged entry is the rows of the group, joined by line breaks. */
  lemma {:induction false} MergedRow(sha: string -> string, group: seq<Entry>)
    requires group != [] && HaveNames(group)
    ensures EntryRow(sha, Merged(sha, group)) == Join(EntryRows(sha, group), '\n')
  {
    var rows := EntryRows(sha, group);
    if |group| > 1 {
      MergedRow(sha, group[1..]);
      assert rows[1..] == EntryRows(sha, group[1..]);
      GluedRow(sha, group[0], Merged(sha, group[1..]));
      assert Merged(sha, group)
          == Entry(Glue(group[0].rel, RowEnd(sha, group[0].text), MergedName(sha, group[1..])),
                   group[|group| - 1].text);
    }
  }

  lemma GluedRow(sha: string -> string, e: Entry, inner: Entry)
    requires e.rel != [] && inner.rel != []
    ensures EntryRow(sha, Entry(Glue(e.rel, RowEnd(sha, e.text), inner.rel), inner.text))
         == EntryRow(sha, e) + ['\n'] + EntryRow(sha, inner)
  {
    JoinGlue(e.rel, RowEnd(sha, e.text), inner.rel);
    RowOfGlued(Join(e.rel, '/'), Utf8Size(e.text), sha(e.text),
               Join(inner.rel, '/'), Utf8Size(inner.text), sha(inner.text));
  }

  /** A top-level file named just `.pyc` is covered, and no longer when text is glued in front of its name. */
  const BARE_PYC: Path := [".pyc"]

  lemma CoveredIsGluable(c: Path)
    requires IsPath(c) && Covered(c) && c != BARE_PYC
    ensures Gluable(c)
  {
    assert |c| == 1 && |c[0]| == 4 ==> c[0][0..] == c[0] && c == [c[0]];
  }

  lemma {:induction false} MergedNameIsGluable(sha: string -> string, group: seq<Entry>)
    requires HexDigests(sha) && group != [] && HaveNames(group)
    requires forall k :: 0 <= k < |group| ==> IsPath(group[k].rel) && Covered(group[k].rel)
    requires group[|group| - 1].rel != BARE_PYC
    ensures Gluable(MergedName(sha, group))
    ensures |group| > 1 ==> !OneLine(MergedName(sha, group))
  {
    if |group| > 1 {
      MergedNameIsGluable(sha, group[1..]);
      RowEndIsRowEnd(sha, group[0].text);
      GlueIsGluable(group[0].rel, RowEnd(sha, group[0].text), MergedName(sha, group[1..]));
    } else {
      CoveredIsGluable(group[0].rel);
    }
  }

  // ---------------------------------------------------------------------------
  // The twin
  // ---------------------------------------------------------------------------

  /** The listing with the entries `i` to `j` merged into one. */
  ghost function Regrouped(sha: string -> string, es: seq<Entry>, i: nat, j: nat): seq<Entry>
    requires i <= j < |es| && HaveNames(es)
  {
    es[..i] + [Merged(sha, es[i..j + 1])] + es[j + 1..]
  }

  lemma RegroupedRows(sha: string -> string, es: seq<Entry>, i: nat, j: nat)
    requires i <= j < |es| && HaveNames(es)
    ensures var rows := EntryRows(sha, es);
            EntryRows(sha, Regrouped(sha, es, i, j)) == rows[..i] + [Join(rows[i..j + 1], '\n')] + rows[j + 1..]
  {
    var rows, group := EntryRows(sha, es), es[i..j + 1];
    MergedRow(sha, group);
    assert EntryRows(sha, group) == rows[i..j + 1];
    RowsOfParts(sha, es[..i], Merged(sha, group), es[j + 1..]);
    assert EntryRows(sha, es[..i]) == rows[..i] && EntryRows(sha, es[j + 1..]) == rows[j + 1..];
  }

  lemma RowsOfParts(sha: string -> string, a: seq<Entry>, e: Entry, c: seq<Entry>)
    ensures EntryRows(sha, a + [e] + c) == EntryRows(sha, a) + [EntryRow(sha, e)] + EntryRows(sha, c)
  {
  }

  /** Merging entries leaves the payload as it is. */
  lemma RegroupedPayload(sha: string -> string, es: seq<Entry>, i: nat, j: nat)
    requires i <= j < |es| && HaveNames(es)
    ensures Join(EntryRows(sha, Regrouped(sha, es, i, j)), '\n') == Join(EntryRows(sha, es), '\n')
  {
    var rows := EntryRows(sha, es);
    RegroupedRows(sha, es, i, j);
    JoinRegroup(rows[..i], rows[i..j + 1], rows[j + 1..], '\n');
    assert rows[..i] + rows[i..j + 1] + rows[j + 1..] == rows;
  }

  // ---------------------------------------------------------------------------
  // Order
  // ---------------------------------------------------------------------------

  lemma {:induction false} LessGrows(a: string, b: string, w: string)
    requires Ordering.Less(a, b)
    ensures Ordering.Less(a, b + w) && a != b + w
  {
    if a != "" && a[0] == b[0] {
      LessGrows(a[1..], b[1..], w);
      assert (b + w)[1..] == b[1..] + w;
    }
  }

  lemma {:induction false} NoPrefixStaysLess(a: string, b: string, w: string)
    requires Ordering.Less(a, b) && !(a <= b)
    ensures Ordering.Less(a + w, b)
  {
    if a[0] == b[0] {
      assert a == [a[0]] + a[1..] && b == [b[0]] + b[1..];
      NoPrefixStaysLess(a[1..], b[1..], w);
      assert (a + w)[1..] == a[1..] + w;
    }
  }

  /** What sorts before a path sorts before every name glued from it. */
  lemma {:induction false} PathLessGrows(p: Path, a: Path, s: string, b: Path)
    requires a != [] && b != [] && PathLess(p, a)
    ensures PathLess(p, Glue(a, s, b))
  {
    if p != [] {
      var r := Glue(a, s, b);
      if |a| == 1 {
        assert p[0] != a[0];
        LessGrows(p[0], a[0], s + b[0]);
        assert r[0] == a[0] + (s + b[0]);
      } else {
        assert r[0] == a[0];
        if p[0] == a[0] {
          PathLessGrows(p[1..], a[1..], s, b);
          assert r[1..] == Glue(a[1..], s, b);
        }
      }
    }
  }

  /** The only names before `.pyc` whose glued names sort after it. */
  const SHORT_PYC: set<Path> := {[".p"], [".py"]}

  lemma PrefixOfPyc(a: string)
    requires a <= ".pyc" && IsComponent(a) && a != ".pyc"
    ensures [a] in SHORT_PYC
  {
    assert a == ".pyc"[..|a|];
    assert ".pyc"[..1] == "." && ".pyc"[..2] == ".p" && ".pyc"[..3] == ".py";
  }

  lemma BeforePyc(a: Path)
    requires a != [] && PathLess(a, BARE_PYC)
    ensures a[0] != ".pyc" && Ordering.Less(a[0], ".pyc")
  {
    assert BARE_PYC[1..] == [];
  }

  /** A name glued from any other path before `.pyc` still sorts before it. */
  lemma GluedStaysBeforePyc(a: Path, s: string, b: Path)
    requires a != [] && b != [] && IsPath(a) && PathLess(a, BARE_PYC) && a !in SHORT_PYC
    ensures PathLess(Glue(a, s, b), BARE_PYC)
  {
    var r := Glue(a, s, b);
    BeforePyc(a);
    if |a| == 1 {
      assert a[0] in a && a == [a[0]];
      if a[0] <= ".pyc" {
        PrefixOfPyc(a[0]);
      }
      NoPrefixStaysLess(a[0], ".pyc", s + b[0]);
      assert r[0] == a[0] + (s + b[0]);
      assert a[0] <= r[0];
    } else {
      assert r[0] == a[0];
    }
  }

  // ---------------------------------------------------------------------------
  // Which file sets have a twin
  // ---------------------------------------------------------------------------

  /** At most one covered file; or the last one is a top-level `.pyc`, and all but the last two are top-level `.p` or
      `.py`. */
  ghost predicate SelfEvident(es: seq<Entry>) {
    || |es| <= 1
    || (es[|es| - 1].rel == BARE_PYC && forall k :: 0 <= k < |es| - 2 ==> es[k].rel in SHORT_PYC)
  }

  lemma ListingHasNames(es: seq<Entry>)
    requires IsListing(es)
    ensures HaveNames(es)
  {
  }

  /** Every other listing has a group that can be merged, under a name of several lines. */
  lemma MergeableGroup(sha: string -> string, es: seq<Entry>) returns (i: nat, j: nat)
    requires HexDigests(sha) && IsListing(es) && HaveNames(es) && !SelfEvident(es)
    ensures i < j < |es|
    ensures IsListing(Regrouped(sha, es, i, j)) && !OneLine(Regrouped(sha, es, i, j)[i].rel)
  {
    var n := |es|;
    if es[n - 1].rel != BARE_PYC {
      i, j := 0, n - 1;
      assert es[..n] == es;
      MergedNameIsGluable(sha, es);
      assert Regrouped(sha, es, 0, n - 1) == [Merged(sha, es)];
    } else {
      i :| 0 <= i < n - 2 && es[i].rel !in SHORT_PYC;
      j := n - 2;
      assert PathLess(es[j].rel, es[n - 1].rel);
      PathLessIsIrreflexive(BARE_PYC);
      MergedBeforePyc(sha, es, i);
    }
  }

  lemma ListingWithMerged(es: seq<Entry>, i: nat, e: Entry)
    requires IsListing(es) && i < |es| - 1 && IsPath(e.rel) && Covered(e.rel)
    requires forall k :: 0 <= k < i ==> PathLess(es[k].rel, e.rel)
    requires PathLess(e.rel, es[|es| - 1].rel)
    ensures IsListing(es[..i] + [e] + [es[|es| - 1]])
  {
  }

  lemma MergedComesBetween(sha: string -> string, es: seq<Entry>, i: nat)
    requires HexDigests(sha) && IsListing(es) && HaveNames(es) && i < |es| - 2
    requires es[|es| - 1].rel == BARE_PYC && es[i].rel !in SHORT_PYC
    ensures var merged := MergedName(sha, es[i..|es| - 1]);
            PathLess(merged, BARE_PYC) && forall k :: 0 <= k < i ==> PathLess(es[k].rel, merged)
  {
    var group := es[i..|es| - 1];
    var end, inner := RowEnd(sha, es[i].text), MergedName(sha, group[1..]);
    assert group[0] == es[i] && MergedName(sha, group) == Glue(es[i].rel, end, inner);
    assert PathLess(es[i].rel, es[|es| - 1].rel);
    GluedStaysBeforePyc(es[i].rel, end, inner);
    forall k | 0 <= k < i ensures PathLess(es[k].rel, Glue(es[i].rel, end, inner)) {
      assert PathLess(es[k].rel, es[i].rel);
      PathLessGrows(es[k].rel, es[i].rel, end, inner);
    }
  }

  lemma MergedBeforePyc(sha: string -> string, es: seq<Entry>, i: nat)
    requires HexDigests(sha) && IsListing(es) && HaveNames(es) && i < |es| - 2
    requires es[|es| - 1].rel == BARE_PYC && es[|es| - 2].rel != BARE_PYC && es[i].rel !in SHORT_PYC
    ensures IsListing(Regrouped(sha, es, i, |es| - 2)) && !OneLine(Regrouped(sha, es, i, |es| - 2)[i].rel)
  {
    var group := es[i..|es| - 1];
    MergedNameIsGluable(sha, group);
    MergedComesBetween(sha, es, i);
    ListingWithMerged(es, i, Merged(sha, group));
    assert Regrouped(sha, es, i, |es| - 2) == es[..i] + [Merged(sha, group)] + [es[|es| - 1]];
  }

  /** A listing that is not self-evident shares its rows' text with one that holds a name of several lines. */
  lemma TwinListing(sha: string -> string, es: seq<Entry>) returns (twin: seq<Entry>, i: nat)
    requires HexDigests(sha) && IsListing(es) && !SelfEvident(es)
    ensures IsListing(twin) && i < |twin| && !OneLine(twin[i].rel)
    ensures Join(EntryRows(sha, twin), '\n') == Join(EntryRows(sha, es), '\n')
  {
    ListingHasNames(es);
    var k, j := MergeableGroup(sha, es);
    RegroupedPayload(sha, es, k, j);
    i, twin := k, Regrouped(sha, es, k, j);
  }

  /** Every file set with plain names that is not self-evident has a twin: other files, with proper names that hold line
      breaks, and the same payload, for every digest. */
  lemma NewlineMakesPayloadAmbiguous(sha: string -> string, root: Path, f: Files, scan: seq<Path>)
    returns (g: Files, scan': seq<Path>)
    requires HexDigests(sha) && IsPath(root) && PlainNames(f)
    requires !SelfEvident(EntriesOf(root, f, CoveredPaths(root, f, scan)))
    ensures ProperNames(g) && Scans(root, g, scan') && Payload(sha, root, g, scan') == Payload(sha, root, f, scan)
    ensures !SameCovered(sha, root, f, g) && CoveredFiles(root, f) != CoveredFiles(root, g)
  {
    ListingOfFiles(sha, root, f, scan);
    var twin, i := TwinListing(sha, EntriesOf(root, f, CoveredPaths(root, f, scan)));
    ListingIsRealized(sha, root, twin);
    g, scan' := FilesOf(root, twin), PathsOf(root, twin);
    assert CoveredFile(root, g, root + twin[i].rel);
    NotAmongPlainNames(root, f, twin[i].rel);
    OneMoreCovered(sha, root, f, g, root + twin[i].rel);
  }

  lemma OneMoreCovered(sha: string -> string, root: Path, f: Files, g: Files, p: Path)
    requires CoveredFile(root, g, p) && p !in f
    ensures !SameCovered(sha, root, f, g) && CoveredFiles(root, f) != CoveredFiles(root, g)
  {
    assert p in CoveredFiles(root, g) && p !in CoveredFiles(root, f);
    assert !SameEntry(sha, f, g, p);
  }

  lemma NotAmongPlainNames(root: Path, f: Files, rel: Path)
    requires PlainNames(f) && !OneLine(rel)
    ensures root + rel !in f
  {
    var c :| c in rel && '\n' in c;
    assert c in root + rel;
  }

  // ---------------------------------------------------------------------------
  // Self-evident file sets have none
  // ---------------------------------------------------------------------------

  lemma JoinStarts(s: seq<string>, sep: char)
    requires s != []
    ensures s[0] <= Join(s, sep)
    ensures |s| > 1 ==> sep in Join(s, sep) && Join(s, sep) == s[0] + [sep] + Join(s[1..], sep)
  {
    if |s| > 1 {
      assert Join(s, sep)[|s[0]|] == sep;
    }
  }

  /** Lines are fixed by their joined text against any row list in which no row starts with a full earlier line. */
  lemma {:induction false} LinesAreFixed(lines: seq<string>, rows: seq<string>)
    requires forall k :: 0 <= k < |lines| ==> lines[k] != "" && '\n' !in lines[k]
    requires forall k :: 0 <= k < |rows| ==> rows[k] != ""
    requires forall i, k :: 0 <= i < |lines| - 1 && 0 <= k < |rows| ==> !(lines[i] + "\n" <= rows[k])
    requires Join(lines, '\n') == Join(rows, '\n')
    ensures lines == rows
  {
    if lines != [] && rows != [] {
      JoinStarts(lines, '\n');
      JoinStarts(rows, '\n');
      if |lines| > 1 {
        FirstLineIsFixed(lines[0], Join(lines[1..], '\n'), rows);
        LinesAreFixed(lines[1..], rows[1..]);
        assert lines == [lines[0]] + lines[1..] && rows == [rows[0]] + rows[1..];
      }
    } else if lines != [] {
      JoinStarts(lines, '\n');
    } else if rows != [] {
      JoinStarts(rows, '\n');
    }
  }

  /** Two texts that agree up to a line break: the first parts are equal, or one of them holds the line break. */
  lemma FirstPartsCompare(line: string, rest: string, row: string, more: string)
    requires line + ['\n'] + rest == row + ['\n'] + more
    ensures |row| > |line| ==> line + "\n" <= row
    ensures |row| < |line| ==> '\n' in line
    ensures |row| == |line| ==> row == line && rest == more
  {
    var text := line + ['\n'] + rest;
    assert line + "\n" == text[..|line| + 1] && row == text[..|row|];
    assert rest == text[|line| + 1..] && more == text[|row| + 1..];
    if |row| < |line| {
      assert line[|row|] == text[|row|] == '\n';
    }
  }

  lemma FirstLineIsFixed(line: string, rest: string, rows: seq<string>)
    requires '\n' !in line && rows != [] && !(line + "\n" <= rows[0])
    requires Join(rows, '\n') == line + ['\n'] + rest
    ensures |rows| > 1 && rows[0] == line && Join(rows[1..], '\n') == rest
  {
    JoinStarts(rows, '\n');
    assert line + "\n" == (line + ['\n'] + rest)[..|line| + 1];
    if |rows| > 1 {
      FirstPartsCompare(line, rest, rows[0], Join(rows[1..], '\n'));
    }
  }

  lemma {:induction false} JoinLast(q: Path) returns (front: string)
    requires q != []
    ensures Join(q, '/') == front + q[|q| - 1] && (front == "" || front[|front| - 1] == '/')
  {
    if |q| == 1 {
      front := "";
    } else {
      var inner := JoinLast(q[1..]);
      front := q[0] + ['/'] + inner;
    }
  }

  /** A character of a text made of two parts is in the part it falls into. */
  lemma PartHolds(a: string, b: string, k: int)
    requires 0 <= k < |a + b|
    ensures (a + b)[k] in if k < |a| then a else b
  {
  }

  /** A slash-free end of a path's text is the end of its last component. */
  lemma LastComponentEnds(q: Path, z: string, t: string)
    requires q != [] && '/' !in t && Join(q, '/') == z + t
    ensures |q[|q| - 1]| >= |t| && q[|q| - 1][|q[|q| - 1]| - |t|..] == t
  {
    var front := JoinLast(q);
    var last := q[|q| - 1];
    if front != "" {
      PartHolds(z, t, |front| - 1);
      assert (front + last)[|front| - 1] == '/';
    }
    assert (z + t)[|z|..] == t && (front + last)[|front|..] == last;
    assert last[|last| - |t|..] == (front + last)[|z|..];
  }

  /** A slash-free start of a path's text is the start of its first component. */
  lemma FirstComponentStarts(q: Path, t: string)
    requires q != [] && '/' !in t && t <= Join(q, '/')
    ensures t <= q[0]
  {
    JoinStarts(q, '/');
    var text := Join(q, '/');
    assert text == t + text[|t|..];
    if |q| > 1 {
      assert text[|q[0]|] == '/';
      PartHolds(t, text[|t|..], |q[0]|);
    }
  }

  lemma {:induction false} TextOfBarePyc(q: Path)
    requires IsPath(q) && Join(q, '/') == ".pyc"
    ensures q == BARE_PYC
  {
    if q != [] {
      forall c | c in q ensures '/' !in c { assert IsComponent(c); }
      SplitJoin(q, '/');
      SplitOfUnseparated(".pyc", '/');
    }
  }

  /** A covered path whose text completes `.pyc` at the start of a line is the bare one, on the same line. */
  lemma CompletesPyc(x: string, y: string, q: Path)
    requires IsPath(q) && Covered(q) && x + ".pyc" == y + Join(q, '/')
    requires |x| > 0 && x[|x| - 1] == '\n' && (y == "" || y[|y| - 1] == '\n')
    ensures y == x && q == BARE_PYC
  {
    var text, rel := x + ".pyc", Join(q, '/');
    assert '\n' !in ".pyc" && '/' !in "\n.pyc";
    if y != "" {
      assert text[|y| - 1] == '\n';
      PartHolds(x, ".pyc", |y| - 1);
    }
    if |y| < |x| {
      var z := x[|y|..|x| - 1];
      assert x == x[..|x| - 1] + "\n";
      assert rel == text[|y|..] == z + "\n.pyc";
      BytecodeIsNotCovered(q, z);
    } else {
      assert y == text[..|x|] == x && rel == text[|x|..] == ".pyc";
      TextOfBarePyc(q);
    }
  }

  lemma BytecodeIsNotCovered(q: Path, z: string)
    requires q != [] && Join(q, '/') == z + "\n.pyc"
    ensures !Covered(q)
  {
    LastComponentEnds(q, z, "\n.pyc");
    EndsAfterBreak(q[|q| - 1]);
  }

  lemma EndsAfterBreak(name: string)
    requires |name| >= 5 && name[|name| - 5..] == "\n.pyc"
    ensures IsBytecode(name)
  {
    assert name[|name| - 4..] == name[|name| - 5..][1..] == ".pyc";
  }

  lemma {:induction false} LessUnderPrefix(p: string, a: string, b: string)
    ensures Ordering.Less(p + a, p + b) <==> Ordering.Less(a, b)
  {
    if p == "" {
      assert p + a == a && p + b == b;
    } else {
      LessUnderPrefix(p[1..], a, b);
      assert (p + a)[1..] == p[1..] + a && (p + b)[1..] == p[1..] + b;
    }
  }

  lemma BarredShortNames()
    ensures Ordering.Less(".pyc", ".p|") && Ordering.Less(".pyc", ".py|")
  {
    LessUnderPrefix(".p", "yc", "|");
    LessUnderPrefix(".py", "c", "|");
    assert ".pyc" == ".p" + "yc" && ".p|" == ".p" + "|" && ".pyc" == ".py" + "c" && ".py|" == ".py" + "|";
  }

  lemma BarSortsAfterPyc(q: Path)
    requires q != [] && (".p|" <= q[0] || ".py|" <= q[0])
    ensures !PathLess(q, BARE_PYC)
  {
    var front := if ".p|" <= q[0] then ".p|" else ".py|";
    BarredShortNames();
    LessGrows(".pyc", front, q[0][|front|..]);
    assert q[0] == front + q[0][|front|..];
    if PathLess(q, BARE_PYC) {
      BeforePyc(q);
      Ordering.LessIsTransitive(".pyc", q[0], ".pyc");
      Ordering.LessIsIrreflexive(".pyc");
    }
  }

  /** No row that sorts before `.pyc` starts with the full row of a top-level `.p` or `.py`. */
  lemma ShortRowStartsNothing(sha: string -> string, e: Entry, q: Entry)
    requires HexDigests(sha) && e.rel in SHORT_PYC && q.rel != [] && PathLess(q.rel, BARE_PYC)
    ensures !(EntryRow(sha, e) + "\n" <= EntryRow(sha, q))
  {
    var row, rel := EntryRow(sha, e), Join(q.rel, '/');
    ShortRow(sha, e);
    var end := "|" + Decimal(Utf8Size(q.text)) + "|" + sha(q.text);
    HexHasNoBar(sha, q.text);
    DigitsAreNot(Decimal(Utf8Size(q.text)), '\n');
    assert EntryRow(sha, q) == rel + end;
    if row + "\n" <= rel + end {
      BreakLiesInFront(row, rel, end);
      FirstComponentStarts(q.rel, row);
      assert (".p|" <= row ==> ".p|" <= q.rel[0]) && (".py|" <= row ==> ".py|" <= q.rel[0]);
      BarSortsAfterPyc(q.rel);
    }
  }

  lemma BreakLiesInFront(row: string, rel: string, end: string)
    requires row + "\n" <= rel + end && '\n' !in end
    ensures row <= rel
  {
    var text := rel + end;
    assert text[|row|] == (row + "\n")[|row|] == '\n';
    PartHolds(rel, end, |row|);
    assert row == text[..|row|] == rel[..|row|];
  }

  lemma ShortRow(sha: string -> string, e: Entry)
    requires HexDigests(sha) && e.rel in SHORT_PYC
    ensures '/' !in EntryRow(sha, e) && (".p|" <= EntryRow(sha, e) || ".py|" <= EntryRow(sha, e))
  {
    HexHasNoBar(sha, e.text);
    DigitsAreNot(Decimal(Utf8Size(e.text)), '/');
    var row, rest := EntryRow(sha, e), Decimal(Utf8Size(e.text)) + "|" + sha(e.text);
    assert Join(e.rel, '/') == e.rel[0];
    assert row == e.rel[0] + "|" + rest;
    assert row[..|e.rel[0]| + 1] == e.rel[0] + "|";
  }

  /** A payload whose last row is that of a top-level `.pyc` ends in that row for every listing, and the rows before
      agree. */
  lemma LastPycIsFixed(sha: string -> string, es: seq<Entry>, gs: seq<Entry>)
    requires HexDigests(sha) && IsListing(es) && IsListing(gs)
    requires |es| > 1 && es[|es| - 1].rel == BARE_PYC
    requires Join(EntryRows(sha, es), '\n') == Join(EntryRows(sha, gs), '\n')
    ensures |gs| > 1 && gs[|gs| - 1].rel == BARE_PYC
    ensures EntryRow(sha, gs[|gs| - 1]) == EntryRow(sha, es[|es| - 1])
    ensures Join(EntryRows(sha, es[..|es| - 1]), '\n') == Join(EntryRows(sha, gs[..|gs| - 1]), '\n')
  {
    var payload := Join(EntryRows(sha, es), '\n');
    var x := LastRow(sha, es);
    RowIsNotEmpty(sha, es[|es| - 1]);
    assert gs != [];
    var y := LastRow(sha, gs);
    var e, q := es[|es| - 1], gs[|gs| - 1];
    HexHasNoBar(sha, e.text);
    HexHasNoBar(sha, q.text);
    RowAfterFront(x, Join(e.rel, '/'), Utf8Size(e.text), sha(e.text));
    RowAfterFront(y, Join(q.rel, '/'), Utf8Size(q.text), sha(q.text));
    RowIsUnambiguous(x + Join(e.rel, '/'), Utf8Size(e.text), sha(e.text),
                     y + Join(q.rel, '/'), Utf8Size(q.text), sha(q.text));
    assert Join(BARE_PYC, '/') == ".pyc";
    CompletesPyc(x, y, q.rel);
    assert x[..|x| - 1] == y[..|y| - 1];
  }

  lemma RowIsNotEmpty(sha: string -> string, e: Entry)
    ensures EntryRow(sha, e) != ""
  {
  }

  lemma RowAfterFront(front: string, rel: string, size: nat, digest: string)
    ensures front + RowText(rel, size, digest) == RowText(front + rel, size, digest)
  {
  }

  /** The joined rows, split before the last one. */
  lemma LastRow(sha: string -> string, es: seq<Entry>) returns (front: string)
    requires es != []
    ensures Join(EntryRows(sha, es), '\n') == front + EntryRow(sha, es[|es| - 1])
    ensures front == if |es| == 1 then "" else Join(EntryRows(sha, es[..|es| - 1]), '\n') + "\n"
  {
    var n := |es| - 1;
    var rows := EntryRows(sha, es);
    if n == 0 {
      front := "";
    } else {
      front := Join(EntryRows(sha, es[..n]), '\n') + "\n";
      JoinConcat(rows[..n], [rows[n]], '\n');
      assert rows == rows[..n] + [rows[n]] && EntryRows(sha, es[..n]) == rows[..n];
    }
  }

  /** A self-evident listing of one-line rows shares its payload with no other rows. */
  lemma SelfEvidentRows(sha: string -> string, es: seq<Entry>, gs: seq<Entry>)
    requires HexDigests(sha) && IsListing(es) && IsListing(gs) && SelfEvident(es)
    requires forall k :: 0 <= k < |es| ==> '\n' !in EntryRow(sha, es[k])
    requires Join(EntryRows(sha, es), '\n') == Join(EntryRows(sha, gs), '\n')
    ensures EntryRows(sha, es) == EntryRows(sha, gs)
  {
    if |es| <= 1 {
      OneRowIsFixed(sha, es, gs);
    } else {
      PycRowsAreFixed(sha, es, gs);
    }
  }

  lemma PycRowsAreFixed(sha: string -> string, es: seq<Entry>, gs: seq<Entry>)
    requires HexDigests(sha) && IsListing(es) && IsListing(gs) && SelfEvident(es) && |es| > 1
    requires forall k :: 0 <= k < |es| ==> '\n' !in EntryRow(sha, es[k])
    requires Join(EntryRows(sha, es), '\n') == Join(EntryRows(sha, gs), '\n')
    ensures EntryRows(sha, es) == EntryRows(sha, gs)
  {
    LastPycIsFixed(sha, es, gs);
    var n, m := |es| - 1, |gs| - 1;
    BeforeLastPyc(gs);
    ShortRowsAreFixed(sha, es[..n], gs[..m]);
    RowsSnoc(sha, es);
    RowsSnoc(sha, gs);
  }

  lemma BeforeLastPyc(gs: seq<Entry>)
    requires IsListing(gs) && gs != [] && gs[|gs| - 1].rel == BARE_PYC
    ensures var front := gs[..|gs| - 1];
            forall k :: 0 <= k < |front| ==> front[k].rel != [] && PathLess(front[k].rel, BARE_PYC)
  {
  }

  lemma RowsSnoc(sha: string -> string, es: seq<Entry>)
    requires es != []
    ensures EntryRows(sha, es) == EntryRows(sha, es[..|es| - 1]) + [EntryRow(sha, es[|es| - 1])]
  {
  }

  lemma OneRowIsFixed(sha: string -> string, es: seq<Entry>, gs: seq<Entry>)
    requires |es| <= 1 && forall k :: 0 <= k < |es| ==> '\n' !in EntryRow(sha, es[k])
    requires Join(EntryRows(sha, es), '\n') == Join(EntryRows(sha, gs), '\n')
    ensures EntryRows(sha, es) == EntryRows(sha, gs)
  {
    forall e: Entry ensures EntryRow(sha, e) != "" { RowIsNotEmpty(sha, e); }
    LinesAreFixed(EntryRows(sha, es), EntryRows(sha, gs));
  }

  lemma ShortRowsAreFixed(sha: string -> string, es: seq<Entry>, gs: seq<Entry>)
    requires HexDigests(sha)
    requires forall k :: 0 <= k < |es| ==> '\n' !in EntryRow(sha, es[k])
    requires forall k :: 0 <= k < |es| - 1 ==> es[k].rel in SHORT_PYC
    requires forall k :: 0 <= k < |gs| ==> gs[k].rel != [] && PathLess(gs[k].rel, BARE_PYC)
    requires Join(EntryRows(sha, es), '\n') == Join(EntryRows(sha, gs), '\n')
    ensures EntryRows(sha, es) == EntryRows(sha, gs)
  {
    forall e: Entry ensures EntryRow(sha, e) != "" { RowIsNotEmpty(sha, e); }
    var lines, rows := EntryRows(sha, es), EntryRows(sha, gs);
    forall i, k | 0 <= i < |lines| - 1 && 0 <= k < |rows| ensures !(lines[i] + "\n" <= rows[k]) {
      ShortRowStartsNothing(sha, es[i], gs[k]);
    }
    LinesAreFixed(lines, rows);
  }

  // ---------------------------------------------------------------------------
  // The exact limit
  // ---------------------------------------------------------------------------

  /** No files with proper names but other covered entries have the same payload. */
  ghost predicate Identified(sha: string -> string, root: Path, f: Files, scan: seq<Path>) {
    forall g, scan' | ProperNames(g) && Scans(root, g, scan') ::
      Payload(sha, root, g, scan') == Payload(sha, root, f, scan) ==> SameCovered(sha, root, f, g)
  }

  lemma SelfEvidentIsIdentified(sha: string -> string, root: Path, f: Files, scan: seq<Path>, g: Files,
                                scan': seq<Path>)
    requires HexDigests(sha) && PlainNames(f) && Scans(root, f, scan) && ProperNames(g) && Scans(root, g, scan')
    requires SelfEvident(EntriesOf(root, f, CoveredPaths(root, f, scan)))
    requires Payload(sha, root, g, scan') == Payload(sha, root, f, scan)
    ensures SameCovered(sha, root, f, g)
  {
    var kf, kg := CoveredPaths(root, f, scan), CoveredPaths(root, g, scan');
    ListingOfFiles(sha, root, f, scan);
    ListingOfFiles(sha, root, g, scan');
    RowsAreOneLine(sha, root, f, kf);
    var rows := Rows(sha, root, f, kf);
    var es := EntriesOf(root, f, kf);
    forall k | 0 <= k < |es| ensures '\n' !in EntryRow(sha, es[k]) {
      assert rows[k] in rows;
    }
    SelfEvidentRows(sha, es, EntriesOf(root, g, kg));
    SameRowsSameEntries(sha, root, f, g, kf, kg);
  }

  /** The payload identifies plainly named files among all properly named ones exactly when they are self-evident. */
  lemma PayloadIdentifiesExactly(sha: string -> string, root: Path, f: Files, scan: seq<Path>)
    requires HexDigests(sha) && IsPath(root) && PlainNames(f) && Scans(root, f, scan)
    ensures Identified(sha, root, f, scan) <==> SelfEvident(EntriesOf(root, f, CoveredPaths(root, f, scan)))
  {
    if SelfEvident(EntriesOf(root, f, CoveredPaths(root, f, scan))) {
      forall g, scan' | ProperNames(g) && Scans(root, g, scan')
        ensures Payload(sha, root, g, scan') == Payload(sha, root, f, scan) ==> SameCovered(sha, root, f, g)
      {
        if Payload(sha, root, g, scan') == Payload(sha, root, f, scan) {
          SelfEvidentIsIdentified(sha, root, f, scan, g, scan');
        }
      }
    } else {
      var g, scan' := NewlineMakesPayloadAmbiguous(sha, root, f, scan);
    }
  }

  /** So the drift check tells plainly named files from all others exactly when they are self-evident. */
  lemma FingerprintIdentifiesExactly(sha: string -> string, root: Path, f: Files, scan: seq<Path>)
    requires HexDigests(sha) && PlanHash.CollisionFree(sha) && IsPath(root) && PlainNames(f) && Scans(root, f, scan)
    ensures SelfEvident(EntriesOf(root, f, CoveredPaths(root, f, scan))) <==>
            forall g, scan' | ProperNames(g) && Scans(root, g, scan') ::
              WorkspaceFingerprint(sha, root, g, scan') == WorkspaceFingerprint(sha, root, f, scan) ==>
              CoveredFiles(root, f) == CoveredFiles(root, g)
  {
    if SelfEvident(EntriesOf(root, f, CoveredPaths(root, f, scan))) {
      forall g, scan' | ProperNames(g) && Scans(root, g, scan')
        ensures WorkspaceFingerprint(sha, root, g, scan') == WorkspaceFingerprint(sha, root, f, scan) ==>
                CoveredFiles(root, f) == CoveredFiles(root, g)
      {
        if Payload(sha, root, g, scan') == Payload(sha, root, f, scan) {
          SelfEvidentIsIdentified(sha, root, f, scan, g, scan');
          SameEntriesSameFiles(sha, root, f, g);
        }
      }
    } else {
      var g, scan' := NewlineMakesPayloadAmbiguous(sha, root, f, scan);
    }
  }
}
