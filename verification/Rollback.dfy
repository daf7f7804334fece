/** Undoing a failed run: one restore per path, from the earliest snapshot, in reverse order. */
module Rollback {

  import opened Wrappers
  import opened Paths
  import opened Workspace

  /** The state of a mutation's target just before the step; `before` is absent when no file was there. */
  datatype Snapshot = Snapshot(stepId: int, path: string, target: Path, before: Option<string>)

  datatype Report = Report(attempted: bool, restored: seq<string>, deleted: seq<string>, errors: seq<string>)

  datatype Verdict = Restored | Deleted | Error

  /** Targets whose undo raises, with the state the failed operation leaves there. */
  type Faults = map<Path, Option<string>>

  // ---------------------------------------------------------------------------
  // One undo
  // ---------------------------------------------------------------------------

  /** Undo one snapshot: rewrite the old text, or remove the file that was not there before. */
  function UndoOne(cfg: Config, files: Files, s: Snapshot, faults: Faults): (Files, Verdict) {
    var p := s.target;
    if !Under(cfg.root, p) then (files, Error)
    else if p in faults then (SetState(files, p, faults[p]), Error)
    else match s.before
      case Some(text) =>
        if p in cfg.dirs || !HasParent(cfg.dirs, p) then (files, Error) else (files[p := text], Restored)
      case None =>
        if p in files then (files - {p}, Deleted)
        else if p in cfg.dirs then (files, Error)
        else (files, Deleted)
  }

  function Note(report: Report, path: string, verdict: Verdict): Report {
    match verdict
    case Restored => report.(restored := report.restored + [path])
    case Deleted => report.(deleted := report.deleted + [path])
    case Error => report.(errors := report.errors + [path])
  }

  /** Undo a list of snapshots from its first to its last. */
  function UndoAll(cfg: Config, files: Files, order: seq<Snapshot>, faults: Faults, report: Report): (Files, Report)
    decreases |order|
  {
    if order == [] then (files, report)
    else
      var (next, verdict) := UndoOne(cfg, files, order[0], faults);
      UndoAll(cfg, next, order[1..], faults, Note(report, order[0].path, verdict))
  }

  // ---------------------------------------------------------------------------
  // Earliest snapshots and rollback
  // ---------------------------------------------------------------------------

  ghost predicate HasTarget(snapshots: seq<Snapshot>, p: Path) {
    exists s :: s in snapshots && s.target == p
  }

  /** The first snapshot of each target, in the order the targets were first met. */
  ghost function Earliest(snapshots: seq<Snapshot>): seq<Snapshot> {
    if snapshots == [] then []
    else
      var before, last := Earliest(snapshots[..|snapshots| - 1]), snapshots[|snapshots| - 1];
      if HasTarget(before, last.target) then before else before + [last]
  }

  function Reverse(s: seq<Snapshot>): (r: seq<Snapshot>)
    ensures |r| == |s| && forall i :: 0 <= i < |s| ==> r[i] == s[|s| - 1 - i]
  {
    if s == [] then [] else Reverse(s[1..]) + [s[0]]
  }

  const NOTHING_DONE := Report(false, [], [], [])

  ghost function RollbackFiles(cfg: Config, files: Files, snapshots: seq<Snapshot>, faults: Faults): (Files, Report) {
    if snapshots == [] then (files, NOTHING_DONE)
    else UndoAll(cfg, files, Reverse(Earliest(snapshots)), faults, Report(true, [], [], []))
  }

  /** The first snapshot of one target. */
  ghost function FirstFor(snapshots: seq<Snapshot>, p: Path): Option<Snapshot> {
    if snapshots == [] then None
    else if snapshots[0].target == p then Some(snapshots[0])
    else FirstFor(snapshots[1..], p)
  }

  ghost predicate DistinctTargets(snapshots: seq<Snapshot>) {
    forall i, j :: 0 <= i < j < |snapshots| ==> snapshots[i].target != snapshots[j].target
  }

  lemma {:induction false} FirstForOfAppend(snapshots: seq<Snapshot>, last: Snapshot, p: Path)
    ensures FirstFor(snapshots + [last], p) ==
            if FirstFor(snapshots, p).Some? then FirstFor(snapshots, p)
            else if last.target == p then Some(last) else None
  {
    if snapshots == [] {
      assert FirstFor([last][1..], p) == None;
    } else {
      FirstForOfAppend(snapshots[1..], last, p);
      assert (snapshots + [last])[1..] == snapshots[1..] + [last];
    }
  }

  lemma {:induction false} FirstForFindsTarget(snapshots: seq<Snapshot>, p: Path)
    ensures FirstFor(snapshots, p).Some? <==> HasTarget(snapshots, p)
    ensures FirstFor(snapshots, p).Some? ==>
            FirstFor(snapshots, p).value in snapshots && FirstFor(snapshots, p).value.target == p
  {
    if snapshots != [] {
      FirstForFindsTarget(snapshots[1..], p);
      if HasTarget(snapshots, p) && snapshots[0].target != p {
        var s :| s in snapshots && s.target == p;
        assert s in snapshots[1..];
      }
    }
  }

  /** The earliest list has one entry per target: the first snapshot of that target. */
  lemma {:induction false} EarliestKeepsFirsts(snapshots: seq<Snapshot>)
    ensures DistinctTargets(Earliest(snapshots))
    ensures forall p :: FirstFor(Earliest(snapshots), p) == FirstFor(snapshots, p)
  {
    if snapshots != [] {
      var init, last := snapshots[..|snapshots| - 1], snapshots[|snapshots| - 1];
      assert snapshots == init + [last];
      EarliestKeepsFirsts(init);
      FirstForFindsTarget(Earliest(init), last.target);
      forall p ensures FirstFor(Earliest(snapshots), p) == FirstFor(snapshots, p) {
        FirstForOfAppend(init, last, p);
        FirstForOfAppend(Earliest(init), last, p);
      }
      if !HasTarget(Earliest(init), last.target) {
        forall s | s in Earliest(init) ensures s.target != last.target {
        }
      }
    }
  }

  // ---------------------------------------------------------------------------
  // What an undo does to one path
  // ---------------------------------------------------------------------------

  /** The state of the target after its undo. */
  function UndoneState(cfg: Config, current: Option<string>, s: Snapshot, faults: Faults): Option<string> {
    if !Under(cfg.root, s.target) then current
    else if s.target in faults then faults[s.target]
    else if s.before.Some? && (s.target in cfg.dirs || !HasParent(cfg.dirs, s.target)) then current
    else s.before
  }

  lemma UndoOneAt(cfg: Config, files: Files, s: Snapshot, faults: Faults, p: Path)
    ensures StateAt(UndoOne(cfg, files, s, faults).0, p) ==
            if p == s.target then UndoneState(cfg, StateAt(files, p), s, faults) else StateAt(files, p)
  {
  }

  /** Over a list with distinct targets, each target is undone by its own snapshot and other paths stay. */
  lemma {:induction false} UndoAllAt(cfg: Config, files: Files, order: seq<Snapshot>, faults: Faults, report: Report,
                                     p: Path)
    requires DistinctTargets(order)
    ensures StateAt(UndoAll(cfg, files, order, faults, report).0, p) ==
            match FirstFor(order, p)
            case None => StateAt(files, p)
            case Some(s) => UndoneState(cfg, StateAt(files, p), s, faults)
    decreases |order|
  {
    if order != [] {
      var (next, verdict) := UndoOne(cfg, files, order[0], faults);
      UndoOneAt(cfg, files, order[0], faults, p);
      UndoAllAt(cfg, next, order[1..], faults, Note(report, order[0].path, verdict), p);
      if order[0].target == p {
        FirstForFindsTarget(order[1..], p);
      }
    }
  }

  lemma ReversedTargets(order: seq<Snapshot>, p: Path)
    requires DistinctTargets(order)
    ensures DistinctTargets(Reverse(order))
    ensures FirstFor(Reverse(order), p) == FirstFor(order, p)
  {
    var back := Reverse(order);
    FirstForFindsTarget(order, p);
    FirstForFindsTarget(back, p);
    assert forall s :: s in order ==> s in back by {
      forall s | s in order ensures s in back {
        var i :| 0 <= i < |order| && order[i] == s;
        assert back[|order| - 1 - i] == s;
      }
    }
    if FirstFor(back, p).Some? && FirstFor(order, p).Some? {
      SameTargetSameSnapshot(order, FirstFor(back, p).value, FirstFor(order, p).value);
    }
  }

  lemma SameTargetSameSnapshot(order: seq<Snapshot>, s: Snapshot, t: Snapshot)
    requires DistinctTargets(order) && s in order && t in order && s.target == t.target
    ensures s == t
  {
    var i :| 0 <= i < |order| && order[i] == s;
    var j :| 0 <= j < |order| && order[j] == t;
    assert i < j || j < i || i == j;
  }

  /** Rollback returns each path to its first snapshot, unless the undo of that path is refused or raises. */
  lemma RollbackAt(cfg: Config, files: Files, snapshots: seq<Snapshot>, faults: Faults, p: Path)
    ensures StateAt(RollbackFiles(cfg, files, snapshots, faults).0, p) ==
            match FirstFor(snapshots, p)
            case None => StateAt(files, p)
            case Some(s) => UndoneState(cfg, StateAt(files, p), s, faults)
  {
    if snapshots != [] {
      EarliestKeepsFirsts(snapshots);
      ReversedTargets(Earliest(snapshots), p);
      UndoAllAt(cfg, files, Reverse(Earliest(snapshots)), faults, Report(true, [], [], []), p);
    }
  }

  /** A path outside the workspace is never touched, whatever the snapshots say. */
  lemma RollbackStaysInside(cfg: Config, files: Files, snapshots: seq<Snapshot>, faults: Faults, p: Path)
    requires !Under(cfg.root, p)
    ensures StateAt(RollbackFiles(cfg, files, snapshots, faults).0, p) == StateAt(files, p)
  {
    RollbackAt(cfg, files, snapshots, faults, p);
    FirstForFindsTarget(snapshots, p);
  }

  // ---------------------------------------------------------------------------
  // Deduplicated rollback equals the full undo log
  // ---------------------------------------------------------------------------

  /** Replay the whole undo log from its last entry to its first. */
  ghost function ReplayLog(cfg: Config, files: Files, snapshots: seq<Snapshot>): Files
    decreases |snapshots|
  {
    if snapshots == [] then files
    else ReplayLog(cfg, UndoOne(cfg, files, snapshots[|snapshots| - 1], map[]).0, snapshots[..|snapshots| - 1])
  }

  lemma {:induction false} ReplayLogAt(cfg: Config, files: Files, snapshots: seq<Snapshot>, p: Path)
    requires Placed(files, cfg.dirs, p)
    ensures StateAt(ReplayLog(cfg, files, snapshots), p) ==
            match FirstFor(snapshots, p)
            case None => StateAt(files, p)
            case Some(s) => UndoneState(cfg, StateAt(files, p), s, map[])
    decreases |snapshots|
  {
    if snapshots != [] {
      var init, last := snapshots[..|snapshots| - 1], snapshots[|snapshots| - 1];
      assert snapshots == init + [last];
      var next := UndoOne(cfg, files, last, map[]).0;
      UndoOneAt(cfg, files, last, map[], p);
      ReplayLogAt(cfg, next, init, p);
      FirstForOfAppend(init, last, p);
      FirstForFindsTarget(init, p);
    }
  }

  lemma SameStatesSameFiles(f: Files, g: Files)
    requires forall p :: StateAt(f, p) == StateAt(g, p)
    ensures f == g
  {
    forall p ensures p in f <==> p in g {
      assert StateAt(f, p) == StateAt(g, p);
    }
    forall p | p in f ensures f[p] == g[p] {
      assert StateAt(f, p) == StateAt(g, p);
    }
  }

  /** One restore per path from its earliest snapshot does what replaying every snapshot backwards would do. */
  lemma RollbackEqualsFullReplay(cfg: Config, files: Files, snapshots: seq<Snapshot>)
    requires forall p :: Placed(files, cfg.dirs, p)
    ensures RollbackFiles(cfg, files, snapshots, map[]).0 == ReplayLog(cfg, files, snapshots)
  {
    var f, g := RollbackFiles(cfg, files, snapshots, map[]).0, ReplayLog(cfg, files, snapshots);
    forall p ensures StateAt(f, p) == StateAt(g, p) {
      assert Placed(files, cfg.dirs, p);
      RollbackAt(cfg, files, snapshots, map[], p);
      ReplayLogAt(cfg, files, snapshots, p);
    }
    SameStatesSameFiles(f, g);
  }

  // ---------------------------------------------------------------------------
  // The report
  // ---------------------------------------------------------------------------

  ghost function PathsOf(snapshots: seq<Snapshot>): multiset<string> {
    if snapshots == [] then multiset{} else multiset{snapshots[0].path} + PathsOf(snapshots[1..])
  }

  ghost function Entries(report: Report): multiset<string> {
    multiset(report.restored) + multiset(report.deleted) + multiset(report.errors)
  }

  lemma {:induction false} UndoAllEntries(cfg: Config, files: Files, order: seq<Snapshot>, faults: Faults,
                                          report: Report)
    ensures Entries(UndoAll(cfg, files, order, faults, report).1) == Entries(report) + PathsOf(order)
    decreases |order|
  {
    if order != [] {
      var (next, verdict) := UndoOne(cfg, files, order[0], faults);
      UndoAllEntries(cfg, next, order[1..], faults, Note(report, order[0].path, verdict));
    }
  }

  lemma {:induction false} PathsOfAppend(s: seq<Snapshot>, last: Snapshot)
    ensures PathsOf(s + [last]) == PathsOf(s) + multiset{last.path}
  {
    if s == [] {
      assert [last][1..] == [];
    } else {
      PathsOfAppend(s[1..], last);
      assert (s + [last])[1..] == s[1..] + [last];
    }
  }

  lemma {:induction false} PathsOfReverse(s: seq<Snapshot>)
    ensures PathsOf(Reverse(s)) == PathsOf(s)
  {
    if s != [] {
      PathsOfReverse(s[1..]);
      PathsOfAppend(Reverse(s[1..]), s[0]);
    }
  }

  lemma {:induction false} UndoAllKeepsAttempted(cfg: Config, files: Files, order: seq<Snapshot>, faults: Faults,
                                                 report: Report)
    ensures UndoAll(cfg, files, order, faults, report).1.attempted == report.attempted
    decreases |order|
  {
    if order != [] {
      var (next, verdict) := UndoOne(cfg, files, order[0], faults);
      UndoAllKeepsAttempted(cfg, next, order[1..], faults, Note(report, order[0].path, verdict));
    }
  }

  /** The three lists together hold exactly one entry for each distinct target. */
  lemma ReportListsEachTargetOnce(cfg: Config, files: Files, snapshots: seq<Snapshot>, faults: Faults)
    ensures Entries(RollbackFiles(cfg, files, snapshots, faults).1) == PathsOf(Earliest(snapshots))
    ensures DistinctTargets(Earliest(snapshots))
    ensures forall p :: HasTarget(Earliest(snapshots), p) <==> HasTarget(snapshots, p)
    ensures RollbackFiles(cfg, files, snapshots, faults).1.attempted <==> snapshots != []
  {
    EarliestKeepsFirsts(snapshots);
    if snapshots != [] {
      UndoAllKeepsAttempted(cfg, files, Reverse(Earliest(snapshots)), faults, Report(true, [], [], []));
      UndoAllEntries(cfg, files, Reverse(Earliest(snapshots)), faults, Report(true, [], [], []));
      PathsOfReverse(Earliest(snapshots));
    }
    forall p ensures HasTarget(Earliest(snapshots), p) <==> HasTarget(snapshots, p) {
      FirstForFindsTarget(snapshots, p);
      FirstForFindsTarget(Earliest(snapshots), p);
    }
  }

  lemma {:induction false} UndoAllRecordsErrors(cfg: Config, files: Files, order: seq<Snapshot>, faults: Faults,
                                                report: Report, s: Snapshot)
    requires s in order && s.target in faults
    ensures s.path in UndoAll(cfg, files, order, faults, report).1.errors
    decreases |order|
  {
    var (next, verdict) := UndoOne(cfg, files, order[0], faults);
    var noted := Note(report, order[0].path, verdict);
    if s == order[0] {
      ErrorsOnlyGrow(cfg, next, order[1..], faults, noted, s.path);
    } else {
      UndoAllRecordsErrors(cfg, next, order[1..], faults, noted, s);
    }
  }

  lemma {:induction false} ErrorsOnlyGrow(cfg: Config, files: Files, order: seq<Snapshot>, faults: Faults,
                                          report: Report, path: string)
    requires path in report.errors
    ensures path in UndoAll(cfg, files, order, faults, report).1.errors
    decreases |order|
  {
    if order != [] {
      var (next, verdict) := UndoOne(cfg, files, order[0], faults);
      ErrorsOnlyGrow(cfg, next, order[1..], faults, Note(report, order[0].path, verdict), path);
    }
  }

  /** A path whose undo raises is named in the report's errors. */
  lemma FaultsAreReported(cfg: Config, files: Files, snapshots: seq<Snapshot>, faults: Faults, p: Path)
    requires FirstFor(snapshots, p).Some? && p in faults
    ensures FirstFor(snapshots, p).value.path in RollbackFiles(cfg, files, snapshots, faults).1.errors
  {
    EarliestKeepsFirsts(snapshots);
    ReversedTargets(Earliest(snapshots), p);
    FirstForFindsTarget(Reverse(Earliest(snapshots)), p);
    UndoAllRecordsErrors(cfg, files, Reverse(Earliest(snapshots)), faults, Report(true, [], [], []),
                         FirstFor(snapshots, p).value);
  }

  // ---------------------------------------------------------------------------
  // The report is true
  // ---------------------------------------------------------------------------

  /** The verdict on one undo, by the state of its target. */
  function VerdictOf(cfg: Config, current: Option<string>, s: Snapshot, faults: Faults): Verdict {
    if !Under(cfg.root, s.target) || s.target in faults then Error
    else if s.before.Some? then
      if s.target in cfg.dirs || !HasParent(cfg.dirs, s.target) then Error else Restored
    else if current.None? && s.target in cfg.dirs then Error
    else Deleted
  }

  function Listed(report: Report, verdict: Verdict): seq<string> {
    match verdict
    case Restored => report.restored
    case Deleted => report.deleted
    case Error => report.errors
  }

  /** `path` names a target among the snapshots whose undo has this verdict. */
  ghost predicate Judged(cfg: Config, files: Files, order: seq<Snapshot>, faults: Faults, path: string,
                         verdict: Verdict)
  {
    exists s :: s in order && s.path == path && VerdictOf(cfg, StateAt(files, s.target), s, faults) == verdict
  }

  lemma UndoOneVerdict(cfg: Config, files: Files, s: Snapshot, faults: Faults)
    ensures UndoOne(cfg, files, s, faults).1 == VerdictOf(cfg, StateAt(files, s.target), s, faults)
  {
  }

  lemma JudgedCons(cfg: Config, files: Files, next: Files, order: seq<Snapshot>, faults: Faults, path: string,
                   verdict: Verdict)
    requires order != [] && forall s :: s in order[1..] ==> StateAt(next, s.target) == StateAt(files, s.target)
    ensures Judged(cfg, files, order, faults, path, verdict) <==>
            (order[0].path == path && VerdictOf(cfg, StateAt(files, order[0].target), order[0], faults) == verdict)
            || Judged(cfg, next, order[1..], faults, path, verdict)
  {
    assert forall s :: s in order <==> s == order[0] || s in order[1..];
  }

  lemma {:induction false} UndoAllLists(cfg: Config, files: Files, order: seq<Snapshot>, faults: Faults, report: Report,
                                        path: string, verdict: Verdict)
    requires DistinctTargets(order)
    ensures path in Listed(UndoAll(cfg, files, order, faults, report).1, verdict) <==>
            path in Listed(report, verdict) || Judged(cfg, files, order, faults, path, verdict)
    decreases |order|
  {
    if order != [] {
      var (next, given) := UndoOne(cfg, files, order[0], faults);
      UndoOneVerdict(cfg, files, order[0], faults);
      UndoAllLists(cfg, next, order[1..], faults, Note(report, order[0].path, given), path, verdict);
      forall s | s in order[1..] ensures StateAt(next, s.target) == StateAt(files, s.target) {
        UndoOneAt(cfg, files, order[0], faults, s.target);
      }
      JudgedCons(cfg, files, next, order, faults, path, verdict);
    }
  }

  /** A path is in one of the report's lists exactly when the undo of a target of that path had that verdict. */
  lemma ReportIsExact(cfg: Config, files: Files, snapshots: seq<Snapshot>, faults: Faults, path: string,
                      verdict: Verdict)
    ensures path in Listed(RollbackFiles(cfg, files, snapshots, faults).1, verdict) <==>
            exists p :: FirstFor(snapshots, p).Some? && FirstFor(snapshots, p).value.path == path
                        && VerdictOf(cfg, StateAt(files, p), FirstFor(snapshots, p).value, faults) == verdict
  {
    var kept := Earliest(snapshots);
    EarliestKeepsFirsts(snapshots);
    if snapshots != [] {
      ReversedTargets(kept, []);
      UndoAllLists(cfg, files, Reverse(kept), faults, Report(true, [], [], []), path, verdict);
    }
    if Judged(cfg, files, Reverse(kept), faults, path, verdict) {
      var s :| s in Reverse(kept) && s.path == path && VerdictOf(cfg, StateAt(files, s.target), s, faults) == verdict;
      FirstOfReversed(snapshots, s);
    }
    if p :| FirstFor(snapshots, p).Some? && FirstFor(snapshots, p).value.path == path
            && VerdictOf(cfg, StateAt(files, p), FirstFor(snapshots, p).value, faults) == verdict
    {
      FirstForFindsTarget(snapshots, p);
      ReversedTargets(kept, p);
      FirstForFindsTarget(Reverse(kept), p);
    }
  }

  lemma FirstOfReversed(snapshots: seq<Snapshot>, s: Snapshot)
    requires s in Reverse(Earliest(snapshots))
    ensures FirstFor(snapshots, s.target) == Some(s)
  {
    var back := Reverse(Earliest(snapshots));
    EarliestKeepsFirsts(snapshots);
    ReversedTargets(Earliest(snapshots), s.target);
    FirstForFindsTarget(back, s.target);
    SameTargetSameSnapshot(back, s, FirstFor(back, s.target).value);
  }

  // ---------------------------------------------------------------------------
  // Rollback as it runs
  // ---------------------------------------------------------------------------

  /** The first loop keeps a first-seen dictionary; the second restores or removes, path by path. */
  method RollbackMutations(tree: Tree, snapshots: seq<Snapshot>, faults: Faults) returns (report: Report)
    modifies tree
    ensures (tree.files, report) == RollbackFiles(tree.cfg, old(tree.files), snapshots, faults)
  {
    report := NOTHING_DONE;
    if snapshots == [] {
      return;
    }
    var order := CollectEarliest(snapshots);
    report := UndoInOrder(tree, order, faults);
  }

  lemma UndoAllCons(cfg: Config, files: Files, order: seq<Snapshot>, i: nat, faults: Faults, report: Report)
    requires i < |order|
    ensures UndoAll(cfg, files, order[i..], faults, report) ==
            UndoAll(cfg, UndoOne(cfg, files, order[i], faults).0, order[i + 1..], faults,
                    Note(report, order[i].path, UndoOne(cfg, files, order[i], faults).1))
  {
    assert order[i..][0] == order[i] && order[i..][1..] == order[i + 1..];
  }

  method UndoInOrder(tree: Tree, order: seq<Snapshot>, faults: Faults) returns (report: Report)
    modifies tree
    ensures (tree.files, report) == UndoAll(tree.cfg, old(tree.files), order, faults, Report(true, [], [], []))
  {
    report := Report(true, [], [], []);
    var i := 0;
    while i < |order|
      invariant 0 <= i <= |order|
      invariant UndoAll(tree.cfg, old(tree.files), order, faults, Report(true, [], [], [])) ==
                UndoAll(tree.cfg, tree.files, order[i..], faults, report)
    {
      UndoAllCons(tree.cfg, tree.files, order, i, faults, report);
      var verdict := UndoAt(tree, order[i], faults);
      report := Note(report, order[i].path, verdict);
      i := i + 1;
    }
  }

  method CollectEarliest(snapshots: seq<Snapshot>) returns (order: seq<Snapshot>)
    ensures order == Reverse(Earliest(snapshots))
  {
    var earliestByPath: map<Path, Snapshot> := map[];
    var orderedPaths: seq<Path> := [];
    ghost var kept := [];
    var i := 0;
    while i < |snapshots|
      invariant 0 <= i <= |snapshots|
      invariant kept == Earliest(snapshots[..i])
      invariant Recorded(kept, orderedPaths, earliestByPath)
    {
      var s := snapshots[i];
      assert snapshots[..i + 1][..i] == snapshots[..i];
      assert HasTarget(kept, s.target) <==> s.target in earliestByPath;
      if s.target !in earliestByPath {
        earliestByPath := earliestByPath[s.target := s];
        orderedPaths := orderedPaths + [s.target];
        kept := kept + [s];
      }
      i := i + 1;
    }
    assert snapshots[..i] == snapshots;
    var n := |orderedPaths|;
    order := seq(n, k requires 0 <= k < n && Recorded(kept, orderedPaths, earliestByPath) =>
      earliestByPath[orderedPaths[n - 1 - k]]);
    assert order == Reverse(kept);
  }

  /** The dictionary and the path list record exactly the snapshots kept so far, in order. */
  ghost predicate Recorded(kept: seq<Snapshot>, orderedPaths: seq<Path>, earliestByPath: map<Path, Snapshot>) {
    && |orderedPaths| == |kept|
    && (forall k :: 0 <= k < |kept| ==>
          orderedPaths[k] == kept[k].target && kept[k].target in earliestByPath &&
              earliestByPath[kept[k].target] == kept[k])
    && (forall p :: p in earliestByPath ==> HasTarget(kept, p))
  }

  method UndoAt(tree: Tree, s: Snapshot, faults: Faults) returns (verdict: Verdict)
    modifies tree
    ensures (tree.files, verdict) == UndoOne(tree.cfg, old(tree.files), s, faults)
  {
    var p := s.target;
    if !Under(tree.cfg.root, p) {
      return Error;
    }
    if p in faults {
      tree.files := SetState(tree.files, p, faults[p]);
      return Error;
    }
    match s.before {
      case Some(text) =>
        if p in tree.cfg.dirs || !HasParent(tree.cfg.dirs, p) {
          return Error;
        }
        tree.files := tree.files[p := text];
        verdict := Restored;
      case None =>
        if p in tree.files {
          tree.files := tree.files - {p};
        } else if p in tree.cfg.dirs {
          return Error;
        }
        verdict := Deleted;
    }
  }
}
