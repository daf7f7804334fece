/** What a run reports: its status, its test counts, and the paths it created and changed. */
module Summary {

  import opened Wrappers
  import opened Text
  import opened Workspace

  /** One entry of the result list. */
  datatype Record = Record(stepId: int, call: Call, reply: Reply)

  datatype Status =
    | SUCCESS
    | TEST_FAILURE
    | PATCH_REJECTED
    | PLAN_INVALID
    | CAPABILITY_DENIED
    | TIME_BUDGET_EXCEEDED
    | STEP_LIMIT_EXCEEDED
    | REPLAY_DENIED
    | WORKSPACE_DRIFT_DENIED
    | FAILED

  // ---------------------------------------------------------------------------
  // Classification
  // ---------------------------------------------------------------------------

  function ClassifyError(error: string): Status {
    ClassifyMessage(Lower(error))
  }

  /** The status a lower-case message stands for. */
  function ClassifyMessage(message: string): Status {
    if Contains(message, "not approved") then PLAN_INVALID
    else if Contains(message, "already executed") || Contains(message, "replay") then REPLAY_DENIED
    else if Contains(message, "workspace drift") || Contains(message, "drift detected") then WORKSPACE_DRIFT_DENIED
    else if Contains(message, "step cap") then STEP_LIMIT_EXCEEDED
    else if Contains(message, "time budget") then TIME_BUDGET_EXCEEDED
    else if Contains(message, "capability") || Contains(message, "insufficient_scope") then CAPABILITY_DENIED
    else FAILED
  }

  /** The message tests in the order in which they apply. */
  const MESSAGE_TESTS: seq<(string, Status)> :=
    [("not approved", PLAN_INVALID), ("already executed", REPLAY_DENIED), ("replay", REPLAY_DENIED),
     ("workspace drift", WORKSPACE_DRIFT_DENIED), ("drift detected", WORKSPACE_DRIFT_DENIED),
     ("step cap", STEP_LIMIT_EXCEEDED), ("time budget", TIME_BUDGET_EXCEEDED),
     ("capability", CAPABILITY_DENIED), ("insufficient_scope", CAPABILITY_DENIED)]

  /** The lower-case message passes test `k` and none before it. */
  predicate FirstTestPassed(message: string, k: int) {
    && 0 <= k < |MESSAGE_TESTS| && Contains(message, MESSAGE_TESTS[k].0)
    && forall j :: 0 <= j < k ==> !Contains(message, MESSAGE_TESTS[j].0)
  }

  /** The first test that an error's message passes decides its status, and without one it is FAILED. */
  lemma FirstTestDecides(message: string)
    ensures forall k :: FirstTestPassed(message, k) ==> ClassifyMessage(message) == MESSAGE_TESTS[k].1
    ensures (forall k :: 0 <= k < |MESSAGE_TESTS| ==> !Contains(message, MESSAGE_TESTS[k].0)) ==>
            ClassifyMessage(message) == FAILED
    ensures forall error: string :: Lower(error) == message ==> ClassifyError(error) == ClassifyMessage(message)
  {
    assert MESSAGE_TESTS[0].0 == "not approved" && MESSAGE_TESTS[1].0 == "already executed";
    assert MESSAGE_TESTS[2].0 == "replay" && MESSAGE_TESTS[3].0 == "workspace drift";
    assert MESSAGE_TESTS[4].0 == "drift detected" && MESSAGE_TESTS[5].0 == "step cap";
    assert MESSAGE_TESTS[6].0 == "time budget" && MESSAGE_TESTS[7].0 == "capability";
    assert MESSAGE_TESTS[8].0 == "insufficient_scope";
  }

  /** The exit code a reply carries, if any. */
  function ExitCode(reply: Reply): Option<int> {
    if reply.Command? then reply.exitCode else None
  }

  predicate TimedOut(reply: Reply) {
    reply.Command? && reply.timedOut
  }

  predicate NonZeroExit(reply: Reply) {
    ExitCode(reply).Some? && ExitCode(reply).value != 0
  }

  /** The verdict on one result; SUCCESS lets the next result decide. */
  function ResultStatus(r: Record): Status {
    match r.call
    case TestRun(_, _) =>
      if TimedOut(r.reply) then TIME_BUDGET_EXCEEDED
      else if NonZeroExit(r.reply) then TEST_FAILURE
      else SUCCESS
    case PatchApply(_, _) => if r.reply == ApplyText(true) then PATCH_REJECTED else SUCCESS
    case PatchEdit(_, _, _) => if r.reply.EditDone? then SUCCESS else PATCH_REJECTED
    case GitRun(_) => if r.reply.Denied? || NonZeroExit(r.reply) then FAILED else SUCCESS
    case FileCreate(_, _) => SUCCESS
  }

  /** The verdict on the first result that is not a success. */
  function ClassifyResults(results: seq<Record>): Status {
    if results == [] then SUCCESS
    else if ResultStatus(results[0]) != SUCCESS then ResultStatus(results[0])
    else ClassifyResults(results[1..])
  }

  function Classify(results: seq<Record>, error: Option<string>): Status {
    if error.Some? then ClassifyError(error.value) else ClassifyResults(results)
  }

  /** A run counts as a success exactly when nothing was raised and every single result is a success. */
  lemma {:induction false} SuccessMeansEveryResult(results: seq<Record>, error: Option<string>)
    ensures Classify(results, error) == SUCCESS <==>
            error.None? && forall r :: r in results ==> ResultStatus(r) == SUCCESS
  {
    if error.None? && results != [] {
      SuccessMeansEveryResult(results[1..], error);
      assert forall r :: r in results <==> r == results[0] || r in results[1..];
    }
  }

  // ---------------------------------------------------------------------------
  // Test counts
  // ---------------------------------------------------------------------------

  datatype TestCounts = TestCounts(total: nat, passed: nat, failed: nat)

  predicate IsTest(r: Record) {
    r.call.TestRun?
  }

  predicate IsPassedTest(r: Record) {
    r.call.TestRun? && !TimedOut(r.reply) && ExitCode(r.reply) == Some(0)
  }

  predicate IsFailedTest(r: Record) {
    r.call.TestRun? && !IsPassedTest(r)
  }

  predicate IsDeniedTest(r: Record) {
    r.call.TestRun? && r.reply.Denied?
  }

  /** A test passed when its command ended with exit code 0 in time, and failed in every other case, denied ones
      included. */
  lemma CountsMean(r: Record)
    requires Plausible(r)
    ensures IsTest(r) <==> r.call.TestRun?
    ensures IsPassedTest(r) <==> r.call.TestRun? && r.reply == Command(Some(0), false)
    ensures IsFailedTest(r) <==> r.call.TestRun? && r.reply != Command(Some(0), false)
    ensures IsDeniedTest(r) <==> r.call.TestRun? && r.reply.Denied?
  {
  }

  function Count(results: seq<Record>, want: Record -> bool): nat {
    if results == [] then 0
    else Count(results[..|results| - 1], want) + if want(results[|results| - 1]) then 1 else 0
  }

  /** The counting loop over the results. */
  method TestSummary(results: seq<Record>) returns (counts: TestCounts)
    ensures counts.passed == Count(results, IsPassedTest)
    ensures counts.failed == Count(results, IsFailedTest)
    ensures counts.total == Count(results, IsTest) == counts.passed + counts.failed
  {
    var total, passed, failed := 0, 0, 0;
    var i := 0;
    while i < |results|
      invariant 0 <= i <= |results|
      invariant passed == Count(results[..i], IsPassedTest)
      invariant failed == Count(results[..i], IsFailedTest)
      invariant total == Count(results[..i], IsTest) == passed + failed
    {
      var item := results[i];
      assert results[..i + 1][..i] == results[..i];
      i := i + 1;
      if !item.call.TestRun? {
        continue;
      }
      total := total + 1;
      if TimedOut(item.reply) {
        failed := failed + 1;
        continue;
      }
      if ExitCode(item.reply) == Some(0) {
        passed := passed + 1;
      } else {
        failed := failed + 1;
      }
    }
    assert results[..i] == results;
    counts := TestCounts(total, passed, failed);
  }

  /** What the tools can answer: a command has no exit code exactly when it timed out. */
  predicate Plausible(r: Record) {
    match r.call
    case PatchApply(_, _) => r.reply.ApplyText?
    case FileCreate(_, _) => r.reply.Created?
    case PatchEdit(_, _, _) => r.reply.EditDone? || r.reply.Denied?
    case TestRun(_, _) => r.reply.Denied? || (r.reply.Command? && (r.reply.timedOut <==> r.reply.exitCode.None?))
    case GitRun(_) => r.reply.Denied? || (r.reply.Command? && (r.reply.timedOut <==> r.reply.exitCode.None?))
  }

  /** On a successful run the tests counted as failed are exactly the denied ones. */
  lemma {:induction false} SuccessFailsOnlyDeniedTests(results: seq<Record>)
    requires forall r :: r in results ==> Plausible(r) && ResultStatus(r) == SUCCESS
    ensures Count(results, IsFailedTest) == Count(results, IsDeniedTest)
  {
    if results != [] {
      var init, last := results[..|results| - 1], results[|results| - 1];
      assert last in results;
      forall r | r in init ensures r in results { }
      SuccessFailsOnlyDeniedTests(init);
    }
  }

  /** Every test either passed or failed. */
  lemma {:induction false} TestsPassOrFail(results: seq<Record>)
    ensures Count(results, IsTest) == Count(results, IsPassedTest) + Count(results, IsFailedTest)
  {
    if results != [] {
      TestsPassOrFail(results[..|results| - 1]);
    }
  }

  lemma {:induction false} CountOfNone(results: seq<Record>, want: Record -> bool)
    requires forall r :: r in results ==> !want(r)
    ensures Count(results, want) == 0
  {
    if results != [] {
      CountOfNone(results[..|results| - 1], want);
    }
  }

  // ---------------------------------------------------------------------------
  // Created and changed paths
  // ---------------------------------------------------------------------------

  datatype Kind = CreatedPaths | AppliedPaths | EditedPaths

  /** The result says that its step wrote its path in this way. */
  predicate Wrote(kind: Kind, r: Record) {
    match kind
    case CreatedPaths => r.call.FileCreate?
    case AppliedPaths => r.call.PatchApply? && r.reply != ApplyText(true)
    case EditedPaths => r.call.PatchEdit? && r.reply == EditDone(true)
  }

  function Named(kind: Kind, results: seq<Record>): seq<string> {
    if results == [] then []
    else
      var before, last := Named(kind, results[..|results| - 1]), results[|results| - 1];
      if Wrote(kind, last) && last.call.path !in before then before + [last.call.path] else before
  }

  method CollectPaths(kind: Kind, results: seq<Record>) returns (paths: seq<string>)
    ensures paths == Named(kind, results) && InWriteOrder(kind, results, paths)
  {
    NamedIsInWriteOrder(kind, results);
    paths := [];
    var i := 0;
    while i < |results|
      invariant 0 <= i <= |results|
      invariant paths == Named(kind, results[..i])
    {
      var item := results[i];
      assert results[..i + 1][..i] == results[..i];
      if Wrote(kind, item) && item.call.path !in paths {
        paths := paths + [item.call.path];
      }
      i := i + 1;
    }
    assert results[..i] == results;
  }

  ghost predicate NoDuplicates(paths: seq<string>) {
    forall i, j :: 0 <= i < j < |paths| ==> paths[i] != paths[j]
  }

  /** The first result that wrote `path` in this way; the number of results when none did. */
  function FirstWrite(kind: Kind, results: seq<Record>, path: string): (k: nat)
    ensures k <= |results|
    ensures k < |results| ==> Wrote(kind, results[k]) && results[k].call.path == path
    ensures forall j :: 0 <= j < k ==> !(Wrote(kind, results[j]) && results[j].call.path == path)
  {
    if results == [] then 0
    else if Wrote(kind, results[0]) && results[0].call.path == path then 0
    else 1 + FirstWrite(kind, results[1..], path)
  }

  /** Later results do not change which write was the first. */
  lemma FirstWriteStays(kind: Kind, init: seq<Record>, last: Record, path: string)
    ensures FirstWrite(kind, init, path) < |init| ==>
        FirstWrite(kind, init + [last], path) == FirstWrite(kind, init, path)
    ensures FirstWrite(kind, init, path) == |init| && Wrote(kind, last) && last.call.path == path ==>
            FirstWrite(kind, init + [last], path) == |init|
  {
    var k, n := FirstWrite(kind, init, path), FirstWrite(kind, init + [last], path);
    assert forall j :: 0 <= j < |init| ==> (init + [last])[j] == init[j];
    assert (init + [last])[|init|] == last;
  }

  /** The listed paths come in the order in which each was first written. */
  lemma {:induction false} NamedInOrder(kind: Kind, results: seq<Record>, i: nat, j: nat)
    requires i < j < |Named(kind, results)|
    ensures var paths := Named(kind, results);
            FirstWrite(kind, results, paths[i]) < FirstWrite(kind, results, paths[j]) < |results|
  {
    var init, last := results[..|results| - 1], results[|results| - 1];
    assert results == init + [last];
    var before, all := Named(kind, init), Named(kind, results);
    NamedPaths(kind, init);
    assert all[i] in before;
    FirstWriteIsFound(kind, init, all[i]);
    FirstWriteStays(kind, init, last, all[i]);
    FirstWriteStays(kind, init, last, all[j]);
    if j < |before| {
      NamedInOrder(kind, init, i, j);
    } else {
      assert all[j] == last.call.path && all[j] !in before;
      FirstWriteIsFound(kind, init, all[j]);
    }
  }

  lemma FirstWriteIsFound(kind: Kind, results: seq<Record>, path: string)
    ensures FirstWrite(kind, results, path) < |results| <==> path in Named(kind, results)
  {
    NamedPaths(kind, results);
    var k := FirstWrite(kind, results, path);
    if k < |results| {
      assert results[k] in results;
    }
    if path in Named(kind, results) {
      var r :| r in results && Wrote(kind, r) && r.call.path == path;
      var j :| 0 <= j < |results| && results[j] == r;
    }
  }

  /** Each kind of list holds, once each, the paths written in that way. */
  lemma {:induction false} NamedPaths(kind: Kind, results: seq<Record>)
    ensures NoDuplicates(Named(kind, results))
    ensures forall p :: p in Named(kind, results) <==> exists r :: r in results && Wrote(kind, r) && r.call.path == p
  {
    if results != [] {
      var init, last := results[..|results| - 1], results[|results| - 1];
      NamedPaths(kind, init);
      assert results == init + [last];
      forall p
        ensures p in Named(kind, results) <==> exists r :: r in results && Wrote(kind, r) && r.call.path == p
      {
        assert last in results;
        if p in Named(kind, init) {
          var r :| r in init && Wrote(kind, r) && r.call.path == p;
          assert r in results;
        }
        if r :| r in results && Wrote(kind, r) && r.call.path == p {
          assert r in init || r == last;
        }
      }
    }
  }

  /** The first list, then the members of the second that are not in it, in their own order. */
  function Merge(first: seq<string>, second: seq<string>): seq<string> {
    if second == [] then first
    else
      var before, last := Merge(first, second[..|second| - 1]), second[|second| - 1];
      if last in first then before else before + [last]
  }

  function ModifiedPaths(results: seq<Record>): seq<string> {
    Merge(Named(AppliedPaths, results), Named(EditedPaths, results))
  }

  /** `changed_paths`: created paths first, then modified paths not already listed. */
  function ChangedPaths(results: seq<Record>): seq<string> {
    Merge(Named(CreatedPaths, results), ModifiedPaths(results))
  }

  /** The index of `x` in the list; its length when `x` is not there. */
  function Position(s: seq<string>, x: string): (k: nat)
    ensures k <= |s|
    ensures k < |s| ==> s[k] == x
    ensures forall j :: 0 <= j < k ==> s[j] != x
  {
    if s == [] then 0 else if s[0] == x then 0 else 1 + Position(s[1..], x)
  }

  /** The members of `part` are in `whole`, in the same order. */
  ghost predicate InOrderOf(part: seq<string>, whole: seq<string>) {
    && (forall x :: x in part ==> x in whole)
    && forall i, j :: 0 <= i < j < |part| ==> Position(whole, part[i]) < Position(whole, part[j])
  }

  lemma PositionStays(init: seq<string>, last: string, x: string)
    requires x in init
    ensures Position(init + [last], x) == Position(init, x) < |init|
  {
    var k, n := Position(init, x), Position(init + [last], x);
    assert k < |init| by {
      var i :| 0 <= i < |init| && init[i] == x;
    }
    assert (init + [last])[k] == init[k];
  }

  lemma PositionOfNew(init: seq<string>, last: string)
    requires last !in init
    ensures Position(init + [last], last) == |init|
  {
    var n := Position(init + [last], last);
    assert (init + [last])[|init|] == last;
  }

  /** What the second list adds keeps the order it has there. */
  lemma {:induction false} MergeKeepsOrder(first: seq<string>, second: seq<string>)
    requires NoDuplicates(second)
    ensures first <= Merge(first, second)
    ensures InOrderOf(Merge(first, second)[|first|..], second)
  {
    if second != [] {
      var init, last := second[..|second| - 1], second[|second| - 1];
      assert second == init + [last];
      MergeKeepsOrder(first, init);
      assert last !in init;
      PositionOfNew(init, last);
      var added, all := Merge(first, init)[|first|..], Merge(first, second)[|first|..];
      assert all == added || all == added + [last];
      forall x | x in added ensures Position(second, x) == Position(init, x) < |init| {
        PositionStays(init, last, x);
      }
      forall i, j | 0 <= i < j < |all| ensures Position(second, all[i]) < Position(second, all[j]) {
        assert all[i] == added[i] && added[i] in added;
        if j < |added| {
          assert all[j] == added[j] && added[j] in added;
        }
      }
    }
  }

  method MergePaths(first: seq<string>, second: seq<string>) returns (paths: seq<string>)
    ensures paths == Merge(first, second)
    ensures NoDuplicates(first) && NoDuplicates(second) ==> Appended(first, second, paths)
  {
    if NoDuplicates(first) && NoDuplicates(second) {
      MergedPaths(first, second);
      MergeKeepsOrder(first, second);
    }
    paths := first;
    var i := 0;
    while i < |second|
      invariant 0 <= i <= |second|
      invariant paths == Merge(first, second[..i])
    {
      assert second[..i + 1][..i] == second[..i];
      if second[i] !in first {
        paths := paths + [second[i]];
      }
      i := i + 1;
    }
    assert second[..i] == second;
  }

  lemma {:induction false} MergedPaths(first: seq<string>, second: seq<string>)
    requires NoDuplicates(first) && NoDuplicates(second)
    ensures NoDuplicates(Merge(first, second))
    ensures forall p :: p in Merge(first, second) <==> p in first || p in second
    ensures first <= Merge(first, second)
  {
    if second != [] {
      var init, last := second[..|second| - 1], second[|second| - 1];
      MergedPaths(first, init);
      assert second == init + [last];
      forall p ensures p in second <==> p in init || p == last { }
    }
  }

  /** A path is changed when some result of some kind wrote it. */
  ghost predicate WrittenAs(results: seq<Record>, kind: Kind, p: string) {
    exists r :: r in results && Wrote(kind, r) && r.call.path == p
  }

  lemma ChangedMembers(results: seq<Record>, p: string)
    ensures p in ChangedPaths(results) <==>
            p in Named(CreatedPaths, results) || p in Named(AppliedPaths, results) || p in Named(EditedPaths, results)
  {
    NamedPaths(CreatedPaths, results);
    NamedPaths(AppliedPaths, results);
    NamedPaths(EditedPaths, results);
    MergedPaths(Named(AppliedPaths, results), Named(EditedPaths, results));
    MergedPaths(Named(CreatedPaths, results), ModifiedPaths(results));
  }

  lemma NamedMeansWritten(results: seq<Record>, kind: Kind, p: string)
    ensures p in Named(kind, results) <==> WrittenAs(results, kind, p)
  {
    NamedPaths(kind, results);
  }

  /** `changed_paths` names exactly the written paths. */
  lemma ChangedPathsAreExact(results: seq<Record>, p: string)
    ensures p in ChangedPaths(results) <==> exists kind :: WrittenAs(results, kind, p)
  {
    ChangedMembers(results, p);
    NamedMeansWritten(results, CreatedPaths, p);
    NamedMeansWritten(results, AppliedPaths, p);
    NamedMeansWritten(results, EditedPaths, p);
    if kind :| WrittenAs(results, kind, p) {
      assert kind == CreatedPaths || kind == AppliedPaths || kind == EditedPaths;
    }
  }

  /** Listed once each, in the order of the first writes. */
  ghost predicate InWriteOrder(kind: Kind, results: seq<Record>, paths: seq<string>) {
    && NoDuplicates(paths)
    && (forall p :: p in paths <==> WrittenAs(results, kind, p))
    && forall i, j :: 0 <= i < j < |paths| ==> FirstWrite(kind, results, paths[i]) < FirstWrite(kind, results, paths[j])
  }

  lemma NamedIsInWriteOrder(kind: Kind, results: seq<Record>)
    ensures InWriteOrder(kind, results, Named(kind, results))
  {
    var paths := Named(kind, results);
    NamedPaths(kind, results);
    forall i, j | 0 <= i < j < |paths|
      ensures FirstWrite(kind, results, paths[i]) < FirstWrite(kind, results, paths[j])
    {
      NamedInOrder(kind, results, i, j);
    }
  }

  /** `paths` is the first list, then exactly those of the second that are not in it, in their order. */
  ghost predicate Appended(first: seq<string>, second: seq<string>, paths: seq<string>) {
    && NoDuplicates(paths)
    && first <= paths
    && InOrderOf(paths[|first|..], second)
    && forall p :: p in paths <==> p in first || p in second
  }

  /** The path lists of a summary, built from the results: created paths in the order of their first writes, modified
      paths by the order of whole-file writes and then of edits, and changed paths with the created ones in front. */
  method SummaryPaths(results: seq<Record>) returns (created: seq<string>, modified: seq<string>, changed: seq<string>)
    ensures created == Named(CreatedPaths, results)
    ensures modified == ModifiedPaths(results) && changed == ChangedPaths(results)
    ensures InWriteOrder(CreatedPaths, results, created)
    ensures exists applied, edited ::
              && InWriteOrder(AppliedPaths, results, applied) && InWriteOrder(EditedPaths, results, edited)
              && Appended(applied, edited, modified)
    ensures Appended(created, modified, changed)
  {
    created := CollectPaths(CreatedPaths, results);
    var applied := CollectPaths(AppliedPaths, results);
    var edited := CollectPaths(EditedPaths, results);
    modified := MergePaths(applied, edited);
    changed := MergePaths(created, modified);
  }
}
