/** The plan validator: which plans are accepted, the typed steps an accepted plan stands for, and what fixes them. */
module PlanValidator {

  import opened Wrappers
  import opened Text
  import opened Paths
  import opened EditEngine
  import opened Workspace
  import opened PlanSchema
  import opened PlanHash
  import opened Summary
  import opened Executor
  import opened Atomicity
  import opened RunReport
  import Json
  import Lifecycle

  const MAX_STEPS_PER_PLAN := 25

  // ---------------------------------------------------------------------------
  // Arguments
  // ---------------------------------------------------------------------------

  /** A string argument. */
  function TextOf(v: Option<Value>): Option<string> {
    match v
    case Some(Str(text)) => Some(text)
    case _ => None
  }

  /** An integer argument; Python counts booleans as integers. */
  function IntOf(v: Value): Option<int> {
    match v
    case Int(n) => Some(n)
    case Bool(flag) => Some(if flag then 1 else 0)
    case _ => None
  }

  predicate IsAbsent(v: Option<Value>) {
    v.None? || v.value.Null?
  }

  /** An optional argument that must be a positive integer when present. */
  predicate PositiveIfPresent(v: Option<Value>) {
    IsAbsent(v) || (IntOf(v.value).Some? && IntOf(v.value).value > 0)
  }

  predicate IsText(v: Value) {
    v.Str? && !IsBlank(v.text)
  }

  /** A non-empty list of non-blank strings. */
  function ArgvOf(v: Option<Value>): Option<seq<string>> {
    match v
    case Some(List(items)) =>
      if items != [] && forall i :: 0 <= i < |items| ==> IsText(items[i]) then
        Some(seq(|items|, i requires 0 <= i < |items| => if items[i].Str? then items[i].text else ""))
      else None
    case _ => None
  }

  predicate KnownEditKeys(entries: seq<Entry>) {
    forall i :: 0 <= i < |entries| ==> entries[i].key in {"old_text", "new_text", "occurrence"}
  }

  function EditOf(v: Value): Option<Edit> {
    if !v.Dict? || !KnownEditKeys(v.entries) then None
    else
      var oldText, newText := TextOf(Lookup(v.entries, "old_text")), TextOf(Lookup(v.entries, "new_text"));
      var occurrence := Lookup(v.entries, "occurrence");
      if oldText.None? || newText.None? || !PositiveIfPresent(occurrence) then None
      else Some(Edit(oldText.value, newText.value, if IsAbsent(occurrence) then None else IntOf(occurrence.value)))
  }

  function EditsFrom(items: seq<Value>): (r: Option<seq<Edit>>)
    ensures r.Some? ==> |r.value| == |items|
  {
    if items == [] then Some([])
    else
      match (EditOf(items[0]), EditsFrom(items[1..]))
      case (Some(edit), Some(rest)) => Some([edit] + rest)
      case _ => None
  }

  function EditsOf(v: Option<Value>): Option<seq<Edit>> {
    match v
    case Some(List(items)) => if items == [] then None else EditsFrom(items)
    case _ => None
  }

  // ---------------------------------------------------------------------------
  // Steps
  // ---------------------------------------------------------------------------

  function PathOf(args: seq<Entry>): Option<string> {
    match TextOf(Lookup(args, "path"))
    case Some(path) => if SafeRelativePath(path) then Some(path) else None
    case None => None
  }

  /** A mutation step has a safe path and no command. */
  predicate MutationArgs(args: seq<Entry>) {
    PathOf(args).Some? && Lookup(args, "argv").None?
  }

  function PatchApplyOf(args: seq<Entry>): Option<Call> {
    var content := TextOf(Lookup(args, "new_content"));
    if MutationArgs(args) && content.Some? then Some(PatchApply(PathOf(args).value, content.value)) else None
  }

  function FileCreateOf(args: seq<Entry>): Option<Call> {
    var content := TextOf(Lookup(args, "content"));
    if MutationArgs(args) && content.Some? then Some(FileCreate(PathOf(args).value, content.value)) else None
  }

  function PatchEditOf(args: seq<Entry>): Option<Call> {
    var edits, expected := EditsOf(Lookup(args, "edits")), Lookup(args, "expected_file_sha256_before");
    if !MutationArgs(args) || edits.None? then None
    else if IsAbsent(expected) then Some(PatchEdit(PathOf(args).value, edits.value, None))
    else if IsText(expected.value) then Some(PatchEdit(PathOf(args).value, edits.value, Some(expected.value.text)))
    else None
  }

  function GitRunOf(args: seq<Entry>): Option<Call> {
    var argv := ArgvOf(Lookup(args, "argv"));
    if argv.Some? && PositiveIfPresent(Lookup(args, "timeout_seconds")) then Some(GitRun(argv.value)) else None
  }

  /** The working directory of a test run: a default when the key is missing, refused when it is anything else. */
  function CwdOf(args: seq<Entry>): Option<string> {
    match Lookup(args, "cwd")
    case None => Some(WORKSPACE_CWD)
    case Some(v) => if v == Str(WORKSPACE_CWD) || v == Str(APP_CWD) then Some(v.text) else None
  }

  function TestRunOf(args: seq<Entry>, allowed: seq<string> -> bool): Option<Call> {
    var argv, cwd := ArgvOf(Lookup(args, "argv")), CwdOf(args);
    if argv.Some? && cwd.Some? && PositiveIfPresent(Lookup(args, "timeout_seconds")) && allowed(argv.value) then
      Some(TestRun(argv.value, cwd.value))
    else None
  }

  /** The typed call of a step, when the validator accepts its tool, capability and arguments. */
  function CallOf(step: ToolStep, allowed: seq<string> -> bool): Option<Call> {
    if step.tool == "GIT_RUN" && step.capability == "git.run" then GitRunOf(step.args)
    else if step.tool == "PATCH_APPLY" && step.capability == "patch.apply" then PatchApplyOf(step.args)
    else if step.tool == "PATCH_EDIT" && step.capability == "patch.edit" then PatchEditOf(step.args)
    else if step.tool == "FILE_CREATE" && step.capability == "file.create" then FileCreateOf(step.args)
    else if step.tool == "TEST_RUN" && step.capability == "test.run" then TestRunOf(step.args, allowed)
    else None
  }

  // ---------------------------------------------------------------------------
  // What an accepted step stands for
  // ---------------------------------------------------------------------------

  predicate HasText(args: seq<Entry>, key: string, text: string) {
    Lookup(args, key) == Some(Str(text))
  }

  predicate Unset(args: seq<Entry>, key: string) {
    Lookup(args, key) == None || Lookup(args, key) == Some(Null)
  }

  /** The key holds the number; true counts as one. */
  predicate HasNumber(args: seq<Entry>, key: string, n: int) {
    Lookup(args, key) == Some(Int(n)) || (Lookup(args, key) == Some(Bool(true)) && n == 1)
  }

  ghost predicate PositiveOrUnset(args: seq<Entry>, key: string) {
    Unset(args, key) || exists n :: HasPositive(args, key, n)
  }

  predicate HasPositive(args: seq<Entry>, key: string, n: int) {
    n > 0 && HasNumber(args, key, n)
  }

  /** An object with just these keys: the old text, the new text, and an occurrence that may be left out. */
  ghost predicate EditStandsFor(v: Value, edit: Edit) {
    && v.Dict?
    && (forall entry :: entry in v.entries ==> entry.key in {"old_text", "new_text", "occurrence"})
    && HasText(v.entries, "old_text", edit.oldText)
    && HasText(v.entries, "new_text", edit.newText)
    && match edit.occurrence
       case None => Unset(v.entries, "occurrence")
       case Some(n) => HasPositive(v.entries, "occurrence", n)
  }

  ghost predicate HasEdits(args: seq<Entry>, edits: seq<Edit>) {
    exists items ::
      && Lookup(args, "edits") == Some(List(items))
      && |items| == |edits| > 0
      && forall i :: 0 <= i < |items| ==> EditStandsFor(items[i], edits[i])
  }

  ghost predicate HasArgv(args: seq<Entry>, argv: seq<string>) {
    exists items ::
      && Lookup(args, "argv") == Some(List(items))
      && |items| == |argv| > 0
      && forall i :: 0 <= i < |items| ==> items[i] == Str(argv[i]) && !IsBlank(argv[i])
  }

  predicate HasPath(args: seq<Entry>, path: string) {
    HasText(args, "path", path) && SafeRelativePath(path) && Lookup(args, "argv") == None
  }

  /** The step is a well-formed record of the call: its tool, its capability, and every argument under its key. */
  ghost predicate StandsFor(step: ToolStep, call: Call, allowed: seq<string> -> bool) {
    var args := step.args;
    match call
    case PatchApply(path, newContent) =>
      && step.tool == "PATCH_APPLY" && step.capability == "patch.apply"
      && HasPath(args, path) && HasText(args, "new_content", newContent)
    case FileCreate(path, content) =>
      && step.tool == "FILE_CREATE" && step.capability == "file.create"
      && HasPath(args, path) && HasText(args, "content", content)
    case PatchEdit(path, edits, expectedHash) =>
      && step.tool == "PATCH_EDIT" && step.capability == "patch.edit"
      && HasPath(args, path) && HasEdits(args, edits)
      && (match expectedHash
          case None => Unset(args, "expected_file_sha256_before")
          case Some(h) => HasText(args, "expected_file_sha256_before", h) && !IsBlank(h))
    case GitRun(argv) =>
      && step.tool == "GIT_RUN" && step.capability == "git.run"
      && HasArgv(args, argv) && PositiveOrUnset(args, "timeout_seconds")
    case TestRun(argv, cwd) =>
      && step.tool == "TEST_RUN" && step.capability == "test.run"
      && HasArgv(args, argv) && PositiveOrUnset(args, "timeout_seconds") && allowed(argv)
      && (HasText(args, "cwd", cwd) || (Lookup(args, "cwd") == None && cwd == "workspace"))
      && (cwd == "workspace" || cwd == "app")
  }

  lemma NumberMeans(args: seq<Entry>, key: string)
    ensures PositiveIfPresent(Lookup(args, key)) <==> PositiveOrUnset(args, key)
    ensures forall n :: HasPositive(args, key, n) <==>
              !IsAbsent(Lookup(args, key)) && IntOf(Lookup(args, key).value) == Some(n) && n > 0
  {
    forall n
      ensures HasPositive(args, key, n) <==>
              !IsAbsent(Lookup(args, key)) && IntOf(Lookup(args, key).value) == Some(n) && n > 0
    {
    }
    if PositiveIfPresent(Lookup(args, key)) && !Unset(args, key) {
      assert HasPositive(args, key, IntOf(Lookup(args, key).value).value);
    }
  }

  lemma EditMeans(v: Value, edit: Edit)
    ensures EditOf(v) == Some(edit) <==> EditStandsFor(v, edit)
  {
    if v.Dict? {
      NumberMeans(v.entries, "occurrence");
      KnownKeysMean(v.entries);
    }
  }

  lemma KnownKeysMean(entries: seq<Entry>)
    ensures KnownEditKeys(entries) <==>
            forall entry :: entry in entries ==> entry.key in {"old_text", "new_text", "occurrence"}
  {
    if KnownEditKeys(entries) {
      forall entry | entry in entries ensures entry.key in {"old_text", "new_text", "occurrence"} {
        var i :| 0 <= i < |entries| && entries[i] == entry;
      }
    }
  }

  lemma {:induction false} EditsMean(items: seq<Value>, edits: seq<Edit>)
    ensures EditsFrom(items) == Some(edits) <==>
            |items| == |edits| && forall i :: 0 <= i < |items| ==> EditStandsFor(items[i], edits[i])
  {
    if items != [] && edits != [] {
      EditMeans(items[0], edits[0]);
      EditsMean(items[1..], edits[1..]);
      assert edits == [edits[0]] + edits[1..];
    }
  }

  lemma EditArgsMean(args: seq<Entry>, edits: seq<Edit>)
    ensures EditsOf(Lookup(args, "edits")) == Some(edits) <==> HasEdits(args, edits)
  {
    var v := Lookup(args, "edits");
    if v.Some? && v.value.List? {
      EditsMean(v.value.items, edits);
    }
  }

  lemma ArgvMeans(args: seq<Entry>, argv: seq<string>)
    ensures ArgvOf(Lookup(args, "argv")) == Some(argv) <==> HasArgv(args, argv)
  {
    var v := Lookup(args, "argv");
    if ArgvOf(v) == Some(argv) {
      assert v.value.items == v.value.items && |v.value.items| == |argv| > 0;
      assert forall i :: 0 <= i < |argv| ==> v.value.items[i] == Str(argv[i]) && !IsBlank(argv[i]);
    }
    if HasArgv(args, argv) {
      var items := v.value.items;
      assert forall i :: 0 <= i < |items| ==> IsText(items[i]);
      assert ArgvOf(v).value == argv;
    }
  }

  lemma PathMeans(args: seq<Entry>, path: string)
    ensures MutationArgs(args) && PathOf(args) == Some(path) <==> HasPath(args, path)
  {
  }

  lemma MutationMeans(args: seq<Entry>, path: string)
    ensures forall content :: PatchApplyOf(args) == Some(PatchApply(path, content)) <==>
                              HasPath(args, path) && HasText(args, "new_content", content)
    ensures forall content :: FileCreateOf(args) == Some(FileCreate(path, content)) <==>
                              HasPath(args, path) && HasText(args, "content", content)
  {
    PathMeans(args, path);
  }

  lemma EditCallMeans(args: seq<Entry>, path: string, edits: seq<Edit>, expectedHash: Option<string>)
    ensures PatchEditOf(args) == Some(PatchEdit(path, edits, expectedHash)) <==>
            && HasPath(args, path) && HasEdits(args, edits)
            && match expectedHash
               case None => Unset(args, "expected_file_sha256_before")
               case Some(h) => HasText(args, "expected_file_sha256_before", h) && !IsBlank(h)
  {
    PathMeans(args, path);
    EditArgsMean(args, edits);
  }

  lemma CommandMeans(args: seq<Entry>, argv: seq<string>, cwd: string, allowed: seq<string> -> bool)
    ensures GitRunOf(args) == Some(GitRun(argv)) <==> HasArgv(args, argv) && PositiveOrUnset(args, "timeout_seconds")
    ensures TestRunOf(args, allowed) == Some(TestRun(argv, cwd)) <==>
            && HasArgv(args, argv) && PositiveOrUnset(args, "timeout_seconds") && allowed(argv)
            && (HasText(args, "cwd", cwd) || (Lookup(args, "cwd") == None && cwd == "workspace"))
            && (cwd == "workspace" || cwd == "app")
  {
    ArgvMeans(args, argv);
    NumberMeans(args, "timeout_seconds");
  }

  lemma WholeFileStands(step: ToolStep, call: Call, allowed: seq<string> -> bool)
    requires call.PatchApply? || call.FileCreate?
    ensures CallOf(step, allowed) == Some(call) <==> StandsFor(step, call, allowed)
  {
    MutationMeans(step.args, call.path);
  }

  lemma EditCallStands(step: ToolStep, call: Call, allowed: seq<string> -> bool)
    requires call.PatchEdit?
    ensures CallOf(step, allowed) == Some(call) <==> StandsFor(step, call, allowed)
  {
    EditCallMeans(step.args, call.path, call.edits, call.expectedHash);
  }

  lemma CommandStands(step: ToolStep, call: Call, allowed: seq<string> -> bool)
    requires call.GitRun? || call.TestRun?
    ensures CallOf(step, allowed) == Some(call) <==> StandsFor(step, call, allowed)
  {
    CommandMeans(step.args, call.argv, if call.TestRun? then call.cwd else "workspace", allowed);
  }

  /** The validator accepts a step as a call exactly when the step is a well-formed record of that call. */
  lemma CallStandsFor(step: ToolStep, call: Call, allowed: seq<string> -> bool)
    ensures CallOf(step, allowed) == Some(call) <==> StandsFor(step, call, allowed)
  {
    match call
    case PatchApply(_, _) => WholeFileStands(step, call, allowed);
    case FileCreate(_, _) => WholeFileStands(step, call, allowed);
    case PatchEdit(_, _, _) => EditCallStands(step, call, allowed);
    case GitRun(_) => CommandStands(step, call, allowed);
    case TestRun(_, _) => CommandStands(step, call, allowed);
  }

  // ---------------------------------------------------------------------------
  // Recording a call
  // ---------------------------------------------------------------------------

  /** What a planner may ask for. */
  predicate WellFormed(call: Call, allowed: seq<string> -> bool) {
    match call
    case PatchApply(path, _) => SafeRelativePath(path)
    case FileCreate(path, _) => SafeRelativePath(path)
    case PatchEdit(path, edits, expectedHash) =>
      && SafeRelativePath(path) && edits != []
      && (forall i :: 0 <= i < |edits| ==> edits[i].occurrence.Some? ==> edits[i].occurrence.value > 0)
      && (expectedHash.Some? ==> !IsBlank(expectedHash.value))
    case GitRun(argv) => argv != [] && forall i :: 0 <= i < |argv| ==> !IsBlank(argv[i])
    case TestRun(argv, cwd) =>
      && argv != [] && (forall i :: 0 <= i < |argv| ==> !IsBlank(argv[i]))
      && allowed(argv) && (cwd == "workspace" || cwd == "app")
  }

  function RecordedEdit(edit: Edit): Value {
    var texts := [Entry("old_text", Str(edit.oldText)), Entry("new_text", Str(edit.newText))];
    Dict(texts + match edit.occurrence case None => [] case Some(n) => [Entry("occurrence", Int(n))])
  }

  function RecordedEdits(edits: seq<Edit>): (r: seq<Value>)
    ensures |r| == |edits| && forall i :: 0 <= i < |edits| ==> r[i] == RecordedEdit(edits[i])
  {
    seq(|edits|, i requires 0 <= i < |edits| => RecordedEdit(edits[i]))
  }

  function RecordedArgv(argv: seq<string>): (r: seq<Value>)
    ensures |r| == |argv| && forall i :: 0 <= i < |argv| ==> r[i] == Str(argv[i])
  {
    seq(|argv|, i requires 0 <= i < |argv| => Str(argv[i]))
  }

  /** The stored step of a call. */
  function Recorded(id: int, call: Call): ToolStep {
    match call
    case PatchApply(path, newContent) =>
      ToolStep(id, "PATCH_APPLY", "patch.apply", [Entry("path", Str(path)), Entry("new_content", Str(newContent))])
    case FileCreate(path, content) =>
      ToolStep(id, "FILE_CREATE", "file.create", [Entry("path", Str(path)), Entry("content", Str(content))])
    case PatchEdit(path, edits, expectedHash) =>
      ToolStep(id, "PATCH_EDIT", "patch.edit",
               [Entry("path", Str(path)), Entry("edits", List(RecordedEdits(edits)))] + RecordedGuard(expectedHash))
    case GitRun(argv) =>
      ToolStep(id, "GIT_RUN", "git.run", [Entry("argv", List(RecordedArgv(argv)))])
    case TestRun(argv, cwd) =>
      ToolStep(id, "TEST_RUN", "test.run", [Entry("argv", List(RecordedArgv(argv))), Entry("cwd", Str(cwd))])
  }

  lemma LookupTwo(a: Entry, b: Entry, more: seq<Entry>, key: string)
    ensures Lookup([a, b] + more, key) ==
            if a.key == key then Some(a.value) else if b.key == key then Some(b.value) else Lookup(more, key)
  {
    assert ([a, b] + more)[1..] == [b] + more && ([b] + more)[1..] == more;
  }

  lemma LookupOne(a: Entry, key: string)
    ensures Lookup([a], key) == if a.key == key then Some(a.value) else None
  {
    assert [a][1..] == [];
  }

  lemma RecordedEditStands(edit: Edit)
    requires edit.occurrence.Some? ==> edit.occurrence.value > 0
    ensures EditStandsFor(RecordedEdit(edit), edit)
  {
    var a, b := Entry("old_text", Str(edit.oldText)), Entry("new_text", Str(edit.newText));
    var more := match edit.occurrence case None => [] case Some(n) => [Entry("occurrence", Int(n))];
    LookupTwo(a, b, more, "old_text");
    LookupTwo(a, b, more, "new_text");
    LookupTwo(a, b, more, "occurrence");
    if edit.occurrence.Some? {
      LookupOne(Entry("occurrence", Int(edit.occurrence.value)), "occurrence");
    }
    assert RecordedEdit(edit).entries == [a, b] + more;
  }

  lemma RecordedTexts(a: Entry, b: Entry)
    ensures [a, b] + [] == [a, b]
    ensures forall key :: Lookup([a, b], key) ==
              if a.key == key then Some(a.value) else if b.key == key then Some(b.value) else None
  {
    forall key ensures Lookup([a, b], key) ==
                       if a.key == key then Some(a.value) else if b.key == key then Some(b.value) else None {
      LookupTwo(a, b, [], key);
      assert [a, b] + [] == [a, b];
    }
  }

  function RecordedGuard(expectedHash: Option<string>): seq<Entry> {
    match expectedHash case None => [] case Some(h) => [Entry("expected_file_sha256_before", Str(h))]
  }

  lemma RecordedGuardHolds(a: Entry, b: Entry, expectedHash: Option<string>)
    requires a.key == "path" && b.key == "edits"
    ensures var args := [a, b] + RecordedGuard(expectedHash);
            && Lookup(args, "path") == Some(a.value) && Lookup(args, "edits") == Some(b.value)
            && Lookup(args, "argv") == None
            && Lookup(args, "expected_file_sha256_before") ==
               if expectedHash.Some? then Some(Str(expectedHash.value)) else None
  {
    var guard := RecordedGuard(expectedHash);
    LookupTwo(a, b, guard, "path");
    LookupTwo(a, b, guard, "edits");
    LookupTwo(a, b, guard, "argv");
    LookupTwo(a, b, guard, "expected_file_sha256_before");
    if expectedHash.Some? {
      LookupOne(guard[0], "argv");
      LookupOne(guard[0], "expected_file_sha256_before");
    }
  }

  lemma RecordedEditsHold(args: seq<Entry>, edits: seq<Edit>)
    requires Lookup(args, "edits") == Some(List(RecordedEdits(edits))) && edits != []
    requires forall i :: 0 <= i < |edits| ==> edits[i].occurrence.Some? ==> edits[i].occurrence.value > 0
    ensures HasEdits(args, edits)
  {
    forall i | 0 <= i < |edits| ensures EditStandsFor(RecordedEdits(edits)[i], edits[i]) {
      RecordedEditStands(edits[i]);
    }
  }

  lemma RecordedEditCallStands(id: int, path: string, edits: seq<Edit>, expectedHash: Option<string>,
                               allowed: seq<string> -> bool)
    requires WellFormed(PatchEdit(path, edits, expectedHash), allowed)
    ensures StandsFor(Recorded(id, PatchEdit(path, edits, expectedHash)), PatchEdit(path, edits, expectedHash), allowed)
  {
    var a, b := Entry("path", Str(path)), Entry("edits", List(RecordedEdits(edits)));
    RecordedGuardHolds(a, b, expectedHash);
    RecordedEditsHold(Recorded(id, PatchEdit(path, edits, expectedHash)).args, edits);
  }

  lemma RecordedCommandStands(id: int, call: Call, allowed: seq<string> -> bool)
    requires WellFormed(call, allowed) && (call.GitRun? || call.TestRun?)
    ensures StandsFor(Recorded(id, call), call, allowed)
  {
    var args := Recorded(id, call).args;
    var argv := Entry("argv", List(RecordedArgv(call.argv)));
    if call.TestRun? {
      RecordedTexts(argv, Entry("cwd", Str(call.cwd)));
    } else {
      forall key ensures Lookup(args, key) == if key == "argv" then Some(argv.value) else None {
        LookupOne(argv, key);
      }
    }
    assert HasArgv(args, call.argv);
  }

  /** The record of every well-formed call is accepted, as that call. */
  lemma RecordedCallIsAccepted(id: int, call: Call, allowed: seq<string> -> bool)
    requires WellFormed(call, allowed)
    ensures CallOf(Recorded(id, call), allowed) == Some(call)
  {
    match call {
      case PatchApply(path, newContent) =>
        RecordedTexts(Entry("path", Str(path)), Entry("new_content", Str(newContent)));
      case FileCreate(path, content) =>
        RecordedTexts(Entry("path", Str(path)), Entry("content", Str(content)));
      case PatchEdit(path, edits, expectedHash) =>
        RecordedEditCallStands(id, path, edits, expectedHash, allowed);
      case _ =>
        RecordedCommandStands(id, call, allowed);
    }
    CallStandsFor(Recorded(id, call), call, allowed);
  }

  // ---------------------------------------------------------------------------
  // Plans
  // ---------------------------------------------------------------------------

  predicate ValidPlan(plan: Plan, allowed: seq<string> -> bool) {
    && !IsBlank(plan.planId)
    && 1 <= |plan.steps| <= 25
    && forall i :: 0 <= i < |plan.steps| ==> plan.steps[i].stepId == i + 1 && CallOf(plan.steps[i], allowed).Some?
  }

  /** The typed steps an accepted plan stands for. */
  function TypedSteps(plan: Plan, allowed: seq<string> -> bool): (steps: seq<Step>)
    requires ValidPlan(plan, allowed)
    ensures |steps| == |plan.steps|
  {
    seq(|plan.steps|, i requires 0 <= i < |plan.steps| => Step(i + 1, CallOf(plan.steps[i], allowed).value))
  }

  datatype PlanError = BlankPlanId | NoSteps | TooManySteps | DuplicateStepId | StepIdNotSequential | BadStep

  /** The validator with its growing set of seen ids; a step refused as a duplicate repeats an earlier id. */
  method ValidatePlan(plan: Plan, allowed: seq<string> -> bool) returns (r: Result<seq<Step>, PlanError>)
    ensures r.Success? <==> ValidPlan(plan, allowed)
    ensures r.Success? ==> r.value == TypedSteps(plan, allowed)
    ensures r.Success? ==> |r.value| == |plan.steps|
                           && forall i :: 0 <= i < |r.value| ==> StandsFor(plan.steps[i], r.value[i].call, allowed)
    ensures r == Failure(DuplicateStepId) ==>
            exists i, j :: 0 <= i < j < |plan.steps| && plan.steps[i].stepId == plan.steps[j].stepId
  {
    if IsBlank(plan.planId) {
      return Failure(BlankPlanId);
    }
    if |plan.steps| == 0 {
      return Failure(NoSteps);
    }
    if |plan.steps| > MAX_STEPS_PER_PLAN {
      return Failure(TooManySteps);
    }
    var seen: set<int> := {};
    var steps: seq<Step> := [];
    for k := 0 to |plan.steps|
      invariant |steps| == k
      invariant seen == set i | 0 <= i < k :: plan.steps[i].stepId
      invariant forall i :: 0 <= i < k ==> plan.steps[i].stepId == i + 1 && CallOf(plan.steps[i], allowed).Some?
      invariant forall i :: 0 <= i < k ==> steps[i] == Step(i + 1, CallOf(plan.steps[i], allowed).value)
    {
      var step := plan.steps[k];
      if step.stepId in seen {
        return Failure(DuplicateStepId);
      }
      if step.stepId != k + 1 {
        return Failure(StepIdNotSequential);
      }
      seen := seen + {step.stepId};
      var call := CallOf(step, allowed);
      if call.None? {
        return Failure(BadStep);
      }
      steps := steps + [Step(step.stepId, call.value)];
    }
    forall i | 0 <= i < |steps| ensures StandsFor(plan.steps[i], steps[i].call, allowed) {
      CallStandsFor(plan.steps[i], steps[i].call, allowed);
    }
    r := Success(steps);
  }

  /** What the later checks rely on: every step of an accepted plan is inside the workspace or an allowed command. */
  lemma AcceptedStepsAreSafe(plan: Plan, cfg: Config, i: nat)
    requires ValidPlan(plan, cfg.testArgvAllowed) && i < |plan.steps|
    ensures var call := TypedSteps(plan, cfg.testArgvAllowed)[i].call;
            && ValidTestRun(cfg, call)
            && (call.Mutates() ==>
                && SafeRelativePath(call.path)
                && Target(cfg, call) == ResolvePlanPath(cfg.root, call.path) == Some(cfg.root + Split(call.path, '/'))
                && |cfg.root| < |Target(cfg, call).value|)
  {
    var call := TypedSteps(plan, cfg.testArgvAllowed)[i].call;
    if call.Mutates() {
      SafePathIsStrictDescendant(cfg.root, call.path);
    }
  }

  /** The tools read the arguments of an accepted step as the validator does. */
  ghost predicate ReadsAccepted(cfg: Config) {
    forall step :: CallOf(step, cfg.testArgvAllowed).Some? ==> cfg.read(step) == CallOf(step, cfg.testArgvAllowed).value
  }

  /** The steps a run of an accepted plan goes through are the plan's typed steps. */
  lemma AcceptedStepsAreRead(plan: Plan, cfg: Config)
    requires ValidPlan(plan, cfg.testArgvAllowed) && ReadsAccepted(cfg)
    ensures StepsOf(cfg, plan) == TypedSteps(plan, cfg.testArgvAllowed)
  {
  }

  /** A run under the hash of an accepted plan that ends in SUCCESS, with test tokens that stayed live, has no failed
      test: all its tests passed. */
  lemma SuccessOfAcceptedPlan(plan: Plan, l: Launch)
    requires ValidPlan(plan, l.cfg.testArgvAllowed) && ReadsAccepted(l.cfg)
    requires CheckedPlan(l).Success? ==> FromFile(CheckedPlan(l).value)
    requires CollisionFree(l.cfg.sha) && PlainPlan(plan) && l.hash == ComputePlanHash(l.cfg.sha, plan)
    requires TestTokensStayLive(TypedSteps(plan, l.cfg.testArgvAllowed), l.env.steps)
    ensures var outcome := Execute(l).2;
            outcome.Returned? && outcome.status == SUCCESS ==>
            && Count(outcome.results, IsFailedTest) == 0
            && Count(outcome.results, IsPassedTest) == Count(outcome.results, IsTest)
  {
    if CheckedPlan(l).Success? {
      RunsTypedSteps(plan, l);
      var steps := StepsAt(l);
      forall s | s in steps ensures ValidTestRun(l.cfg, s.call) {
        var i :| 0 <= i < |steps| && steps[i] == s;
        AcceptedStepsAreSafe(plan, l.cfg, i);
      }
      SuccessMeansTestsPassed(l);
    }
  }

  /** Whatever plan file preflight lets through under the hash of an accepted plan, the run goes through that plan's
      steps. */
  lemma RunsTypedSteps(plan: Plan, l: Launch)
    requires ValidPlan(plan, l.cfg.testArgvAllowed) && ReadsAccepted(l.cfg)
    requires CheckedPlan(l).Success? && FromFile(CheckedPlan(l).value)
    requires CollisionFree(l.cfg.sha) && PlainPlan(plan) && l.hash == ComputePlanHash(l.cfg.sha, plan)
    ensures StepsAt(l) == TypedSteps(plan, l.cfg.testArgvAllowed)
  {
    var loaded := CheckedPlan(l).value;
    CheckedMeansApproved(l);
    HashFixesTypedSteps(l.cfg.sha, plan, loaded, l.cfg.testArgvAllowed);
    AcceptedStepsAreRead(loaded, l.cfg);
  }

  // ---------------------------------------------------------------------------
  // The hash fixes the typed steps
  // ---------------------------------------------------------------------------

  ghost predicate Agree(v: Option<Value>, w: Option<Value>) {
    (v.None? && w.None?) || (v.Some? && w.Some? && Equivalent(v.value, w.value))
  }

  predicate IsScalar(v: Value) {
    !v.List? && !v.Tuple? && !v.Dict?
  }

  lemma ScalarsAgree(v: Value, w: Value)
    requires Equivalent(v, w)
    ensures IsScalar(v) || IsScalar(w) ==> v == w
  {
  }

  lemma {:induction false} LookupMisses(entries: seq<Entry>, key: string)
    ensures Lookup(entries, key).None? <==> !HasKey(entries, key)
  {
    if entries != [] && entries[0].key != key {
      LookupMisses(entries[1..], key);
      assert HasKey(entries, key) <==> HasKey(entries[1..], key) by {
        if HasKey(entries, key) {
          var i :| 0 <= i < |entries| && entries[i].key == key;
          assert entries[1..][i - 1].key == key;
        }
      }
    }
  }

  /** Equivalent dictionaries hold equivalent values under every key. */
  lemma LookupsAgree(es: seq<Entry>, fs: seq<Entry>, key: string)
    requires DistinctKeys(es) && DistinctKeys(fs) && Equivalent(Dict(es), Dict(fs))
    ensures Agree(Lookup(es, key), Lookup(fs, key))
  {
    LookupMisses(es, key);
    LookupMisses(fs, key);
    if HasKey(es, key) {
      var i :| 0 <= i < |es| && es[i].key == key;
      var j :| 0 <= j < |fs| && fs[j].key == key;
      LookupFinds(es, es[i]);
      LookupFinds(fs, fs[j]);
    }
  }

  lemma {:induction false} LookupIsMember(entries: seq<Entry>, key: string)
    requires Lookup(entries, key).Some?
    ensures exists i :: 0 <= i < |entries| && entries[i].value == Lookup(entries, key).value
  {
    if entries[0].key != key {
      LookupIsMember(entries[1..], key);
      var i :| 0 <= i < |entries[1..]| && entries[1..][i].value == Lookup(entries[1..], key).value;
      assert entries[i + 1].value == Lookup(entries, key).value;
    } else {
      assert entries[0].value == Lookup(entries, key).value;
    }
  }

  /** A value as plan files hold it; a loaded one has no tuples. */
  ghost predicate Loaded(v: Value) {
    PlainValue(v) && Json.JsonValue(v)
  }

  lemma PlainLookup(entries: seq<Entry>, key: string)
    requires Lookup(entries, key).Some?
    ensures PlainValue(Dict(entries)) ==> PlainValue(Lookup(entries, key).value)
    ensures Json.JsonValue(Dict(entries)) ==> Json.JsonValue(Lookup(entries, key).value)
  {
    LookupIsMember(entries, key);
  }

  lemma ArgvsAgree(v: Option<Value>, w: Option<Value>)
    requires Agree(v, w) && ArgvOf(v).Some? && Json.JsonValue(w.value)
    ensures ArgvOf(w) == ArgvOf(v)
  {
    var items, others := v.value.items, w.value.items;
    forall i | 0 <= i < |items| ensures items[i] == others[i] {
      assert Equivalent(items[i], others[i]);
      ScalarsAgree(items[i], others[i]);
    }
    assert items == others;
  }

  lemma EditAgrees(v: Value, w: Value)
    requires PlainValue(v) && PlainValue(w) && Equivalent(v, w) && EditOf(v).Some?
    ensures EditOf(w) == EditOf(v)
  {
    LookupsAgree(v.entries, w.entries, "old_text");
    LookupsAgree(v.entries, w.entries, "new_text");
    LookupsAgree(v.entries, w.entries, "occurrence");
    ScalarLookup(v.entries, w.entries, "old_text");
    ScalarLookup(v.entries, w.entries, "new_text");
    ScalarLookup(v.entries, w.entries, "occurrence");
    forall j | 0 <= j < |w.entries| ensures w.entries[j].key in {"old_text", "new_text", "occurrence"} {
      assert HasKey(w.entries, w.entries[j].key);
      var i :| 0 <= i < |v.entries| && v.entries[i].key == w.entries[j].key;
    }
  }

  /** A scalar under a key is the same in an equivalent dictionary. */
  lemma ScalarLookup(es: seq<Entry>, fs: seq<Entry>, key: string)
    requires DistinctKeys(es) && DistinctKeys(fs) && Equivalent(Dict(es), Dict(fs))
    ensures Lookup(es, key).None? || IsScalar(Lookup(es, key).value) ==> Lookup(fs, key) == Lookup(es, key)
  {
    LookupsAgree(es, fs, key);
    if Lookup(es, key).Some? {
      ScalarsAgree(Lookup(es, key).value, Lookup(fs, key).value);
    }
  }

  lemma {:induction false} EditListsAgree(items: seq<Value>, others: seq<Value>)
    requires |items| == |others| && EditsFrom(items).Some?
    requires forall i :: 0 <= i < |items| ==>
               PlainValue(items[i]) && PlainValue(others[i]) && Equivalent(items[i], others[i])
    ensures EditsFrom(others) == EditsFrom(items)
  {
    if items != [] {
      EditAgrees(items[0], others[0]);
      EditListsAgree(items[1..], others[1..]);
    }
  }

  lemma EditArgsAgree(v: Option<Value>, w: Option<Value>)
    requires Agree(v, w) && EditsOf(v).Some? && PlainValue(v.value) && Loaded(w.value)
    ensures EditsOf(w) == EditsOf(v)
  {
    EditListsAgree(v.value.items, w.value.items);
  }

  /** The argument under `key` is the same on both sides, if a step may use it as a scalar or leave it out. */
  predicate SameScalar(es: seq<Entry>, fs: seq<Entry>, key: string) {
    Lookup(es, key).None? || IsScalar(Lookup(es, key).value) ==> Lookup(fs, key) == Lookup(es, key)
  }

  predicate SameArguments(es: seq<Entry>, fs: seq<Entry>) {
    && (forall key :: key in {"path", "new_content", "content", "expected_file_sha256_before", "timeout_seconds", "cwd",
                              "argv"} ==>
          SameScalar(es, fs, key))
    && (ArgvOf(Lookup(es, "argv")).Some? ==> ArgvOf(Lookup(fs, "argv")) == ArgvOf(Lookup(es, "argv")))
    && (EditsOf(Lookup(es, "edits")).Some? ==> EditsOf(Lookup(fs, "edits")) == EditsOf(Lookup(es, "edits")))
  }

  lemma EquivalentArguments(es: seq<Entry>, fs: seq<Entry>)
    requires PlainEntries(es) && Loaded(Dict(fs)) && Equivalent(Dict(es), Dict(fs))
    ensures SameArguments(es, fs)
  {
    forall key ensures SameScalar(es, fs, key) {
      ScalarLookup(es, fs, key);
    }
    if ArgvOf(Lookup(es, "argv")).Some? {
      LookupsAgree(es, fs, "argv");
      PlainLookup(fs, "argv");
      ArgvsAgree(Lookup(es, "argv"), Lookup(fs, "argv"));
    }
    if EditsOf(Lookup(es, "edits")).Some? {
      LookupsAgree(es, fs, "edits");
      PlainLookup(es, "edits");
      PlainLookup(fs, "edits");
      EditArgsAgree(Lookup(es, "edits"), Lookup(fs, "edits"));
    }
  }

  lemma MutationArgsAgree(es: seq<Entry>, fs: seq<Entry>)
    requires SameArguments(es, fs) && MutationArgs(es)
    ensures MutationArgs(fs) && PathOf(fs) == PathOf(es)
  {
    assert SameScalar(es, fs, "path") && SameScalar(es, fs, "argv");
  }

  lemma WholeFilesAgree(es: seq<Entry>, fs: seq<Entry>)
    requires SameArguments(es, fs)
    ensures PatchApplyOf(es).Some? ==> PatchApplyOf(fs) == PatchApplyOf(es)
    ensures FileCreateOf(es).Some? ==> FileCreateOf(fs) == FileCreateOf(es)
  {
    if MutationArgs(es) {
      MutationArgsAgree(es, fs);
      assert SameScalar(es, fs, "new_content") && SameScalar(es, fs, "content");
    }
  }

  lemma EditCallsAgree(es: seq<Entry>, fs: seq<Entry>)
    requires SameArguments(es, fs) && PatchEditOf(es).Some?
    ensures PatchEditOf(fs) == PatchEditOf(es)
  {
    MutationArgsAgree(es, fs);
    assert SameScalar(es, fs, "expected_file_sha256_before");
  }

  lemma CommandsAgree(es: seq<Entry>, fs: seq<Entry>, allowed: seq<string> -> bool)
    requires SameArguments(es, fs)
    ensures GitRunOf(es).Some? ==> GitRunOf(fs) == GitRunOf(es)
    ensures TestRunOf(es, allowed).Some? ==> TestRunOf(fs, allowed) == TestRunOf(es, allowed)
  {
    assert SameScalar(es, fs, "timeout_seconds") && SameScalar(es, fs, "cwd");
  }

  /** Equivalent arguments read from a file stand for the same call. */
  lemma CallsAgree(s: ToolStep, t: ToolStep, allowed: seq<string> -> bool)
    requires SameStep(s, t) && CallOf(s, allowed).Some?
    requires PlainEntries(s.args) && Loaded(Dict(t.args))
    ensures CallOf(t, allowed) == CallOf(s, allowed)
  {
    EquivalentArguments(s.args, t.args);
    WholeFilesAgree(s.args, t.args);
    if PatchEditOf(s.args).Some? {
      EditCallsAgree(s.args, t.args);
    }
    CommandsAgree(s.args, t.args, allowed);
  }

  /** A plan as read from a file: its arguments are JSON values with distinct keys. */
  ghost predicate FromFile(plan: Plan) {
    PlainPlan(plan) && forall i :: 0 <= i < |plan.steps| ==> Loaded(Dict(plan.steps[i].args))
  }

  /** A plan file that has the hash of an accepted plan is accepted too, and stands for the same typed steps. */
  lemma HashFixesTypedSteps(sha: string -> string, p: Plan, q: Plan, allowed: seq<string> -> bool)
    requires CollisionFree(sha) && PlainPlan(p) && ValidPlan(p, allowed) && FromFile(q)
    requires ComputePlanHash(sha, p) == ComputePlanHash(sha, q)
    ensures ValidPlan(q, allowed) && TypedSteps(q, allowed) == TypedSteps(p, allowed)
  {
    HashIdentifiesPlan(sha, p, q);
    forall i | 0 <= i < |p.steps|
      ensures q.steps[i].stepId == i + 1 && CallOf(q.steps[i], allowed) == CallOf(p.steps[i], allowed)
    {
      assert SameStep(p.steps[i], q.steps[i]);
      CallsAgree(p.steps[i], q.steps[i], allowed);
    }
  }

  /** In every schedule, the steps run under the hash of an accepted plan are that plan's typed steps, whatever was
      written over the plan files in between. */
  lemma RunStepsAreTheAcceptedSteps(sha: string -> string, schedule: seq<Lifecycle.Action>, i: nat, p: Plan,
                                    allowed: seq<string> -> bool)
    requires CollisionFree(sha) && PlainPlan(p) && ValidPlan(p, allowed)
    requires i < |Lifecycle.Run(sha, schedule).history|
    requires var e := Lifecycle.Run(sha, schedule).history[i];
             e.hash == ComputePlanHash(sha, p) && FromFile(e.plan)
    ensures var e := Lifecycle.Run(sha, schedule).history[i];
            ValidPlan(e.plan, allowed) && TypedSteps(e.plan, allowed) == TypedSteps(p, allowed)
  {
    Lifecycle.StepsBelongToApprovedPlan(sha, schedule, i, i);
    HashFixesTypedSteps(sha, p, Lifecycle.Run(sha, schedule).history[i].plan, allowed);
  }

  /** The stored form of an accepted plan is read back as an accepted plan with the same typed steps. */
  lemma StoredPlanKeepsItsSteps(plan: Plan, allowed: seq<string> -> bool)
    requires PlainPlan(plan) && ValidPlan(plan, allowed)
    ensures var loaded := ReadPlan(StoredText(plan));
            loaded.Some? && ValidPlan(loaded.value, allowed) &&
                TypedSteps(loaded.value, allowed) == TypedSteps(plan, allowed)
  {
    StoredPlanReloads(s => s, plan);
    var loaded := CanonPlan(plan);
    CanonicalPlanIsFromFile(plan);
    HashFixesTypedSteps(s => s, plan, loaded, allowed);
  }

  lemma CanonicalPlanIsFromFile(plan: Plan)
    requires PlainPlan(plan)
    ensures FromFile(CanonPlan(plan))
  {
    DictEquivalentToCanon(plan.metadata);
    forall i | 0 <= i < |plan.steps| ensures Loaded(Dict(CanonPlan(plan).steps[i].args)) {
      DictEquivalentToCanon(plan.steps[i].args);
      CanonIsJson(Dict(plan.steps[i].args));
    }
  }
}
