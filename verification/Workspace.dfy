/** The target workspace: its files, the plan steps, and what each tool does to the files through the gateway. */
module Workspace {

  import opened Wrappers
  import opened Text
  import opened Paths
  import opened EditEngine
  import opened PlanSchema
  import Capabilities
  import GitPolicy

  // ---------------------------------------------------------------------------
  // Files
  // ---------------------------------------------------------------------------

  /** The text of every regular file, by resolved path. */
  type Files = map<Path, string>

  /** Whether a path holds a file, and its text. */
  function StateAt(files: Files, p: Path): Option<string> {
    if p in files then Some(files[p]) else None
  }

  function SetState(files: Files, p: Path, state: Option<string>): Files {
    match state
    case None => files - {p}
    case Some(text) => files[p := text]
  }

  /** A file is not a directory, and its parent directory exists. */
  predicate Placed(files: Files, dirs: set<Path>, p: Path) {
    p in files ==> p !in dirs && HasParent(dirs, p)
  }

  predicate HasParent(dirs: set<Path>, p: Path) {
    p != [] && p[..|p| - 1] in dirs
  }

  // ---------------------------------------------------------------------------
  // Plan steps
  // ---------------------------------------------------------------------------

  datatype Call =
    | PatchApply(path: string, newContent: string)
    | PatchEdit(path: string, edits: seq<Edit>, expectedHash: Option<string>)
    | FileCreate(path: string, content: string)
    | TestRun(argv: seq<string>, cwd: string)
    | GitRun(argv: seq<string>)
  {
    predicate Mutates() {
      PatchApply? || PatchEdit? || FileCreate?
    }
  }

  datatype Step = Step(stepId: int, call: Call)

  /** What stays fixed during a run. */
  datatype Config = Config(
    root: Path,                               // the workspace root
    dirs: set<Path>,                          // the directories
    sha: string -> string,                    // the digest
    testArgvAllowed: seq<string> -> bool,     // the TEST_RUN allow-list
    read: ToolStep -> Call                    // how the tools read the arguments of a stored step
  )

  const MAX_FILE_SIZE_BYTES := 2 * 1024 * 1024
  const MAX_CREATE_SIZE_BYTES := 64 * 1024

  // ---------------------------------------------------------------------------
  // What the outside world decides about one step
  // ---------------------------------------------------------------------------

  /** A write completes, or fails and leaves the target in some state of its own. */
  datatype Write = Clean | Torn(left: Option<string>, message: string)

  /** What happens to the token files around one step: its token is issued under a new id, and used later. */
  datatype TokenTrail = TokenTrail(
    before: seq<Capabilities.Event>,
    id: Capabilities.TokenId,
    issued: int,
    between: seq<Capabilities.Event>,
    used: int
  )

  /** Everything about one step that the plan and the files do not determine. */
  datatype StepEnv = StepEnv(
    lateBefore: bool,                      // the time budget is exceeded when the step is reached
    tokenError: Option<string>,            // issuing the step token raises
    snapshotError: Option<string>,         // reading the target for the snapshot raises
    guardError: Option<string>,            // the invariant or capability guard raises
    tokens: TokenTrail,                    // the token files around the step
    write: Write,                          // how the file write goes
    exitCode: Option<int>,                 // of a command; absent when it timed out
    commandError: Option<string>,          // starting the command raises
    touched: map<Path, Option<string>>,    // what a command does to files
    lateAfter: bool                        // the time budget is exceeded after the step
  )

  /** What a tool hands back to the executor. */
  datatype Reply =
    | ApplyText(error: bool)
    | Created
    | EditDone(changed: bool)
    | Denied(reason: string)
    | Command(exitCode: Option<int>, timedOut: bool)

  datatype Response = Replied(reply: Reply) | Raised(message: string)

  // ---------------------------------------------------------------------------
  // File tools
  // ---------------------------------------------------------------------------

  /** Replace a whole file; a missing target or a failed write comes back as an error text. */
  function ApplyPatch(files: Files, p: Path, newContent: string, write: Write): (Files, Response) {
    if p !in files then (files, Replied(ApplyText(true)))
    else if files[p] == newContent then (files, Replied(ApplyText(false)))
    else match write
      case Clean => (files[p := newContent], Replied(ApplyText(false)))
      case Torn(left, _) => (SetState(files, p, left), Replied(ApplyText(true)))
  }

  /** Create a new file; every refusal raises. */
  function CreateFile(cfg: Config, files: Files, p: Path, content: string, write: Write): (Files, Response) {
    if Utf8Size(content) > MAX_CREATE_SIZE_BYTES then (files, Raised("file too large"))
    else if !HasParent(cfg.dirs, p) then (files, Raised("parent directory does not exist"))
    else if p in files || p in cfg.dirs then (files, Raised("file already exists"))
    else match write
      case Clean => (files[p := content], Replied(Created))
      case Torn(left, message) => (SetState(files, p, left), Raised(message))
  }

  /** Nothing stands in the way of creating `p`. */
  predicate MayCreate(cfg: Config, files: Files, p: Path, content: string) {
    && Utf8Size(content) <= 65_536
    && p != [] && p[..|p| - 1] in cfg.dirs
    && p !in files && p !in cfg.dirs
  }

  /** A creation answers exactly when the content is small enough, the parent is a directory, nothing is at the path and
      the write is clean; every refusal raises and changes no file. */
  lemma CreateFileExactly(cfg: Config, files: Files, p: Path, content: string, write: Write)
    ensures var (after, response) := CreateFile(cfg, files, p, content, write);
            && (response == Replied(Created) <==> MayCreate(cfg, files, p, content) && write.Clean?)
            && (response.Replied? ==> response == Replied(Created) && after == files[p := content])
            && (!MayCreate(cfg, files, p, content) ==> after == files)
            && after - {p} == files - {p}
  {
  }

  /** A whole-file patch never raises; it reports an error exactly when the file is missing or a needed write fails, and
      otherwise the file holds the new text. */
  lemma ApplyPatchExactly(files: Files, p: Path, newContent: string, write: Write)
    ensures var (after, response) := ApplyPatch(files, p, newContent, write);
            && (response == Replied(ApplyText(true)) <==>
                p !in files || (files[p] != newContent && write.Torn?))
            && (response != Replied(ApplyText(true)) ==>
                response == Replied(ApplyText(false)) && p in files && after == files[p := newContent])
            && (p !in files ==> after == files)
            && after - {p} == files - {p}
  {
  }

  function EditReason(e: EditError): string {
    match e
    case EmptyOldText(i) => "PATCH_EDIT_EMPTY_OLD_TEXT_AT_" + Decimal(i)
    case OldTextNotFound(i) => "PATCH_EDIT_OLD_TEXT_NOT_FOUND_AT_" + Decimal(i)
    case AmbiguousMatch(i) => "PATCH_EDIT_AMBIGUOUS_MATCH_AT_" + Decimal(i)
    case OccurrenceOutOfRange(i) => "PATCH_EDIT_OCCURRENCE_OUT_OF_RANGE_AT_" + Decimal(i)
  }

  /** Edit a file by exact text; every refusal comes back as a denial. */
  function EditFile(cfg: Config, files: Files, p: Path, edits: seq<Edit>, expectedHash: Option<string>, write: Write)
    : (Files, Response)
  {
    if p in cfg.dirs then (files, Replied(Denied("PATCH_EDIT_TARGET_NOT_FILE")))
    else if p !in files then (files, Replied(Denied("PATCH_EDIT_TARGET_MISSING")))
    else if Utf8Size(files[p]) > MAX_FILE_SIZE_BYTES then (files, Replied(Denied("PATCH_EDIT_FILE_TOO_LARGE")))
    else if expectedHash.Some? && cfg.sha(files[p]) != expectedHash.value then
      (files, Replied(Denied("PATCH_EDIT_HASH_MISMATCH")))
    else
      match FoldEdits(files[p], edits, 1)
      case Failure(e) => (files, Replied(Denied(EditReason(e))))
      case Success(updated) =>
        match write
        case Clean => (files[p := updated], Replied(EditDone(updated != files[p])))
        case Torn(left, message) =>
          (SetState(files, p, left), Replied(Denied("PATCH_EDIT_WRITE_FAILED: " + message)))
  }

  /** The conditions under which an edit list is carried out. */
  predicate EditApplies(cfg: Config, files: Files, p: Path, edits: seq<Edit>, expectedHash: Option<string>) {
    && p !in cfg.dirs
    && p in files
    && Utf8Size(files[p]) <= 2_097_152
    && (expectedHash.Some? ==> cfg.sha(files[p]) == expectedHash.value)
    && FoldEdits(files[p], edits, 1).Success?
  }

  /** An edit list is all or nothing: every edit is in the new text, or no file changes. */
  lemma EditFileIsAtomic(cfg: Config, files: Files, p: Path, edits: seq<Edit>, expectedHash: Option<string>,
                         write: Write)
    ensures var (after, response) := EditFile(cfg, files, p, edits, expectedHash, write);
            && (response.Replied? && response.reply.EditDone? <==>
                EditApplies(cfg, files, p, edits, expectedHash) && write.Clean?)
            && (!EditApplies(cfg, files, p, edits, expectedHash) ==> after == files)
            && (response.Replied? && response.reply.EditDone? ==>
                && p in after && after - {p} == files - {p}
                && FoldEdits(files[p], edits, 1) == Success(after[p])
                && |after[p]| == |files[p]| + TotalGrowth(edits)
                && (response.reply.changed <==> after != files))
  {
    var (after, response) := EditFile(cfg, files, p, edits, expectedHash, write);
    if response.Replied? && response.reply.EditDone? {
      FoldLength(files[p], edits, 1);
      assert after != files <==> after[p] != files[p];
    }
  }

  /** Why an edit list is refused before any edit is tried: the first of these that applies. */
  lemma EditRefusals(cfg: Config, files: Files, p: Path, edits: seq<Edit>, expectedHash: Option<string>, write: Write)
    ensures var response := EditFile(cfg, files, p, edits, expectedHash, write).1;
            && (p in cfg.dirs ==> response == Replied(Denied("PATCH_EDIT_TARGET_NOT_FILE")))
            && (p !in cfg.dirs && p !in files ==> response == Replied(Denied("PATCH_EDIT_TARGET_MISSING")))
            && (p !in cfg.dirs && p in files ==>
                && (Utf8Size(files[p]) > 2_097_152 ==> response == Replied(Denied("PATCH_EDIT_FILE_TOO_LARGE")))
                && (Utf8Size(files[p]) <= 2_097_152 && expectedHash.Some? && cfg.sha(files[p]) != expectedHash.value ==>
                    response == Replied(Denied("PATCH_EDIT_HASH_MISMATCH"))))
  {
  }

  function EditReasonStem(e: EditError): string {
    match e
    case EmptyOldText(_) => "PATCH_EDIT_EMPTY_OLD_TEXT_AT"
    case OldTextNotFound(_) => "PATCH_EDIT_OLD_TEXT_NOT_FOUND_AT"
    case AmbiguousMatch(_) => "PATCH_EDIT_AMBIGUOUS_MATCH_AT"
    case OccurrenceOutOfRange(_) => "PATCH_EDIT_OCCURRENCE_OUT_OF_RANGE_AT"
  }

  lemma EditReasonParts(e: EditError)
    ensures EditReason(e) == EditReasonStem(e) + ['_'] + Decimal(e.index) && '_' !in Decimal(e.index)
  {
    DigitsAreNot(Decimal(e.index), '_');
  }

  /** The text of a refusal tells which error it was, and at which edit. */
  lemma EditReasonTells(e: EditError, f: EditError)
    requires EditReason(e) == EditReason(f)
    ensures e == f
  {
    EditReasonParts(e);
    EditReasonParts(f);
    LastSeparatorIsUnique(EditReasonStem(e), Decimal(e.index), EditReasonStem(f), Decimal(f.index), '_');
    DecimalRoundTrip(e.index);
    DecimalRoundTrip(f.index);
    StemsDiffer(e, f);
  }

  lemma StemsDiffer(e: EditError, f: EditError)
    requires EditReasonStem(e) == EditReasonStem(f) && e.index == f.index
    ensures e == f
  {
    assert EditReasonStem(e)[11] == if e.EmptyOldText? then 'E' else if e.AmbiguousMatch? then 'A' else 'O';
    assert EditReasonStem(e)[12] == if e.EmptyOldText? ||
        e.AmbiguousMatch? then 'M' else if e.OldTextNotFound? then 'L' else 'C';
  }

  /** The edit at `k` does not apply to the result of the edits before it, which do. */
  predicate FirstBadEdit(content: string, edits: seq<Edit>, k: nat) {
    && k < |edits| && FoldEdits(content, edits[..k], 1).Success?
    && SingleEdit(FoldEdits(content, edits[..k], 1).value, edits[k], k + 1).Failure?
  }

  /** Past those checks, the refusal names the first edit that does not apply by its number, counted from one. */
  lemma EditRefusalIsNumbered(cfg: Config, files: Files, p: Path, edits: seq<Edit>, expectedHash: Option<string>,
                              write: Write, k: nat)
    requires p !in cfg.dirs && p in files && Utf8Size(files[p]) <= 2_097_152
    requires expectedHash.Some? ==> cfg.sha(files[p]) == expectedHash.value
    requires FirstBadEdit(files[p], edits, k)
    ensures var e := SingleEdit(FoldEdits(files[p], edits[..k], 1).value, edits[k], k + 1).error;
            EditFile(cfg, files, p, edits, expectedHash, write) == (files, Replied(Denied(EditReason(e))))
  {
    FoldStopsAt(files[p], edits, 1, k);
  }

  // ---------------------------------------------------------------------------
  // The gateway: checks, then the effect
  // ---------------------------------------------------------------------------

  /** Carry a command's file changes out. */
  function Touch(files: Files, touched: map<Path, Option<string>>): Files {
    map p | p in files.Keys + touched.Keys && (p in touched ==> touched[p].Some?) ::
      if p in touched then touched[p].value else files[p]
  }

  function RunCommand(files: Files, env: StepEnv): (Files, Response) {
    match env.commandError
    case Some(message) => (files, Raised(message))
    case None => (Touch(files, env.touched), Replied(Command(env.exitCode, env.exitCode.None?)))
  }

  const WORKSPACE_CWD := "workspace"
  const APP_CWD := "app"

  /** The executor's table: the action a step's token is issued for. */
  function IssuedAction(call: Call): string {
    match call
    case TestRun(_, _) => "CMD_RUN"
    case GitRun(_) => "GIT_RUN"
    case PatchApply(_, _) => "FS_WRITE_PATCH"
    case FileCreate(_, _) => "FS_CREATE_FILE"
    case PatchEdit(_, _, _) => "FS_EDIT_PATCH"
  }

  /** The action the gateway asks of the token. */
  function CheckedAction(call: Call): string {
    match call
    case PatchApply(_, _) => "FS_WRITE_PATCH"
    case PatchEdit(_, _, _) => "FS_EDIT_PATCH"
    case FileCreate(_, _) => "FS_CREATE_FILE"
    case TestRun(_, _) => "CMD_RUN"
    case GitRun(_) => "GIT_RUN"
  }

  /** The token the executor issues for a step: bound to the file of a mutation, unscoped for a command. */
  function IssuedToken(call: Call, p: Path, issued: int): Capabilities.Token {
    if call.Mutates() then Capabilities.StepToken(IssuedAction(call), p, issued)
    else Capabilities.CommandToken(IssuedAction(call), issued)
  }

  /** The history of the token files when the gateway looks. */
  function TokenHistory(call: Call, p: Path, trail: TokenTrail): seq<Capabilities.Event> {
    trail.before + [Capabilities.Issue(trail.id, IssuedToken(call, p, trail.issued))] + trail.between
  }

  /** The path in the context of the check. */
  function TokenContext(call: Call, p: Path): Option<string> {
    if call.Mutates() then Some(Render(p)) else None
  }

  /** The gateway's token check for a step. */
  function TokenVerdict(root: Path, call: Call, p: Path, trail: TokenTrail): Option<Capabilities.DenyReason> {
    Capabilities.Validate(root, Capabilities.Replay(TokenHistory(call, p, trail)), Some(trail.id), CheckedAction(call),
                          TokenContext(call, p), trail.used)
  }

  function ReasonText(reason: Capabilities.DenyReason): string {
    match reason
    case MISSING_TOKEN => "MISSING_TOKEN"
    case EXPIRED_TOKEN => "EXPIRED_TOKEN"
    case REVOKED_TOKEN => "REVOKED_TOKEN"
    case INSUFFICIENT_SCOPE => "INSUFFICIENT_SCOPE"
    case ACTION_NOT_ALLOWED => "ACTION_NOT_ALLOWED"
  }

  /** Git commands that only read are not token-checked. */
  predicate NeedsToken(call: Call) {
    call.GitRun? ==> |call.argv| >= 2 && Lower(Strip(call.argv[1])) in {"init", "add", "commit"}
  }

  /** The policy on files: inside the workspace, and no sensitive pattern anywhere in the path. */
  predicate FileAllowed(root: Path, p: Path) {
    && Under(root, p)
    && !Contains(Render(p), ".env") && !Contains(Render(p), "secrets") && !Contains(Render(p), "credentials")
  }

  /** The policy's refusal of a step, if any; test runs have their own allow-list instead. */
  function PolicyDenial(root: Path, call: Call, p: Path): Option<string> {
    match call
    case TestRun(_, _) => None
    case GitRun(argv) =>
      var decision := GitPolicy.Decide(GitPolicy.DENY_FLAGS, argv, root);
      if decision.allowed then None else Some("disallowed: " + decision.reason)
    case PatchEdit(_, _, _) => if FileAllowed(root, p) then None else Some("policy")
    case _ => if FileAllowed(root, p) then None else Some(Render(p))
  }

  /** Why the gateway refuses a step: its token first, then the policy. */
  function Denial(root: Path, call: Call, p: Path, trail: TokenTrail): Option<string> {
    if NeedsToken(call) && TokenVerdict(root, call, p, trail).Some? then
      Some(ReasonText(TokenVerdict(root, call, p, trail).value))
    else PolicyDenial(root, call, p)
  }

  /** One step through the gateway with a given refusal; `p` is the resolved target of a mutation. */
  function Attempt(cfg: Config, files: Files, call: Call, p: Path, denial: Option<string>, env: StepEnv)
    : (Files, Response)
  {
    match call
    case PatchApply(_, newContent) =>
      if denial.Some? then (files, Raised("Write denied: " + denial.value))
      else ApplyPatch(files, p, newContent, env.write)
    case FileCreate(_, content) =>
      if denial.Some? then (files, Raised("Create denied: " + denial.value))
      else CreateFile(cfg, files, p, content, env.write)
    case PatchEdit(_, edits, expectedHash) =>
      if denial.Some? then (files, Replied(Denied(denial.value)))
      else EditFile(cfg, files, p, edits, expectedHash, env.write)
    case TestRun(argv, cwd) =>
      if cwd != WORKSPACE_CWD && cwd != APP_CWD then
        (files, Replied(Denied("TEST_RUN cwd must be 'workspace' or 'app'")))
      else if !cfg.testArgvAllowed(argv) then (files, Replied(Denied("test_run_argv_not_allowlisted")))
      else if denial.Some? then (files, Replied(Denied(denial.value)))
      else RunCommand(files, env)
    case GitRun(argv) =>
      if denial.Some? then (files, Replied(Denied(denial.value)))
      else RunCommand(files, env)
  }

  /** One step through the gateway. */
  function Perform(cfg: Config, files: Files, call: Call, p: Path, env: StepEnv): (Files, Response) {
    Attempt(cfg, files, call, p, Denial(cfg.root, call, p, env.tokens), env)
  }

  /** The step's token is new, not taken away before the gateway looks, and not expired by then. */
  ghost predicate TokenStaysLive(call: Call, p: Path, trail: TokenTrail) {
    && Capabilities.FreshIds(TokenHistory(call, p, trail))
    && trail.id != ""
    && (forall e :: e in trail.between ==> !Capabilities.Kills(e, trail.id))
    && trail.used < trail.issued + Capabilities.STEP_TTL
  }

  /** With fresh ids, the token check lets a step through exactly when its token was neither taken away nor expired. */
  lemma TokenCheckIsLiveness(root: Path, call: Call, p: Path, trail: TokenTrail)
    requires call.Mutates() ==> IsPath(p) && Under(root, p)
    requires Capabilities.FreshIds(TokenHistory(call, p, trail)) && trail.id != ""
    ensures TokenVerdict(root, call, p, trail).None? <==> TokenStaysLive(call, p, trail)
  {
    var history, i := TokenHistory(call, p, trail), |trail.before|;
    assert forall j :: i < j < |history| ==> history[j] == trail.between[j - i - 1];
    if TokenStaysLive(call, p, trail) {
      var target := if call.Mutates() then Some(p) else None;
      Capabilities.LiveStepTokenIsAllowed(root, history, i, trail.id, CheckedAction(call), target, trail.issued,
                                          trail.used);
    }
    if TokenVerdict(root, call, p, trail).None? {
      Capabilities.AllowedMeansCovered(root, history, Some(trail.id), CheckedAction(call), TokenContext(call, p),
                                       trail.used);
      var k :| Capabilities.LiveIssue(history, k, trail.id)
            && Capabilities.Grants(root, history[k].token, CheckedAction(call), TokenContext(call, p), trail.used);
      assert k == i;
      forall e | e in trail.between ensures !Capabilities.Kills(e, trail.id) {
        var j :| 0 <= j < |trail.between| && trail.between[j] == e;
        assert history[i + 1 + j] == e;
      }
    }
  }

  /** None of the sensitive patterns occurs anywhere in the text. */
  ghost predicate Unmarked(text: string) {
    forall i :: !MatchAt(text, ".env", i) && !MatchAt(text, "secrets", i) && !MatchAt(text, "credentials", i)
  }

  /** What it takes to be carried out: a live token, where one is asked for, and a place or a command line that the
      policies accept. */
  ghost predicate MayRun(cfg: Config, call: Call, p: Path, trail: TokenTrail) {
    match call
    case TestRun(argv, cwd) =>
      (cwd == "workspace" || cwd == "app") && cfg.testArgvAllowed(argv) && TokenStaysLive(call, p, trail)
    case GitRun(argv) =>
      && GitPolicy.Accepted(argv, cfg.root)
      && (Lower(Strip(argv[1])) in {"init", "add", "commit"} ==> TokenStaysLive(call, p, trail))
    case _ => TokenStaysLive(call, p, trail) && cfg.root <= p && Unmarked(Render(p))
  }

  /** What a step does once it is carried out. */
  function CarriedOut(cfg: Config, files: Files, call: Call, p: Path, env: StepEnv): (Files, Response) {
    match call
    case PatchApply(_, newContent) => ApplyPatch(files, p, newContent, env.write)
    case FileCreate(_, content) => CreateFile(cfg, files, p, content, env.write)
    case PatchEdit(_, edits, expectedHash) => EditFile(cfg, files, p, edits, expectedHash, env.write)
    case _ => RunCommand(files, env)
  }

  /** What a refused step hands back: whole-file writes and creations raise, the others answer. */
  predicate IsRefusal(call: Call, response: Response) {
    if call.PatchApply? || call.FileCreate? then response.Raised? else response.Replied? && response.reply.Denied?
  }

  lemma ContainsMeansMatch(text: string, pattern: string)
    ensures Contains(text, pattern) <==> exists i :: MatchAt(text, pattern, i)
  {
    if Contains(text, pattern) {
      FindFromMatches(text, pattern, 0);
    }
    if i :| MatchAt(text, pattern, i) {
      FindFromSkipsNothing(text, pattern, 0, i);
    }
  }

  lemma FilePolicyMeans(root: Path, p: Path)
    ensures FileAllowed(root, p) <==> root <= p && Unmarked(Render(p))
  {
    var text := Render(p);
    ContainsMeansMatch(text, ".env");
    ContainsMeansMatch(text, "secrets");
    ContainsMeansMatch(text, "credentials");
  }

  /** The refusal of a file step or a test run. */
  lemma DenialMeans(cfg: Config, call: Call, p: Path, trail: TokenTrail)
    requires call.Mutates() ==> IsPath(p)
    requires Capabilities.FreshIds(TokenHistory(call, p, trail)) && trail.id != ""
    ensures call.Mutates() ==>
            (Denial(cfg.root, call, p, trail).None? <==>
             TokenStaysLive(call, p, trail) && cfg.root <= p && Unmarked(Render(p)))
    ensures call.TestRun? ==> (Denial(cfg.root, call, p, trail).None? <==> TokenStaysLive(call, p, trail))
    ensures call.GitRun? ==> (Denial(cfg.root, call, p, trail).None? <==> MayRun(cfg, call, p, trail))
  {
    FilePolicyMeans(cfg.root, p);
    if call.GitRun? {
      GitPolicy.DecisionIsGrammar(call.argv, cfg.root);
    }
    if !call.Mutates() || Under(cfg.root, p) {
      TokenCheckIsLiveness(cfg.root, call, p, trail);
    }
  }

  lemma KilledTokenHasNoIssue(call: Call, p: Path, trail: TokenTrail, e: Capabilities.Event)
    requires Capabilities.FreshIds(TokenHistory(call, p, trail))
    requires e in trail.between && Capabilities.Kills(e, trail.id)
    ensures forall k :: !Capabilities.LiveIssue(TokenHistory(call, p, trail), k, trail.id)
  {
    var history, i := TokenHistory(call, p, trail), |trail.before|;
    assert history[i] == Capabilities.Issue(trail.id, IssuedToken(call, p, trail.issued));
    var j :| 0 <= j < |trail.between| && trail.between[j] == e;
    assert history[i + 1 + j] == e;
    forall k ensures !Capabilities.LiveIssue(history, k, trail.id) {
      if Capabilities.LiveIssue(history, k, trail.id) {
        Capabilities.OneIssuePerId(history, k, i);
      }
    }
  }

  /** A token that is asked for and was taken away or expired is the reason of the refusal, before any policy. */
  lemma TokenComesFirst(root: Path, call: Call, p: Path, trail: TokenTrail)
    requires NeedsToken(call)
    requires Capabilities.FreshIds(TokenHistory(call, p, trail)) && trail.id != ""
    ensures (exists e :: e in trail.between && Capabilities.Kills(e, trail.id)) ==>
            Denial(root, call, p, trail) == Some("REVOKED_TOKEN")
    ensures (forall e :: e in trail.between ==> !Capabilities.Kills(e, trail.id))
            && trail.used >= trail.issued + 300 ==>
            Denial(root, call, p, trail) == Some("EXPIRED_TOKEN")
  {
    var history, i := TokenHistory(call, p, trail), |trail.before|;
    if e :| e in trail.between && Capabilities.Kills(e, trail.id) {
      KilledTokenHasNoIssue(call, p, trail, e);
      Capabilities.NoLiveIssueIsRevoked(root, history, trail.id, CheckedAction(call), TokenContext(call, p),
                                        trail.used);
    } else {
      assert forall j :: i < j < |history| ==> history[j] == trail.between[j - i - 1];
      Capabilities.ReasonTellsWhy(root, history, i, trail.id, CheckedAction(call), TokenContext(call, p), trail.used);
    }
  }

  lemma AttemptMeans(cfg: Config, files: Files, call: Call, p: Path, denial: Option<string>, env: StepEnv)
    requires call.TestRun? ==> (call.cwd == "workspace" || call.cwd == "app") && cfg.testArgvAllowed(call.argv)
    ensures denial.None? ==> Attempt(cfg, files, call, p, denial, env) == CarriedOut(cfg, files, call, p, env)
    ensures denial.Some? ==> Attempt(cfg, files, call, p, denial, env).0 == files
                             && IsRefusal(call, Attempt(cfg, files, call, p, denial, env).1)
  {
  }

  /** A step whose token id is new is carried out exactly when it may run; a refused step changes no file. */
  lemma GatewayDecides(cfg: Config, files: Files, call: Call, p: Path, env: StepEnv)
    requires call.Mutates() ==> IsPath(p)
    requires Capabilities.FreshIds(TokenHistory(call, p, env.tokens)) && env.tokens.id != ""
    ensures var (after, response) := Perform(cfg, files, call, p, env);
            if MayRun(cfg, call, p, env.tokens) then (after, response) == CarriedOut(cfg, files, call, p, env)
            else after == files && IsRefusal(call, response)
  {
    DenialMeans(cfg, call, p, env.tokens);
    if call.TestRun? && !((call.cwd == "workspace" || call.cwd == "app") && cfg.testArgvAllowed(call.argv)) {
      var (after, response) := Perform(cfg, files, call, p, env);
      assert after == files && IsRefusal(call, response);
    } else {
      AttemptMeans(cfg, files, call, p, Denial(cfg.root, call, p, env.tokens), env);
    }
  }

  /** A command that ran ended with its exit code, and timed out exactly when it has none. */
  lemma CommandReply(files: Files, env: StepEnv)
    ensures var (after, response) := RunCommand(files, env);
            && (response.Raised? <==> env.commandError.Some?)
            && (response.Replied? ==> response.reply == Command(env.exitCode, env.exitCode.None?))
  {
  }

  /** A step's own token grants its own action until it expires, on its own file when it has one, and nothing else. */
  lemma IssuedTokenIsExact(root: Path, call: Call, p: Path, issued: int, action: string, ctx: Option<string>, now: int)
    requires IsPath(p) && Under(root, p)
    ensures Capabilities.Grants(root, IssuedToken(call, p, issued), action, ctx, now) <==>
            && now < issued + 300 && action == CheckedAction(call)
            && (call.Mutates() ==> ctx.Some? && BoundPath(root, ctx.value) == Some(p))
  {
    RenderResolves(root, p);
    if call.Mutates() {
      Capabilities.PathScopeIsExact(root, p, ctx);
    }
  }

  /** A command that runs leaves each path it touches in the state it wrote there, and every other path as it was;
      a command that is refused or cannot start changes nothing. */
  lemma CommandChangesWhatItTouches(cfg: Config, files: Files, call: Call, p: Path, env: StepEnv, q: Path)
    requires !call.Mutates()
    ensures var (after, response) := Perform(cfg, files, call, p, env);
            StateAt(after, q) ==
            if response.Replied? && response.reply.Command? && q in env.touched then env.touched[q]
            else StateAt(files, q)
  {
  }

  // ---------------------------------------------------------------------------
  // The tools as operations on the stored files
  // ---------------------------------------------------------------------------

  class Tree {
    const cfg: Config
    var files: Files

    constructor (cfg: Config, files: Files)
      ensures this.cfg == cfg && this.files == files
    {
      this.cfg := cfg;
      this.files := files;
    }

    /** A write to one file, complete or torn. */
    method WriteText(p: Path, text: string, write: Write) returns (error: Option<string>)
      modifies this
      ensures write.Clean? ==> error.None? && files == old(files)[p := text]
      ensures write.Torn? ==> error == Some(write.message) && files == SetState(old(files), p, write.left)
    {
      match write {
        case Clean =>
          files := files[p := text];
          error := None;
        case Torn(left, message) =>
          files := SetState(files, p, left);
          error := Some(message);
      }
    }

    method ApplyPatchTo(p: Path, newContent: string, write: Write) returns (response: Response)
      modifies this
      ensures (files, response) == ApplyPatch(old(files), p, newContent, write)
      ensures response == Replied(ApplyText(true)) <==>
              p !in old(files) || (old(files)[p] != newContent && write.Torn?)
      ensures response != Replied(ApplyText(true)) ==>
              response == Replied(ApplyText(false)) && p in old(files) && files == old(files)[p := newContent]
      ensures p !in old(files) ==> files == old(files)
    {
      ApplyPatchExactly(files, p, newContent, write);
      if p !in files {
        return Replied(ApplyText(true));
      }
      var original := files[p];
      if original == newContent {
        return Replied(ApplyText(false));
      }
      var error := WriteText(p, newContent, write);
      response := Replied(ApplyText(error.Some?));
    }

    method CreateFileAt(p: Path, content: string, write: Write) returns (response: Response)
      modifies this
      ensures (files, response) == CreateFile(cfg, old(files), p, content, write)
      ensures response == Replied(Created) <==> MayCreate(cfg, old(files), p, content) && write.Clean?
      ensures response.Replied? ==> response == Replied(Created) && files == old(files)[p := content]
      ensures !MayCreate(cfg, old(files), p, content) ==> response.Raised? && files == old(files)
    {
      CreateFileExactly(cfg, files, p, content, write);
      if Utf8Size(content) > MAX_CREATE_SIZE_BYTES {
        return Raised("file too large");
      }
      if !HasParent(cfg.dirs, p) {
        return Raised("parent directory does not exist");
      }
      if p in files || p in cfg.dirs {
        return Raised("file already exists");
      }
      var error := WriteText(p, content, write);
      response := if error.Some? then Raised(error.value) else Replied(Created);
    }

    method PatchEditAt(p: Path, edits: seq<Edit>, expectedHash: Option<string>, write: Write)
      returns (response: Response)
      modifies this
      ensures (files, response) == EditFile(cfg, old(files), p, edits, expectedHash, write)
      ensures !EditApplies(cfg, old(files), p, edits, expectedHash) ==> files == old(files)
    {
      if p in cfg.dirs {
        return Replied(Denied("PATCH_EDIT_TARGET_NOT_FILE"));
      }
      if p !in files {
        return Replied(Denied("PATCH_EDIT_TARGET_MISSING"));
      }
      if Utf8Size(files[p]) > MAX_FILE_SIZE_BYTES {
        return Replied(Denied("PATCH_EDIT_FILE_TOO_LARGE"));
      }
      var original := files[p];
      if expectedHash.Some? && cfg.sha(original) != expectedHash.value {
        return Replied(Denied("PATCH_EDIT_HASH_MISMATCH"));
      }
      var edited := ApplyEdits(original, edits);
      if edited.Failure? {
        return Replied(Denied(EditReason(edited.error)));
      }
      var updated := edited.value;
      var error := WriteText(p, updated, write);
      if error.Some? {
        return Replied(Denied("PATCH_EDIT_WRITE_FAILED: " + error.value));
      }
      response := Replied(EditDone(updated != original));
    }

    method RunCommandIn(env: StepEnv) returns (response: Response)
      modifies this
      ensures (files, response) == RunCommand(old(files), env)
    {
      if env.commandError.Some? {
        return Raised(env.commandError.value);
      }
      files := Touch(files, env.touched);
      response := Replied(Command(env.exitCode, env.exitCode.None?));
    }

    /** The dispatch of one step to its tool, with the gateway's checks in front. */
    method ExecuteCall(call: Call, p: Path, env: StepEnv) returns (response: Response)
      modifies this
      ensures (files, response) == Perform(cfg, old(files), call, p, env)
      ensures (call.Mutates() ==> IsPath(p)) && Capabilities.FreshIds(TokenHistory(call, p, env.tokens))
              && env.tokens.id != "" ==>
              if MayRun(cfg, call, p, env.tokens) then (files, response) == CarriedOut(cfg, old(files), call, p, env)
              else files == old(files) && IsRefusal(call, response)
    {
      if (call.Mutates() ==> IsPath(p)) && Capabilities.FreshIds(TokenHistory(call, p, env.tokens))
         && env.tokens.id != ""
      {
        GatewayDecides(cfg, files, call, p, env);
      }
      var denial := Denial(cfg.root, call, p, env.tokens);
      match call {
        case PatchApply(_, newContent) =>
          if denial.Some? {
            return Raised("Write denied: " + denial.value);
          }
          response := ApplyPatchTo(p, newContent, env.write);
        case FileCreate(_, content) =>
          if denial.Some? {
            return Raised("Create denied: " + denial.value);
          }
          response := CreateFileAt(p, content, env.write);
        case PatchEdit(_, edits, expectedHash) =>
          if denial.Some? {
            return Replied(Denied(denial.value));
          }
          response := PatchEditAt(p, edits, expectedHash, env.write);
        case TestRun(argv, cwd) =>
          if cwd != WORKSPACE_CWD && cwd != APP_CWD {
            return Replied(Denied("TEST_RUN cwd must be 'workspace' or 'app'"));
          }
          if !cfg.testArgvAllowed(argv) {
            return Replied(Denied("test_run_argv_not_allowlisted"));
          }
          if denial.Some? {
            return Replied(Denied(denial.value));
          }
          response := RunCommandIn(env);
        case GitRun(argv) =>
          if denial.Some? {
            return Replied(Denied(denial.value));
          }
          response := RunCommandIn(env);
      }
    }
  }
}
