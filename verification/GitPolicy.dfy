/** The GIT_RUN argument recogniser, against a grammar of the accepted command lines. */
module GitPolicy {

  import opened Wrappers
  import opened Text
  import opened Paths

  const ALLOWED_SUBCOMMANDS := {"init", "status", "diff", "add", "commit", "log"}

  const DENY_SUBCOMMANDS := {"push", "pull", "fetch", "clone", "remote", "checkout", "switch", "branch", "merge",
                             "rebase", "tag", "submodule"}

  const DENY_FLAGS := {"-c", "--git-dir", "--work-tree", "-C", "--config-env"}

  const VALUE_FLAGS := {"-n", "--max-count", "-m", "--message"}

  /** The flags each subcommand may carry. */
  function AllowedFlags(sub: string): set<string> {
    if sub == "init" then {"--quiet", "-q"}
    else if sub == "status" then {"--porcelain", "--short", "-s", "--branch", "-b"}
    else if sub == "diff" then {"--staged", "--cached", "--stat", "--name-only"}
    else if sub == "log" then {"--oneline", "--decorate", "--graph", "--no-decorate", "-n", "--max-count"}
    else if sub == "add" then {"-A", "--all", "-p", "--patch", "-N", "--intent-to-add"}
    else if sub == "commit" then {"-m", "--message", "--allow-empty", "--no-gpg-sign"}
    else {}
  }

  datatype GitDecision = GitDecision(allowed: bool, reason: string)

  const ALLOWED := "allowed"
  const SEPARATOR := "--"

  function Deny(reason: string): GitDecision {
    GitDecision(false, reason)
  }

  const ALLOW := GitDecision(true, ALLOWED)

  predicate IsFlag(tok: string) {
    tok != "" && tok[0] == '-' && tok != "-"
  }

  predicate TakesPaths(sub: string) {
    sub == "add" || sub == "diff"
  }

  predicate UnderWorkspace(root: Path, raw: string) {
    ResolveUnder(root, raw).Some?
  }

  /** The token is a denied flag, alone or with an attached value. */
  predicate IsDenied(deny: set<string>, tok: string) {
    exists d :: d in deny && (tok == d || d + "=" <= tok)
  }

  predicate AllUnder(root: Path, paths: seq<string>) {
    forall i :: 0 <= i < |paths| ==> UnderWorkspace(root, paths[i])
  }

  // ---------------------------------------------------------------------------
  // The decision on the arguments after the subcommand
  // ---------------------------------------------------------------------------

  /** The decision on the remaining arguments, for any set of hard-denied flags. */
  function Scan(deny: set<string>, sub: string, root: Path, args: seq<string>): GitDecision
    decreases |args|
  {
    if args == [] then ALLOW
    else
      var tok := args[0];
      if IsDenied(deny, tok) then Deny("forbidden_flag")
      else if tok == SEPARATOR then
        if !TakesPaths(sub) then Deny("unexpected_arg")
        else if AllUnder(root, args[1..]) then ALLOW
        else Deny("path_outside_workspace")
      else if IsFlag(tok) then
        if tok !in AllowedFlags(sub) then Deny("flag_not_allowlisted")
        else if tok in VALUE_FLAGS then
          if |args| == 1 then Deny("flag_missing_value")
          else if IsFlag(args[1]) then Deny("flag_value_invalid")
          else Scan(deny, sub, root, args[2..])
        else Scan(deny, sub, root, args[1..])
      else if !TakesPaths(sub) then Deny("unexpected_arg")
      else if !UnderWorkspace(root, tok) then Deny("path_outside_workspace")
      else Scan(deny, sub, root, args[1..])
  }

  /** The whole decision. */
  function Decide(deny: set<string>, argv: seq<string>, root: Path): GitDecision {
    if |argv| < 2 then Deny("missing_subcommand")
    else if exists i :: 0 <= i < |argv| && IsBlank(argv[i]) then Deny("argv_must_be_nonempty_strings")
    else if Lower(Strip(argv[0])) != "git" then Deny("cmd_must_be_git")
    else
      var sub := Lower(Strip(argv[1]));
      if sub in DENY_SUBCOMMANDS then Deny("subcommand_denied")
      else if sub !in ALLOWED_SUBCOMMANDS then Deny("subcommand_not_allowlisted")
      else Scan(deny, sub, root, argv[2..])
  }

  method IsDeniedFlag(tok: string) returns (denied: bool)
    ensures denied <==> IsDenied(DENY_FLAGS, tok)
  {
    denied := exists d :: d in DENY_FLAGS && (tok == d || d + "=" <= tok);
  }

  /** The index-driven parser with its nested path loop. */
  method ValidateGitRun(argv: seq<string>, root: Path) returns (decision: GitDecision)
    ensures decision == Decide(DENY_FLAGS, argv, root)
    ensures decision.allowed <==> Accepted(argv, root)
    ensures decision.allowed ==> ArgumentsFit(Lower(Strip(argv[1])), root, argv[2..])
  {
    DecisionIsGrammar(argv, root);
    AcceptedPathsAreInside(argv, root);
    if |argv| < 2 {
      return Deny("missing_subcommand");
    }
    if exists k :: 0 <= k < |argv| && IsBlank(argv[k]) {
      return Deny("argv_must_be_nonempty_strings");
    }
    if Lower(Strip(argv[0])) != "git" {
      return Deny("cmd_must_be_git");
    }
    var sub := Lower(Strip(argv[1]));
    if sub in DENY_SUBCOMMANDS {
      return Deny("subcommand_denied");
    }
    if sub !in ALLOWED_SUBCOMMANDS {
      return Deny("subcommand_not_allowlisted");
    }
    decision := ParseArguments(argv, sub, root);
  }

  method ParseArguments(argv: seq<string>, sub: string, root: Path) returns (decision: GitDecision)
    requires |argv| >= 2
    ensures decision == Scan(DENY_FLAGS, sub, root, argv[2..])
  {
    var allowedFlags := AllowedFlags(sub);
    var i := 2;
    while i < |argv|
      invariant 2 <= i <= |argv|
      invariant Scan(DENY_FLAGS, sub, root, argv[2..]) == Scan(DENY_FLAGS, sub, root, argv[i..])
    {
      var tok := argv[i];
      assert argv[i..][0] == tok && argv[i..][1..] == argv[i + 1..];
      var denied := IsDeniedFlag(tok);
      if denied {
        return Deny("forbidden_flag");
      }
      if tok == SEPARATOR {
        if !TakesPaths(sub) {
          return Deny("unexpected_arg");
        }
        var inside := PathsInside(argv[i + 1..], root);
        return if inside then ALLOW else Deny("path_outside_workspace");
      }
      if IsFlag(tok) {
        if tok !in allowedFlags {
          return Deny("flag_not_allowlisted");
        }
        if tok in VALUE_FLAGS {
          if i + 1 >= |argv| {
            return Deny("flag_missing_value");
          }
          assert argv[i..][1] == argv[i + 1] && argv[i..][2..] == argv[i + 2..];
          if IsFlag(argv[i + 1]) {
            return Deny("flag_value_invalid");
          }
          i := i + 2;
          continue;
        }
        i := i + 1;
        continue;
      }
      if !TakesPaths(sub) {
        return Deny("unexpected_arg");
      }
      if !UnderWorkspace(root, tok) {
        return Deny("path_outside_workspace");
      }
      i := i + 1;
    }
    assert argv[i..] == [];
    decision := ALLOW;
  }

  method PathsInside(paths: seq<string>, root: Path) returns (inside: bool)
    ensures inside <==> AllUnder(root, paths)
  {
    var i := 0;
    while i < |paths|
      invariant 0 <= i <= |paths| && AllUnder(root, paths[..i])
    {
      if !UnderWorkspace(root, paths[i]) {
        return false;
      }
      i := i + 1;
    }
    assert paths[..i] == paths;
    inside := true;
  }

  // ---------------------------------------------------------------------------
  // The grammar
  // ---------------------------------------------------------------------------

  /** A group of arguments: a flag, a flag with its value, or a path. */
  datatype Item = Bare(flag: string) | Valued(flag: string, value: string) | Operand(path: string)

  function Words(item: Item): seq<string> {
    match item
    case Bare(flag) => [flag]
    case Valued(flag, value) => [flag, value]
    case Operand(path) => [path]
  }

  function Yield(items: seq<Item>): seq<string> {
    if items == [] then [] else Words(items[0]) + Yield(items[1..])
  }

  /** The text resolves to a place in the workspace. */
  ghost predicate Inside(root: Path, raw: string) {
    exists q :: Resolve(root, raw) == Some(q) && root <= q
  }

  /** A dash with something after it. */
  predicate Dashed(tok: string) {
    |tok| >= 2 && tok[0] == '-'
  }

  ghost predicate ItemAllowed(sub: string, root: Path, item: Item) {
    match item
    case Bare(flag) => flag in AllowedFlags(sub) && flag !in VALUE_FLAGS
    case Valued(flag, value) => flag in AllowedFlags(sub) && flag in VALUE_FLAGS && !Dashed(value)
    case Operand(path) => (sub == "add" || sub == "diff") && !Dashed(path) && Inside(root, path)
  }

  /** The optional tail: a separator, then workspace paths only. */
  function TailWords(tail: Option<seq<string>>): seq<string> {
    match tail
    case None => []
    case Some(paths) => [SEPARATOR] + paths
  }

  ghost predicate TailAllowed(sub: string, root: Path, tail: Option<seq<string>>) {
    tail.Some? ==> (sub == "add" || sub == "diff") && forall path :: path in tail.value ==> Inside(root, path)
  }

  ghost predicate Derives(sub: string, root: Path, items: seq<Item>, tail: Option<seq<string>>, args: seq<string>) {
    && (forall item :: item in items ==> ItemAllowed(sub, root, item))
    && TailAllowed(sub, root, tail)
    && args == Yield(items) + TailWords(tail)
  }

  ghost predicate InGrammar(sub: string, root: Path, args: seq<string>) {
    exists items, tail :: Derives(sub, root, items, tail, args)
  }

  /** The recogniser's tests on one token mean what the grammar says. */
  lemma TokenTests(root: Path, tok: string)
    ensures IsFlag(tok) <==> Dashed(tok)
    ensures UnderWorkspace(root, tok) <==> Inside(root, tok)
  {
    if |tok| == 1 {
      assert tok == [tok[0]];
    }
  }

  lemma AllTokensUnder(root: Path, paths: seq<string>)
    ensures AllUnder(root, paths) <==> forall path :: path in paths ==> Inside(root, path)
  {
    forall path ensures UnderWorkspace(root, path) <==> Inside(root, path) {
      TokenTests(root, path);
    }
    if AllUnder(root, paths) {
      forall path | path in paths ensures UnderWorkspace(root, path) {
        var i :| 0 <= i < |paths| && paths[i] == path;
      }
    }
  }

  lemma AllowedFlagsCarryNoValue(sub: string, flag: string)
    requires flag in AllowedFlags(sub)
    ensures '=' !in flag
  {
  }

  lemma AllowedFlagsAreNotDenied(sub: string, flag: string)
    requires flag in AllowedFlags(sub)
    ensures flag !in DENY_FLAGS
  {
  }

  /** Every allowed flag is a flag, is not the separator, and is not one of the hard-denied ones. */
  lemma AllowedFlagsAreFlags(sub: string, flag: string)
    requires flag in AllowedFlags(sub)
    ensures IsFlag(flag) && flag != SEPARATOR && !IsDenied(DENY_FLAGS, flag)
  {
    AllowedFlagsCarryNoValue(sub, flag);
    AllowedFlagsAreNotDenied(sub, flag);
    forall d
      ensures d + "=" <= flag ==> '=' in flag
    {
      AttachedValueShows(d, flag);
    }
  }

  lemma AttachedValueShows(d: string, flag: string)
    ensures d + "=" <= flag ==> '=' in flag
  {
    if d + "=" <= flag {
      assert flag[|d|] == (d + "=")[|d|];
    }
  }

  lemma DeniedTokensAreFlags(tok: string)
    requires IsDenied(DENY_FLAGS, tok)
    ensures IsFlag(tok) && tok != SEPARATOR
  {
    var d :| d in DENY_FLAGS && (tok == d || d + "=" <= tok);
    assert d[0] == '-' && |d| >= 2;
    assert tok[0] == d[0];
    if tok != d {
      assert |tok| > 2;
    }
  }

  lemma YieldCons(item: Item, items: seq<Item>)
    ensures Yield([item] + items) == Words(item) + Yield(items)
  {
    assert ([item] + items)[1..] == items;
  }

  lemma Regroup(a: seq<string>, b: seq<string>, c: seq<string>)
    ensures a + b + c == a + (b + c)
  {
  }

  lemma ConsDerives(sub: string, root: Path, item: Item, rest: seq<string>)
    requires ItemAllowed(sub, root, item) && InGrammar(sub, root, rest)
    ensures InGrammar(sub, root, Words(item) + rest)
  {
    var items, tail :| Derives(sub, root, items, tail, rest);
    var longer := [item] + items;
    YieldCons(item, items);
    Regroup(Words(item), Yield(items), TailWords(tail));
    assert Derives(sub, root, longer, tail, Words(item) + rest);
  }

  /** What the scan accepts derives from the grammar. */
  lemma {:induction false} AcceptedDerives(sub: string, root: Path, args: seq<string>)
    requires Scan({}, sub, root, args).allowed
    ensures InGrammar(sub, root, args)
    decreases |args|
  {
    if args == [] {
      assert Derives(sub, root, [], None, args);
    } else {
      var tok := args[0];
      if tok == SEPARATOR {
        AllTokensUnder(root, args[1..]);
        assert args == [SEPARATOR] + args[1..];
        assert Derives(sub, root, [], Some(args[1..]), args);
      } else if IsFlag(tok) && tok in VALUE_FLAGS {
        TokenTests(root, args[1]);
        AcceptedDerives(sub, root, args[2..]);
        ConsDerives(sub, root, Valued(tok, args[1]), args[2..]);
        assert args == [tok, args[1]] + args[2..];
      } else {
        TokenTests(root, tok);
        AcceptedDerives(sub, root, args[1..]);
        ConsDerives(sub, root, if IsFlag(tok) then Bare(tok) else Operand(tok), args[1..]);
        assert args == [tok] + args[1..];
      }
    }
  }

  /** One allowed item in front does not change the verdict. */
  lemma ScanSkipsAllowedItem(sub: string, root: Path, item: Item, after: seq<string>)
    requires ItemAllowed(sub, root, item)
    ensures Scan({}, sub, root, Words(item) + after) == Scan({}, sub, root, after)
  {
    var args := Words(item) + after;
    assert args[|Words(item)|..] == after;
    if !item.Operand? {
      AllowedFlagsAreFlags(sub, item.flag);
    } else {
      TokenTests(root, item.path);
    }
    if item.Valued? {
      TokenTests(root, item.value);
    }
  }

  /** What derives from the grammar is accepted. */
  lemma {:induction false} DerivedIsAccepted(sub: string, root: Path, items: seq<Item>, tail: Option<seq<string>>)
    requires forall item :: item in items ==> ItemAllowed(sub, root, item)
    requires TailAllowed(sub, root, tail)
    ensures Scan({}, sub, root, Yield(items) + TailWords(tail)).allowed
  {
    if items == [] {
      assert Yield(items) + TailWords(tail) == TailWords(tail);
      if tail.Some? {
        assert TailWords(tail)[1..] == tail.value;
        AllTokensUnder(root, tail.value);
      }
    } else {
      DerivedIsAccepted(sub, root, items[1..], tail);
      Regroup(Words(items[0]), Yield(items[1..]), TailWords(tail));
      ScanSkipsAllowedItem(sub, root, items[0], Yield(items[1..]) + TailWords(tail));
    }
  }

  /** The hard-deny check changes the reason of some refusals and never the accepted set. */
  lemma {:induction false} HardDenyOnlyChangesReason(sub: string, root: Path, args: seq<string>)
    ensures Scan(DENY_FLAGS, sub, root, args).allowed <==> Scan({}, sub, root, args).allowed
    decreases |args|
  {
    if args != [] {
      var tok := args[0];
      if IsDenied(DENY_FLAGS, tok) {
        DeniedTokensAreFlags(tok);
        if tok in AllowedFlags(sub) {
          AllowedFlagsAreFlags(sub, tok);
        }
      } else {
        HardDenyOnlyChangesReason(sub, root, args[1..]);
        if |args| > 1 {
          HardDenyOnlyChangesReason(sub, root, args[2..]);
        }
      }
    }
  }

  /** The accepted command lines. */
  ghost predicate Accepted(argv: seq<string>, root: Path) {
    && |argv| >= 2
    && (forall i :: 0 <= i < |argv| ==> !IsBlank(argv[i]))
    && Lower(Strip(argv[0])) == "git"
    && Lower(Strip(argv[1])) in ALLOWED_SUBCOMMANDS
    && InGrammar(Lower(Strip(argv[1])), root, argv[2..])
  }

  /** The recogniser accepts exactly the command lines of the grammar. */
  lemma DecisionIsGrammar(argv: seq<string>, root: Path)
    ensures Decide(DENY_FLAGS, argv, root).allowed <==> Accepted(argv, root)
    ensures Decide(DENY_FLAGS, argv, root).allowed <==> Decide({}, argv, root).allowed
  {
    if |argv| >= 2 {
      var sub := Lower(Strip(argv[1]));
      HardDenyOnlyChangesReason(sub, root, argv[2..]);
      if Scan({}, sub, root, argv[2..]).allowed {
        AcceptedDerives(sub, root, argv[2..]);
      }
      if InGrammar(sub, root, argv[2..]) {
        var items, tail :| Derives(sub, root, items, tail, argv[2..]);
        DerivedIsAccepted(sub, root, items, tail);
      }
      assert sub in ALLOWED_SUBCOMMANDS ==> sub !in DENY_SUBCOMMANDS;
    }
  }

  // ---------------------------------------------------------------------------
  // Where paths may point
  // ---------------------------------------------------------------------------

  ghost predicate AfterSeparator(args: seq<string>, k: int) {
    exists j :: 0 <= j < k && j < |args| && args[j] == SEPARATOR
  }

  lemma AfterSeparatorCons(args: seq<string>, k: int)
    requires 0 < k <= |args|
    ensures AfterSeparator(args, k) <==> args[0] == SEPARATOR || AfterSeparator(args[1..], k - 1)
  {
    if AfterSeparator(args[1..], k - 1) {
      var j :| 0 <= j < k - 1 && j < |args[1..]| && args[1..][j] == SEPARATOR;
      assert args[j + 1] == SEPARATOR;
    }
    if AfterSeparator(args, k) && args[0] != SEPARATOR {
      var j :| 0 <= j < k && j < |args| && args[j] == SEPARATOR;
      assert args[1..][j - 1] == SEPARATOR;
    }
  }

  /** Argument `k` of `add` or `diff`: after the separator a place in the workspace; before it an allowed flag, the
      separator, or a text that is no flag and names a place in the workspace. */
  ghost predicate PathFits(sub: string, root: Path, args: seq<string>, k: int)
    requires 0 <= k < |args|
  {
    if AfterSeparator(args, k) then Inside(root, args[k])
    else args[k] in AllowedFlags(sub) || args[k] == SEPARATOR || (!Dashed(args[k]) && Inside(root, args[k]))
  }

  lemma PathFitsCons(sub: string, root: Path, args: seq<string>)
    requires args != [] && args[0] != SEPARATOR
    ensures forall k :: 0 < k < |args| ==> (PathFits(sub, root, args, k) <==> PathFits(sub, root, args[1..], k - 1))
  {
    forall k | 0 < k < |args| ensures PathFits(sub, root, args, k) <==> PathFits(sub, root, args[1..], k - 1) {
      AfterSeparatorCons(args, k);
    }
  }

  lemma NoValueFlags(sub: string, flag: string)
    requires TakesPaths(sub) && flag in AllowedFlags(sub)
    ensures flag !in VALUE_FLAGS
  {
  }

  /** The tail after the separator holds workspace paths exactly when each of its arguments fits. */
  lemma TailFits(sub: string, root: Path, args: seq<string>)
    requires args != [] && args[0] == SEPARATOR
    ensures AllUnder(root, args[1..]) <==> forall k :: 0 <= k < |args| ==> PathFits(sub, root, args, k)
  {
    AllTokensUnder(root, args[1..]);
    forall k | 0 <= k < |args| ensures PathFits(sub, root, args, k) <==> k == 0 || Inside(root, args[k]) {
      if k > 0 {
        AfterSeparatorCons(args, k);
      } else {
        assert !AfterSeparator(args, 0);
      }
    }
    if forall k :: 0 <= k < |args| ==> PathFits(sub, root, args, k) {
      forall path | path in args[1..] ensures Inside(root, path) {
        var i :| 0 <= i < |args[1..]| && args[1..][i] == path;
        assert PathFits(sub, root, args, i + 1);
      }
    }
    if forall path :: path in args[1..] ==> Inside(root, path) {
      forall k | 0 < k < |args| ensures Inside(root, args[k]) {
        assert args[1..][k - 1] == args[k];
      }
    }
  }

  /** The scan of `add` and `diff` accepts exactly the argument lists in which every argument fits. */
  lemma {:induction false} PathsStayInside(sub: string, root: Path, args: seq<string>)
    requires TakesPaths(sub)
    ensures Scan({}, sub, root, args).allowed <==> forall k :: 0 <= k < |args| ==> PathFits(sub, root, args, k)
    decreases |args|
  {
    if args != [] {
      var tok := args[0];
      if tok == SEPARATOR {
        TailFits(sub, root, args);
      } else {
        PathsStayInside(sub, root, args[1..]);
        PathFitsCons(sub, root, args);
        FirstFits(sub, root, args);
        AllFit(sub, root, args);
      }
    }
  }

  lemma FirstFits(sub: string, root: Path, args: seq<string>)
    requires TakesPaths(sub) && args != [] && args[0] != SEPARATOR
    ensures Scan({}, sub, root, args).allowed <==>
            PathFits(sub, root, args, 0) && Scan({}, sub, root, args[1..]).allowed
  {
    var tok := args[0];
    assert !AfterSeparator(args, 0);
    TokenTests(root, tok);
    if tok in AllowedFlags(sub) {
      AllowedFlagsAreFlags(sub, tok);
      NoValueFlags(sub, tok);
    }
  }

  lemma AllFit(sub: string, root: Path, args: seq<string>)
    requires args != []
    requires forall k :: 0 < k < |args| ==> (PathFits(sub, root, args, k) <==> PathFits(sub, root, args[1..], k - 1))
    ensures (forall k :: 0 <= k < |args| ==> PathFits(sub, root, args, k)) <==>
            PathFits(sub, root, args, 0) && forall k :: 0 <= k < |args[1..]| ==> PathFits(sub, root, args[1..], k)
  {
    if forall k :: 0 <= k < |args| ==> PathFits(sub, root, args, k) {
      forall k | 0 <= k < |args[1..]| ensures PathFits(sub, root, args[1..], k) {
        assert PathFits(sub, root, args, k + 1);
      }
    }
  }

  /** Argument `k` of another subcommand is an allowed flag, or the value of the flag before it. */
  ghost predicate FlagFits(sub: string, args: seq<string>, k: int)
    requires 0 <= k < |args|
  {
    args[k] in AllowedFlags(sub) || (k > 0 && args[k - 1] in AllowedFlags(sub) && args[k - 1] in VALUE_FLAGS)
  }

  /** Other subcommands take no paths at all. */
  lemma {:induction false} OtherSubcommandsTakeNoPaths(sub: string, root: Path, args: seq<string>)
    requires !TakesPaths(sub) && Scan({}, sub, root, args).allowed
    ensures forall k :: 0 <= k < |args| ==> FlagFits(sub, args, k)
    decreases |args|
  {
    if args != [] {
      var skip := if args[0] in VALUE_FLAGS then 2 else 1;
      OtherSubcommandsTakeNoPaths(sub, root, args[skip..]);
      forall k | 0 <= k < |args| ensures FlagFits(sub, args, k) {
        if k >= skip {
          assert FlagFits(sub, args[skip..], k - skip);
        }
      }
    }
  }

  /** What an accepted command line may hold after the subcommand. */
  ghost predicate ArgumentsFit(sub: string, root: Path, args: seq<string>) {
    if sub == "add" || sub == "diff" then forall k :: 0 <= k < |args| ==> PathFits(sub, root, args, k)
    else forall k :: 0 <= k < |args| ==> FlagFits(sub, args, k)
  }

  /** No accepted command line names a place outside the workspace; for `add` and `diff`, flags and workspace paths are
      all it takes to be accepted. */
  lemma AcceptedPathsAreInside(argv: seq<string>, root: Path)
    ensures Decide(DENY_FLAGS, argv, root).allowed ==> ArgumentsFit(Lower(Strip(argv[1])), root, argv[2..])
    ensures |argv| >= 2 && (forall i :: 0 <= i < |argv| ==> !IsBlank(argv[i])) && Lower(Strip(argv[0])) == "git"
            && Lower(Strip(argv[1])) in {"add", "diff"} && ArgumentsFit(Lower(Strip(argv[1])), root, argv[2..]) ==>
            Decide(DENY_FLAGS, argv, root).allowed
  {
    if |argv| >= 2 {
      var sub := Lower(Strip(argv[1]));
      HardDenyOnlyChangesReason(sub, root, argv[2..]);
      if TakesPaths(sub) {
        PathsStayInside(sub, root, argv[2..]);
      } else if Scan({}, sub, root, argv[2..]).allowed {
        OtherSubcommandsTakeNoPaths(sub, root, argv[2..]);
      }
    }
  }

  // ---------------------------------------------------------------------------
  // The reason of a refusal
  // ---------------------------------------------------------------------------

  lemma ItemsAreNotDenied(sub: string, root: Path, item: Item, after: seq<string>)
    requires ItemAllowed(sub, root, item)
    ensures Scan(DENY_FLAGS, sub, root, Words(item) + after) == Scan(DENY_FLAGS, sub, root, after)
  {
    var args := Words(item) + after;
    assert args[|Words(item)|..] == after;
    if item.Operand? {
      TokenTests(root, item.path);
      if IsDenied(DENY_FLAGS, item.path) {
        DeniedTokensAreFlags(item.path);
      }
    } else {
      AllowedFlagsAreFlags(sub, item.flag);
      if item.Valued? {
        TokenTests(root, item.value);
      }
    }
  }

  lemma {:induction false} AllowedItemsAreSkipped(sub: string, root: Path, items: seq<Item>, after: seq<string>)
    requires forall item :: item in items ==> ItemAllowed(sub, root, item)
    ensures Scan(DENY_FLAGS, sub, root, Yield(items) + after) == Scan(DENY_FLAGS, sub, root, after)
  {
    if items == [] {
      assert Yield(items) + after == after;
    } else {
      AllowedItemsAreSkipped(sub, root, items[1..], after);
      Regroup(Words(items[0]), Yield(items[1..]), after);
      ItemsAreNotDenied(sub, root, items[0], Yield(items[1..]) + after);
    }
  }

  /** Why a token in front of `rest` is refused, if it is; a value flag may be refused for its value. */
  function TokenRefusal(sub: string, tok: string, rest: seq<string>, inside: bool, restInside: bool): Option<string> {
    if tok == SEPARATOR then
      if sub != "add" && sub != "diff" then Some("unexpected_arg")
      else if restInside then None else Some("path_outside_workspace")
    else if Dashed(tok) then
      if tok in {"-c", "--git-dir", "--work-tree", "-C", "--config-env"}
         || "-c=" <= tok || "--git-dir=" <= tok || "--work-tree=" <= tok || "-C=" <= tok || "--config-env=" <= tok
      then Some("forbidden_flag")
      else if tok !in AllowedFlags(sub) then Some("flag_not_allowlisted")
      else if tok in VALUE_FLAGS && rest == [] then Some("flag_missing_value")
      else if tok in VALUE_FLAGS && Dashed(rest[0]) then Some("flag_value_invalid")
      else None
    else if sub != "add" && sub != "diff" then Some("unexpected_arg")
    else if inside then None else Some("path_outside_workspace")
  }

  lemma FirstTokenRefused(sub: string, root: Path, tok: string, rest: seq<string>, inside: bool, restInside: bool)
    requires inside == UnderWorkspace(root, tok) && restInside == AllUnder(root, rest)
    requires TokenRefusal(sub, tok, rest, inside, restInside).Some?
    ensures Scan(DENY_FLAGS, sub, root, [tok] + rest)
         == GitDecision(false, TokenRefusal(sub, tok, rest, inside, restInside).value)
  {
    assert ([tok] + rest)[1..] == rest;
    TokenTests(root, tok);
    if rest != [] {
      TokenTests(root, rest[0]);
      assert ([tok] + rest)[1] == rest[0];
    }
    if IsDenied(DENY_FLAGS, tok) {
      DeniedTokensAreFlags(tok);
    }
    DeniedTokensListed(tok);
  }

  lemma DeniedTokensListed(tok: string)
    ensures IsDenied(DENY_FLAGS, tok) <==>
            || tok in {"-c", "--git-dir", "--work-tree", "-C", "--config-env"}
            || "-c=" <= tok || "--git-dir=" <= tok || "--work-tree=" <= tok || "-C=" <= tok || "--config-env=" <= tok
  {
    assert "-c" + "=" == "-c=" && "--git-dir" + "=" == "--git-dir=" && "--work-tree" + "=" == "--work-tree=";
    assert "-C" + "=" == "-C=" && "--config-env" + "=" == "--config-env=";
  }

  /** After allowed items, the first token that does not fit gives the reason. */
  lemma RefusalIsNamed(sub: string, root: Path, items: seq<Item>, tok: string, rest: seq<string>, inside: bool,
                       restInside: bool)
    requires forall item :: item in items ==> ItemAllowed(sub, root, item)
    requires inside <==> Inside(root, tok)
    requires restInside <==> forall path :: path in rest ==> Inside(root, path)
    requires TokenRefusal(sub, tok, rest, inside, restInside).Some?
    ensures Scan(DENY_FLAGS, sub, root, Yield(items) + ([tok] + rest))
         == GitDecision(false, TokenRefusal(sub, tok, rest, inside, restInside).value)
  {
    TokenTests(root, tok);
    AllTokensUnder(root, rest);
    AllowedItemsAreSkipped(sub, root, items, [tok] + rest);
    FirstTokenRefused(sub, root, tok, rest, inside, restInside);
  }
}
