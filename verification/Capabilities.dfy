/** Capability tokens: the token and revocation stores, and what a validation says about their whole history. */
module Capabilities {

  import opened Wrappers
  import opened Text
  import opened Paths

  type TokenId = string

  /** Scope entries; a value is absent when it is null. */
  type Scope = map<string, Option<string>>

  datatype Token = Token(actions: set<string>, scope: Scope, expires: int)

  datatype DenyReason = MISSING_TOKEN | EXPIRED_TOKEN | REVOKED_TOKEN | INSUFFICIENT_SCOPE | ACTION_NOT_ALLOWED

  const RECOGNIZED := {"path", "path_prefix"}

  // ---------------------------------------------------------------------------
  // Scopes
  // ---------------------------------------------------------------------------

  function Bound(root: Path, value: Option<string>): Option<Path> {
    match value
    case None => None
    case Some(raw) => BoundPath(root, raw)
  }

  predicate PathScopeAllows(root: Path, scopeValue: Option<string>, ctx: Option<string>, prefix: bool) {
    var expected, actual := Bound(root, scopeValue), Bound(root, ctx);
    expected.Some? && actual.Some? && if prefix then Under(expected.value, actual.value) else actual == expected
  }

  /** The scope check; `ctx` is the path of the action, absent for an action without one. */
  predicate ScopeAllows(root: Path, scope: Scope, ctx: Option<string>) {
    if scope == map[] then true
    else if scope.Keys - RECOGNIZED != {} then false
    else if "path" in scope then PathScopeAllows(root, scope["path"], ctx, false)
    else if "path_prefix" in scope then PathScopeAllows(root, scope["path_prefix"], ctx, true)
    else false
  }

  /** The value is a text that resolves to the place `q` in the workspace. */
  ghost predicate Names(root: Path, value: Option<string>, q: Path) {
    value.Some? && !IsBlank(value.value) && Resolve(root, value.value) == Some(q) && root <= q
  }

  lemma BoundMeansNames(root: Path, value: Option<string>, q: Path)
    ensures Bound(root, value) == Some(q) <==> Names(root, value, q)
  {
  }

  /** Both texts name the same place. */
  ghost predicate SamePlace(root: Path, a: Option<string>, b: Option<string>) {
    exists q :: Names(root, a, q) && Names(root, b, q)
  }

  /** The second text names the place of the first, or one below it. */
  ghost predicate PlaceBelow(root: Path, a: Option<string>, b: Option<string>) {
    exists q, r :: Names(root, a, q) && Names(root, b, r) && q <= r
  }

  lemma PathScopeMeans(root: Path, a: Option<string>, b: Option<string>)
    ensures PathScopeAllows(root, a, b, false) <==> SamePlace(root, a, b)
    ensures PathScopeAllows(root, a, b, true) <==> PlaceBelow(root, a, b)
  {
    if Bound(root, a).Some? {
      BoundMeansNames(root, a, Bound(root, a).value);
    }
    if Bound(root, b).Some? {
      BoundMeansNames(root, b, Bound(root, b).value);
    }
    forall q ensures (Bound(root, a) == Some(q) <==> Names(root, a, q)) &&
        (Bound(root, b) == Some(q) <==> Names(root, b, q)) {
      BoundMeansNames(root, a, q);
      BoundMeansNames(root, b, q);
    }
  }

  /** An empty scope allows everything; a scope with any other key than these two allows nothing; a path scope allows
      its
      own place only, and otherwise a prefix scope the places at and below it. */
  lemma ScopeMeans(root: Path, scope: Scope, ctx: Option<string>)
    ensures ScopeAllows(root, scope, ctx) <==>
            || scope.Keys == {}
            || (&& (forall key :: key in scope ==> key == "path" || key == "path_prefix")
                && if "path" in scope then SamePlace(root, scope["path"], ctx)
                   else "path_prefix" in scope && PlaceBelow(root, scope["path_prefix"], ctx))
  {
    assert scope == map[] <==> scope.Keys == {};
    assert scope.Keys - RECOGNIZED == {} <==> forall key :: key in scope ==> key == "path" || key == "path_prefix" by {
      if scope.Keys - RECOGNIZED != {} {
        var key :| key in scope.Keys - RECOGNIZED;
        assert key in scope && key != "path" && key != "path_prefix";
      }
      if key :| key in scope && key != "path" && key != "path_prefix" {
        assert key in scope.Keys - RECOGNIZED;
      }
    }
    if "path" in scope {
      PathScopeMeans(root, scope["path"], ctx);
    }
    if "path_prefix" in scope {
      PathScopeMeans(root, scope["path_prefix"], ctx);
    }
  }

  /** The scope written for the file `p` allows the texts that name it. */
  lemma PathScopeIsExact(root: Path, p: Path, ctx: Option<string>)
    requires IsPath(p) && Under(root, p)
    ensures ScopeAllows(root, map["path" := Some(Render(p))], ctx) <==> Bound(root, ctx) == Some(p)
  {
    RenderResolves(root, p);
    var scope: Scope := map["path" := Some(Render(p))];
    assert scope.Keys == {"path"} && scope.Keys - RECOGNIZED == {} && "path" in scope;
  }

  // ---------------------------------------------------------------------------
  // Histories
  // ---------------------------------------------------------------------------

  /** One change of the stores: by a caller, or by the loss of a file. */
  datatype Event =
    | Issue(id: TokenId, token: Token)
    | Revoke(id: TokenId)
    | RevokeAll
    | LoseTokens
    | LoseRevocations

  datatype Stores = Stores(tokens: map<TokenId, Token>, revoked: set<TokenId>)

  const EMPTY := Stores(map[], {})

  function Apply(s: Stores, e: Event): Stores {
    match e
    case Issue(id, token) => s.(tokens := s.tokens[id := token])
    case Revoke(id) => Stores(s.tokens - {id}, s.revoked + {id})
    case RevokeAll => s.(tokens := map[])
    case LoseTokens => s.(tokens := map[])
    case LoseRevocations => s.(revoked := {})
  }

  /** The stores after a history, oldest event first. */
  function Replay(history: seq<Event>): Stores {
    if history == [] then EMPTY
    else Apply(Replay(history[..|history| - 1]), history[|history| - 1])
  }

  /** The decision on one use of a token: `None` allows it. */
  function Validate(root: Path, s: Stores, id: Option<TokenId>, action: string, ctx: Option<string>, now: int)
    : Option<DenyReason>
  {
    if id.None? || id.value == "" then Some(MISSING_TOKEN)
    else if id.value in s.revoked then Some(REVOKED_TOKEN)
    else if id.value !in s.tokens then Some(REVOKED_TOKEN)
    else
      var token := s.tokens[id.value];
      if now >= token.expires then Some(EXPIRED_TOKEN)
      else if action !in token.actions then Some(ACTION_NOT_ALLOWED)
      else if !ScopeAllows(root, token.scope, ctx) then Some(INSUFFICIENT_SCOPE)
      else None
  }

  /** Every issue takes an id that no earlier issue or revocation named. */
  ghost predicate FreshIds(history: seq<Event>) {
    forall i, j :: 0 <= i < j < |history| && history[j].Issue? && (history[i].Issue? || history[i].Revoke?) ==>
      history[i].id != history[j].id
  }

  /** The event takes the token away, whatever else the stores hold. */
  predicate Kills(e: Event, id: TokenId) {
    e == Revoke(id) || e.RevokeAll? || e.LoseTokens?
  }

  /** Issue `i` of the history gave out `id`, and nothing took it away since. */
  ghost predicate LiveIssue(history: seq<Event>, i: int, id: TokenId) {
    && 0 <= i < |history|
    && history[i].Issue? && history[i].id == id
    && forall j :: i < j < |history| ==> !Kills(history[j], id)
  }

  /** `id` was issued before event `k`. */
  ghost predicate IssuedBefore(history: seq<Event>, k: int, id: TokenId) {
    exists i :: 0 <= i < k && i < |history| && history[i].Issue? && history[i].id == id
  }

  /** The history names `id` in an issue or a revocation. */
  ghost predicate Mentions(history: seq<Event>, id: TokenId) {
    exists i :: 0 <= i < |history| && (history[i].Issue? || history[i].Revoke?) && history[i].id == id
  }

  lemma FreshPrefix(history: seq<Event>)
    requires history != [] && FreshIds(history)
    ensures FreshIds(history[..|history| - 1])
    ensures var e := history[|history| - 1];
            e.Issue? ==> !Mentions(history[..|history| - 1], e.id)
  {
  }

  /** The stores hold only ids the history names. */
  lemma {:induction false} StoresAreMentioned(history: seq<Event>, id: TokenId)
    requires id in Replay(history).tokens || id in Replay(history).revoked
    ensures Mentions(history, id)
  {
    assert history != [];
    var before, e := history[..|history| - 1], history[|history| - 1];
    if (e.Issue? || e.Revoke?) && e.id == id {
      assert history[|history| - 1] == e;
    } else {
      StoresAreMentioned(before, id);
      var i :| 0 <= i < |before| && (before[i].Issue? || before[i].Revoke?) && before[i].id == id;
      assert history[i] == before[i];
    }
  }

  /** A stored token comes from an issue that nothing took away since. */
  lemma {:induction false} StoredTokenIsLive(history: seq<Event>, id: TokenId) returns (i: int)
    requires id in Replay(history).tokens
    ensures LiveIssue(history, i, id) && history[i].token == Replay(history).tokens[id]
  {
    assert history != [];
    var before, e := history[..|history| - 1], history[|history| - 1];
    if e.Issue? && e.id == id {
      i := |history| - 1;
    } else {
      i := StoredTokenIsLive(before, id);
      assert forall j :: 0 <= j < |before| ==> history[j] == before[j];
    }
  }

  /** With fresh ids, an issue that nothing took away is in the store and not revoked. */
  lemma {:induction false} LiveIssueIsStored(history: seq<Event>, i: int, id: TokenId)
    requires FreshIds(history) && LiveIssue(history, i, id)
    ensures id in Replay(history).tokens && Replay(history).tokens[id] == history[i].token
    ensures id !in Replay(history).revoked
  {
    var before, e := history[..|history| - 1], history[|history| - 1];
    FreshPrefix(history);
    if i == |history| - 1 {
      if id in Replay(before).revoked {
        StoresAreMentioned(before, id);
      }
    } else {
      assert before[i] == history[i];
      assert Mentions(before, id);
      assert forall j :: 0 <= j < |before| ==> history[j] == before[j];
      LiveIssueIsStored(before, i, id);
      assert !Kills(e, id);
    }
  }

  // ---------------------------------------------------------------------------
  // What a validation means
  // ---------------------------------------------------------------------------

  /** The use is covered: a live, unexpired issue of `id` with the action and a matching scope. */
  ghost predicate Covered(root: Path, history: seq<Event>, id: TokenId, action: string, ctx: Option<string>, now: int) {
    exists i :: LiveIssue(history, i, id) && Grants(root, history[i].token, action, ctx, now)
  }

  predicate Grants(root: Path, token: Token, action: string, ctx: Option<string>, now: int) {
    now < token.expires && action in token.actions && ScopeAllows(root, token.scope, ctx)
  }

  /** Over every history with fresh ids, a use is allowed exactly when a live issue covers it. */
  lemma AllowedMeansCovered(root: Path, history: seq<Event>, id: Option<TokenId>, action: string, ctx: Option<string>,
                            now: int)
    requires FreshIds(history)
    ensures Validate(root, Replay(history), id, action, ctx, now).None? <==>
            id.Some? && id.value != "" && Covered(root, history, id.value, action, ctx, now)
  {
    if id.Some? {
      if id.value in Replay(history).tokens {
        var i := StoredTokenIsLive(history, id.value);
        LiveIssueIsStored(history, i, id.value);
      }
      if Covered(root, history, id.value, action, ctx, now) {
        var i :| LiveIssue(history, i, id.value) && Grants(root, history[i].token, action, ctx, now);
        LiveIssueIsStored(history, i, id.value);
      }
    }
  }

  /** Even without fresh ids, an allowed use has a live issue behind it. */
  lemma AllowedWasIssued(root: Path, history: seq<Event>, id: Option<TokenId>, action: string, ctx: Option<string>,
                         now: int)
    requires Validate(root, Replay(history), id, action, ctx, now).None?
    ensures id.Some? && id.value != "" && Covered(root, history, id.value, action, ctx, now)
  {
    var i := StoredTokenIsLive(history, id.value);
    assert Grants(root, history[i].token, action, ctx, now);
  }

  /** Issue `i` is the last one of `id`, and nothing took the token away since. */
  ghost predicate LastIssueLives(history: seq<Event>, i: int, id: TokenId) {
    LiveIssue(history, i, id) && forall j :: i < j < |history| ==> !(history[j].Issue? && history[j].id == id)
  }

  ghost predicate LostAfter(history: seq<Event>, k: int) {
    exists j :: 0 <= j < |history| && k < j && history[j].LoseRevocations?
  }

  /** Every revocation of `id` was followed by a loss of the revocation file. */
  ghost predicate RevocationsForgotten(history: seq<Event>, id: TokenId) {
    forall k :: 0 <= k < |history| && history[k] == Revoke(id) ==> LostAfter(history, k)
  }

  /** The last issue of `id` lives and grants the use, and no revocation of `id` is on record. */
  ghost predicate CoveredExactly(root: Path, history: seq<Event>, id: TokenId, action: string, ctx: Option<string>,
                                 now: int)
  {
    && RevocationsForgotten(history, id)
    && exists i :: LastIssueLives(history, i, id) && Grants(root, history[i].token, action, ctx, now)
  }

  lemma LostAfterSnoc(history: seq<Event>, k: int)
    requires history != [] && 0 <= k < |history| - 1
    ensures LostAfter(history, k) <==>
            history[|history| - 1].LoseRevocations? || LostAfter(history[..|history| - 1], k)
  {
    var before := history[..|history| - 1];
    assert forall j :: 0 <= j < |before| ==> before[j] == history[j];
  }

  lemma {:induction false} RevokedMeansNotForgotten(history: seq<Event>, id: TokenId)
    ensures id in Replay(history).revoked <==> !RevocationsForgotten(history, id)
  {
    if history != [] {
      var before, e := history[..|history| - 1], history[|history| - 1];
      RevokedMeansNotForgotten(before, id);
      assert forall k :: 0 <= k < |before| ==> before[k] == history[k];
      forall k | 0 <= k < |before| ensures LostAfter(history, k) <==> e.LoseRevocations? || LostAfter(before, k) {
        LostAfterSnoc(history, k);
      }
      assert !LostAfter(history, |history| - 1);
    }
  }

  lemma {:induction false} StoredIsLastIssue(history: seq<Event>, id: TokenId) returns (i: int)
    requires id in Replay(history).tokens
    ensures LastIssueLives(history, i, id) && history[i].token == Replay(history).tokens[id]
  {
    assert history != [];
    var before, e := history[..|history| - 1], history[|history| - 1];
    if e.Issue? && e.id == id {
      i := |history| - 1;
    } else {
      i := StoredIsLastIssue(before, id);
      assert forall j :: 0 <= j < |before| ==> history[j] == before[j];
    }
  }

  lemma {:induction false} LastIssueIsStored(history: seq<Event>, i: int, id: TokenId)
    requires LastIssueLives(history, i, id)
    ensures id in Replay(history).tokens && Replay(history).tokens[id] == history[i].token
  {
    var before, e := history[..|history| - 1], history[|history| - 1];
    if i < |history| - 1 {
      assert forall j :: 0 <= j < |before| ==> history[j] == before[j];
      LastIssueIsStored(before, i, id);
      assert !Kills(e, id);
    }
  }

  /** For every history, ids reused or not: a use is allowed exactly when the last issue of the id lives and grants it,
      and every revocation of the id was forgotten with the revocation file. */
  lemma AllowedExactly(root: Path, history: seq<Event>, id: Option<TokenId>, action: string, ctx: Option<string>,
                       now: int)
    ensures Validate(root, Replay(history), id, action, ctx, now).None? <==>
            id.Some? && id.value != "" && CoveredExactly(root, history, id.value, action, ctx, now)
  {
    if id.Some? {
      RevokedMeansNotForgotten(history, id.value);
      if id.value in Replay(history).tokens {
        var i := StoredIsLastIssue(history, id.value);
      }
      if i :| LastIssueLives(history, i, id.value) && Grants(root, history[i].token, action, ctx, now) {
        LastIssueIsStored(history, i, id.value);
      }
    }
  }

  /** With fresh ids, the reason of a refusal tells which condition on the live issue failed first. */
  lemma ReasonTellsWhy(root: Path, history: seq<Event>, i: int, id: TokenId, action: string, ctx: Option<string>,
                       now: int)
    requires FreshIds(history) && id != "" && LiveIssue(history, i, id)
    ensures var token := history[i].token;
            var reason := Validate(root, Replay(history), Some(id), action, ctx, now);
            && (reason == Some(EXPIRED_TOKEN) <==> token.expires <= now)
            && (reason == Some(ACTION_NOT_ALLOWED) <==> now < token.expires && action !in token.actions)
            && (reason == Some(INSUFFICIENT_SCOPE) <==>
                now < token.expires && action in token.actions && !ScopeAllows(root, token.scope, ctx))
            && reason != Some(MISSING_TOKEN) && reason != Some(REVOKED_TOKEN)
  {
    LiveIssueIsStored(history, i, id);
  }

  /** An id without a live issue is refused as revoked, whether it was revoked, lost or never issued. */
  lemma NoLiveIssueIsRevoked(root: Path, history: seq<Event>, id: TokenId, action: string, ctx: Option<string>,
                             now: int)
    requires id != "" && forall i :: !LiveIssue(history, i, id)
    ensures Validate(root, Replay(history), Some(id), action, ctx, now) == Some(REVOKED_TOKEN)
  {
    if id in Replay(history).tokens {
      var i := StoredTokenIsLive(history, id);
      assert false;
    }
  }

  /** A revoked id, and an id issued before a revoke-all, is refused as revoked ever after, whatever files are lost. */
  lemma {:induction false} RevokedStaysRevoked(root: Path, history: seq<Event>, k: int, id: TokenId, action: string,
                                               ctx: Option<string>, now: int)
    requires FreshIds(history) && 0 <= k < |history| && id != ""
    requires history[k] == Revoke(id) || (history[k].RevokeAll? && IssuedBefore(history, k, id))
    ensures Validate(root, Replay(history), Some(id), action, ctx, now) == Some(REVOKED_TOKEN)
  {
    if id in Replay(history).tokens {
      var i := StoredTokenIsLive(history, id);
      assert false;
    }
  }

  lemma OneIssuePerId(history: seq<Event>, i: int, j: int)
    requires FreshIds(history) && 0 <= i < |history| && 0 <= j < |history|
    requires history[i].Issue? && history[j].Issue? && history[i].id == history[j].id
    ensures i == j
  {
  }

  /** An expired token stays refused while the clock does not run backwards. */
  lemma ExpiryIsFinal(root: Path, history: seq<Event>, i: int, id: TokenId, action: string, ctx: Option<string>,
                      now: int, later: int)
    requires FreshIds(history) && 0 <= i < |history| && history[i].Issue? && history[i].id == id
    requires history[i].token.expires <= now <= later
    ensures Validate(root, Replay(history), Some(id), action, ctx, later).Some?
  {
    if id in Replay(history).tokens {
      var j := StoredTokenIsLive(history, id);
      OneIssuePerId(history, i, j);
    }
  }

  /** Without fresh ids the promise fails: an id that is revoked, and then issued again after its record is lost, is
      live. */
  lemma ReusedIdComesBack(root: Path, id: TokenId, token: Token, action: string, ctx: Option<string>, now: int)
    requires id != "" && Grants(root, token, action, ctx, now)
    ensures Validate(root, Replay([Issue(id, token),
        Revoke(id), LoseRevocations, Issue(id, token)]), Some(id), action, ctx, now).None?
  {
    var all := [Issue(id, token), Revoke(id), LoseRevocations, Issue(id, token)];
    assert all[..3] == [Issue(id, token), Revoke(id), LoseRevocations];
    assert all[..3][..2] == [Issue(id, token), Revoke(id)];
    assert all[..3][..2][..1] == [Issue(id, token)];
    assert Replay([Issue(id, token)]) == Apply(EMPTY, Issue(id, token));
  }

  // ---------------------------------------------------------------------------
  // Step tokens
  // ---------------------------------------------------------------------------

  const STEP_TTL := 300

  /** The token the executor issues for a mutation step on `target`. */
  function StepToken(action: string, target: Path, now: int): Token {
    Token({action}, map["path" := Some(Render(target))], now + STEP_TTL)
  }

  /** A step token on a validated path covers its own action on its own file and nothing else. */
  lemma StepTokenIsExact(root: Path, value: string, mine: string, action: string, ctx: Option<string>, issued: int,
                         now: int)
    requires IsPath(root) && SafeRelativePath(value)
    ensures var target := root + Split(value, '/');
            Grants(root, StepToken(mine, target, issued), action, ctx, now) <==>
            now < issued + 300 && action == mine && Bound(root, ctx) == Some(target)
    ensures Bound(root, Some(Render(root + Split(value, '/')))) == Some(root + Split(value, '/'))
  {
    TokenScopeMatchesTarget(root, value);
    var scope := StepToken(mine, root + Split(value, '/'), issued).scope;
    assert scope.Keys == {"path"};
    assert scope.Keys - RECOGNIZED == {};
    assert "path" in scope;
  }

  /** The token the executor issues for a command step. */
  function CommandToken(action: string, now: int): Token {
    Token({action}, map[], now + STEP_TTL)
  }

  /** Right after a step's token is issued, and until it expires or is taken away, the gateway's token check lets that
      step through: a mutation on its own file, a command as it is. */
  lemma LiveStepTokenIsAllowed(root: Path, history: seq<Event>, i: int, id: TokenId, action: string,
                               target: Option<Path>,
                               issued: int, now: int)
    requires FreshIds(history) && LiveIssue(history, i, id) && id != "" && now < issued + STEP_TTL
    requires match target
             case Some(p) => IsPath(p) && Under(root, p) && history[i].token == StepToken(action, p, issued)
             case None => history[i].token == CommandToken(action, issued)
    ensures var ctx := if target.Some? then Some(Render(target.value)) else None;
            Validate(root, Replay(history), Some(id), action, ctx, now).None?
  {
    var ctx := if target.Some? then Some(Render(target.value)) else None;
    if target.Some? {
      RenderResolves(root, target.value);
      assert history[i].token.scope.Keys - RECOGNIZED == {};
    }
    assert Grants(root, history[i].token, action, ctx, now);
    AllowedMeansCovered(root, history, Some(id), action, ctx, now);
  }

  // ---------------------------------------------------------------------------
  // The stores as they change
  // ---------------------------------------------------------------------------

  /** The two files; `history` records what happened to them. */
  class TokenStore {
    const root: Path
    var tokens: map<TokenId, Token>
    var revoked: set<TokenId>
    ghost var history: seq<Event>

    ghost predicate Valid()
      reads this
    {
      Stores(tokens, revoked) == Replay(history)
    }

    constructor (root: Path)
      ensures Valid() && this.root == root && history == []
    {
      this.root := root;
      tokens, revoked, history := map[], {}, [];
    }

    ghost method Record(e: Event)
      requires Apply(Replay(history), e) == Stores(tokens, revoked)
      modifies this`history
      ensures Valid() && history == old(history) + [e]
    {
      history := history + [e];
      assert history[..|history| - 1] == old(history);
    }

    method IssueToken(id: TokenId, actions: set<string>, scope: Scope, now: int, ttl: int) returns (token: Token)
      requires Valid()
      modifies this
      ensures Valid() && token == Token(actions, scope, now + ttl)
      ensures history == old(history) + [Issue(id, token)]
    {
      token := Token(actions, scope, now + ttl);
      tokens := tokens[id := token];
      Record(Issue(id, token));
    }

    method RevokeToken(id: TokenId)
      requires Valid()
      modifies this
      ensures Valid() && history == old(history) + [Revoke(id)]
      ensures id in revoked && id !in tokens
    {
      revoked := revoked + {id};
      if id in tokens {
        tokens := tokens - {id};
      }
      Record(Revoke(id));
    }

    method RevokeAllTokens()
      requires Valid()
      modifies this
      ensures Valid() && history == old(history) + [RevokeAll]
    {
      tokens := map[];
      Record(RevokeAll);
    }

    /** One of the files is lost or unreadable; loading it then yields its default. */
    method LoseFile(tokenFile: bool)
      requires Valid()
      modifies this
      ensures Valid() && history == old(history) + [if tokenFile then LoseTokens else LoseRevocations]
    {
      if tokenFile {
        tokens := map[];
      } else {
        revoked := {};
      }
      Record(if tokenFile then LoseTokens else LoseRevocations);
    }

    /** Without changing anything, decide on one use: the history says the same. */
    method ValidateToken(id: Option<TokenId>, action: string, ctx: Option<string>, now: int)
      returns (reason: Option<DenyReason>)
      requires Valid()
      ensures reason == Validate(root, Replay(history), id, action, ctx, now)
      ensures reason.None? ==> id.Some? && Covered(root, history, id.value, action, ctx, now)
      ensures FreshIds(history) && id.Some? && id.value != "" && Covered(root, history, id.value, action, ctx, now) ==>
              reason.None?
      ensures reason.None? <==> id.Some? && id.value != "" && CoveredExactly(root, history, id.value, action, ctx, now)
    {
      if FreshIds(history) {
        AllowedMeansCovered(root, history, id, action, ctx, now);
      }
      if Validate(root, Replay(history), id, action, ctx, now).None? {
        AllowedWasIssued(root, history, id, action, ctx, now);
      }
      AllowedExactly(root, history, id, action, ctx, now);
      if id.None? || id.value == "" {
        return Some(MISSING_TOKEN);
      }
      if id.value in revoked {
        return Some(REVOKED_TOKEN);
      }
      if id.value !in tokens {
        return Some(REVOKED_TOKEN);
      }
      var token := tokens[id.value];
      if now >= token.expires {
        return Some(EXPIRED_TOKEN);
      }
      if action !in token.actions {
        return Some(ACTION_NOT_ALLOWED);
      }
      if !ScopeAllows(root, token.scope, ctx) {
        return Some(INSUFFICIENT_SCOPE);
      }
      reason := None;
    }
  }
}
