/**
 Refresh-token rotation and the refresh grant: handleRefreshTokenGrant
 (internal/oauth2/controller/oauth2_token.go) over RotateRefreshToken
 (internal/token/service/token_service_revoke.go).

 A request is three store operations: validate, load for rotation, and the
 rotation script.  They interleave with those of other requests, and any stored
 key may vanish in between (expiry, revocation): Forget.  `root` and `next`
 record the lineage of every token string.
 */
module RefreshGrant {
  import opened OAuthClient
  import Text

  datatype RefreshToken = RefreshToken(token: string, account: string, clientId: string, session: string, scope: string)

  /** A client at the token endpoint, or the session refresh of internal/auth/service/auth_session.go. */
  datatype Caller = App(id: string) | Session

  datatype Request = Request(caller: Caller, token: string, scope: string)

  /** A reply: the access token, and who called, what was presented, which refresh token was handed back. */
  datatype Access = Access(account: string, clientId: string, session: string, scope: string,
                           caller: Caller, presented: string, given: string)

  datatype Flight =
    | Checked(req: Request)
    | Loaded(req: Request, drawn: RefreshToken)
    | Rotated(req: Request, rt: RefreshToken)

  datatype State = State(
    active: set<string>,
    tokens: map<string, RefreshToken>,
    replays: map<string, RefreshToken>,
    flights: map<nat, Flight>,
    root: map<string, RefreshToken>,
    next: map<string, string>,
    minted: seq<Access>)

  function Init(active: set<string>): State {
    State(active, map[], map[], map[], map[], map[], [])
  }

  // ----- the scope check -----

  predicate Within(requested: seq<string>, granted: seq<string>) {
    forall x | x in requested :: x in granted
  }

  /** The loop of the handler; an empty request asks for everything granted. */
  method ScopeAllowed(scope: string, granted: string) returns (ok: bool)
    ensures ok <==> scope == "" || Within(Tokens(scope), Tokens(granted))
  {
    if scope == "" { return true; }
    var requested := SplitScope(scope);
    var original := SplitScope(granted);
    for i := 0 to |requested|
      invariant forall j | 0 <= j < i :: requested[j] in original
    {
      if requested[i] !in original {
        assert requested[i] in requested;
        return false;
      }
    }
    return true;
  }

  predicate MayRefresh(s: State, req: Request, stored: RefreshToken) {
    && stored.account in s.active
    && match req.caller
       case Session => true
       case App(id) => id == stored.clientId && (req.scope == "" || Within(Tokens(req.scope), Tokens(stored.scope)))
  }

  // ----- steps -----

  /** The first refresh token of a chain, from a code, a device code, or a login, which has no scopes. */
  function FirstToken(token: string, account: string, clientId: string, session: string, scopes: seq<string>): RefreshToken {
    RefreshToken(token, account, clientId, session, Text.Join(scopes, ' '))
  }

  function Issue(s: State, rt: RefreshToken): State {
    if rt.token in s.root || rt.token == "" || rt.account == "" then s
    else s.(tokens := s.tokens[rt.token := rt], root := s.root[rt.token := rt])
  }

  /** ValidateRefreshToken and the handler's checks; `valid` stands for expiry and the revocation lists. */
  function Check(s: State, rid: nat, req: Request, valid: bool): State {
    if rid in s.flights || req.token !in s.tokens || !valid || !MayRefresh(s, req, s.tokens[req.token]) then s
    else s.(flights := s.flights[rid := Checked(req)])
  }

  /** The session refresh also presents a token that is only a replay. */
  function Enter(s: State, rid: nat, token: string): State {
    if rid in s.flights || token !in s.root then s
    else s.(flights := s.flights[rid := Checked(Request(Session, token, ""))])
  }

  function Successor(stored: RefreshToken, drawn: string): RefreshToken {
    RefreshToken(drawn, stored.account, stored.clientId, stored.session, stored.scope)
  }

  function RootOf(s: State, token: string): RefreshToken
    requires token in s.tokens
  {
    if token in s.root then s.root[token] else s.tokens[token]
  }

  /** A new string is drawn and the old data read; without it the replay record, if its token still validates. */
  function Load(s: State, rid: nat, drawn: string, replayValid: bool): State {
    if rid !in s.flights || !s.flights[rid].Checked? || drawn in s.root || drawn == "" then s
    else
      var req := s.flights[rid].req;
      if req.token in s.tokens then
        s.(root := s.root[drawn := RootOf(s, req.token)],
           flights := s.flights[rid := Loaded(req, Successor(s.tokens[req.token], drawn))])
      else if req.token in s.replays && replayValid then s.(flights := s.flights[rid := Rotated(req, s.replays[req.token])])
      else s.(flights := s.flights - {rid})
  }

  /** rotateTokenScript. */
  function Rotate(s: State, rid: nat): State {
    if rid !in s.flights || !s.flights[rid].Loaded? then s
    else
      var req := s.flights[rid].req;
      var drawn := s.flights[rid].drawn;
      if req.token in s.tokens then
        s.(tokens := (s.tokens - {req.token})[drawn.token := drawn],
           replays := s.replays[req.token := drawn],
           next := s.next[req.token := drawn.token],
           flights := s.flights[rid := Rotated(req, drawn)])
      else if req.token in s.replays then s.(flights := s.flights[rid := Rotated(req, s.replays[req.token])])
      else s.(flights := s.flights - {rid})
  }

  /** The session refresh gives a token without scope the scopes of the account's roles. */
  function SessionScope(scope: string, admin: bool): string {
    if scope != "" then scope else if admin then "openid profile email admin" else "openid profile email"
  }

  function AccessScope(req: Request, rt: RefreshToken, admin: bool): string {
    if req.caller.Session? then SessionScope(rt.scope, admin) else if req.scope != "" then req.scope else rt.scope
  }

  /**
   The reply, unless a last check or the signing fails.  The session refresh has
   made its access token already, from data of the same chain.
   */
  function Mint(s: State, rid: nat, signed: bool, admin: bool): State {
    if rid !in s.flights || !s.flights[rid].Rotated? then s
    else
      var req := s.flights[rid].req;
      var rt := s.flights[rid].rt;
      var s' := s.(flights := s.flights - {rid});
      if !signed then s'
      else s'.(minted := s.minted + [Access(rt.account, rt.clientId, rt.session, AccessScope(req, rt, admin),
                                             req.caller, req.token, rt.token)])
  }

  datatype Action =
    | AIssue(token: string, account: string, clientId: string, session: string, scopes: seq<string>)
    | ACheck(rid: nat, req: Request, valid: bool)
    | AEnter(rid: nat, token: string)
    | ALoad(rid: nat, drawn: string, replayValid: bool)
    | ARotate(rid: nat)
    | AMint(rid: nat, signed: bool, admin: bool)
    | AForget(token: string)
    | AForgetReplay(token: string)
    | ASetActive(active: set<string>)

  function Step(s: State, a: Action): State {
    match a
    case AIssue(token, account, clientId, session, scopes) => Issue(s, FirstToken(token, account, clientId, session, scopes))
    case ACheck(rid, req, valid) => Check(s, rid, req, valid)
    case AEnter(rid, token) => Enter(s, rid, token)
    case ALoad(rid, drawn, replayValid) => Load(s, rid, drawn, replayValid)
    case ARotate(rid) => Rotate(s, rid)
    case AMint(rid, signed, admin) => Mint(s, rid, signed, admin)
    case AForget(token) => s.(tokens := s.tokens - {token})
    case AForgetReplay(token) => s.(replays := s.replays - {token})
    case ASetActive(active) => s.(active := active)
  }

  function Run(active: set<string>, acts: seq<Action>): State {
    if acts == [] then Init(active) else Step(Run(active, acts[..|acts| - 1]), acts[|acts| - 1])
  }

  // ----- invariant -----

  /** rt is a token of the chain that began with r. */
  predicate Of(rt: RefreshToken, r: RefreshToken) {
    rt.account == r.account && rt.clientId == r.clientId && rt.session == r.session && rt.scope == r.scope
  }

  ghost predicate InChain(root: map<string, RefreshToken>, token: string, rt: RefreshToken) {
    token in root && rt.token in root && root[rt.token] == root[token] && Of(rt, root[token])
  }

  ghost predicate ScopeOk(root: map<string, RefreshToken>, req: Request) {
    && req.token in root
    && (req.caller.App? ==> req.caller.id == root[req.token].clientId)
    && (req.caller.App? && req.scope != "" ==> Within(Tokens(req.scope), Tokens(root[req.token].scope)))
  }

  ghost predicate TokensOk(root: map<string, RefreshToken>, next: map<string, string>, tokens: map<string, RefreshToken>) {
    && (forall t | t in tokens :: tokens[t].token == t && InChain(root, t, tokens[t]) && t !in next)
    && (forall t | t in next :: t in root)
  }

  ghost predicate ReplaysOk(root: map<string, RefreshToken>, next: map<string, string>, replays: map<string, RefreshToken>) {
    forall t | t in replays :: InChain(root, t, replays[t]) && t in next && next[t] == replays[t].token
  }

  ghost predicate FlightOk(s: State, f: Flight) {
    && ScopeOk(s.root, f.req)
    && match f
       case Checked(req) => true
       case Loaded(req, drawn) => InChain(s.root, req.token, drawn) && drawn.token !in s.tokens && drawn.token !in s.next
       case Rotated(req, rt) => InChain(s.root, req.token, rt) && req.token in s.next && s.next[req.token] == rt.token
  }

  ghost predicate FlightsOk(s: State) {
    forall rid | rid in s.flights :: FlightOk(s, s.flights[rid])
  }

  /** No two requests drew the same string. */
  ghost predicate FreshApart(flights: map<nat, Flight>) {
    forall p, q | p in flights && q in flights && p != q && flights[p].Loaded? && flights[q].Loaded? ::
      flights[p].drawn.token != flights[q].drawn.token
  }

  ghost predicate AccessOk(root: map<string, RefreshToken>, next: map<string, string>, a: Access) {
    && a.presented in root && a.presented in next && next[a.presented] == a.given
    && var r := root[a.presented];
       && a.account == r.account && a.clientId == r.clientId && a.session == r.session
       && match a.caller
          case App(id) => id == r.clientId && Within(Tokens(a.scope), Tokens(r.scope))
          case Session => exists admin :: a.scope == SessionScope(r.scope, admin)
  }

  ghost predicate MintedOk(root: map<string, RefreshToken>, next: map<string, string>, minted: seq<Access>) {
    forall i | 0 <= i < |minted| :: AccessOk(root, next, minted[i])
  }

  ghost predicate Inv(s: State) {
    && TokensOk(s.root, s.next, s.tokens)
    && ReplaysOk(s.root, s.next, s.replays)
    && FlightsOk(s)
    && FreshApart(s.flights)
    && MintedOk(s.root, s.next, s.minted)
  }

  /** Lineage is only ever added to. */
  ghost predicate Grows(s: State, s': State) {
    && (forall t | t in s.root :: t in s'.root && s'.root[t] == s.root[t])
    && (forall t | t in s.next :: t in s'.next && s'.next[t] == s.next[t])
  }

  /** What holds for a lineage holds for every larger one. */
  lemma GrowsKeepsRecords(s: State, s': State)
    requires Grows(s, s') && ReplaysOk(s.root, s.next, s.replays) && MintedOk(s.root, s.next, s.minted)
    ensures ReplaysOk(s'.root, s'.next, s.replays) && MintedOk(s'.root, s'.next, s.minted)
  {
    hide Within, Tokens;
    assert ReplaysOk(s'.root, s'.next, s.replays) by { hide MintedOk; }
    assert MintedOk(s'.root, s'.next, s.minted) by { hide ReplaysOk; }
  }

  lemma FlightGrows(s: State, s': State, f: Flight)
    requires Grows(s, s') && FlightOk(s, f)
    requires f.Loaded? ==> f.drawn.token !in s'.tokens && f.drawn.token !in s'.next
    ensures FlightOk(s', f)
  {
    hide Within, Tokens;
  }

  /** A string outside the lineage can start a chain of its own. */
  lemma BeginChainKeeps(s: State, rt: RefreshToken)
    requires Inv(s) && rt.token !in s.root
    ensures var s' := s.(tokens := s.tokens[rt.token := rt], root := s.root[rt.token := rt]);
            Inv(s') && Grows(s, s')
  {
    hide Within, Tokens;
    var s' := s.(tokens := s.tokens[rt.token := rt], root := s.root[rt.token := rt]);
    assert TokensOk(s'.root, s'.next, s'.tokens) by { hide ReplaysOk, FlightsOk, FreshApart, MintedOk; }
    hide TokensOk;
    assert FlightsOk(s') by {
      hide ReplaysOk, FreshApart, MintedOk;
      forall rid | rid in s.flights ensures FlightOk(s', s.flights[rid]) { FlightGrows(s, s', s.flights[rid]); }
    }
    hide FlightsOk, FreshApart;
    GrowsKeepsRecords(s, s');
  }

  lemma IssueKeeps(s: State, rt: RefreshToken)
    requires Inv(s)
    ensures Inv(Issue(s, rt)) && Grows(s, Issue(s, rt))
  {
    hide Inv;
    if rt.token !in s.root { BeginChainKeeps(s, rt); }
  }

  lemma CheckKeeps(s: State, rid: nat, req: Request, valid: bool)
    requires Inv(s)
    ensures Inv(Check(s, rid, req, valid)) && Grows(s, Check(s, rid, req, valid))
  {
    hide Within, Tokens, MintedOk, ReplaysOk;
  }

  lemma EnterKeeps(s: State, rid: nat, token: string)
    requires Inv(s)
    ensures Inv(Enter(s, rid, token)) && Grows(s, Enter(s, rid, token))
  {
    hide Within, Tokens, MintedOk, ReplaysOk;
  }

  lemma EndKeeps(s: State, rid: nat)
    requires Inv(s)
    ensures Inv(s.(flights := s.flights - {rid}))
  {
    hide ScopeOk, InChain, MintedOk, ReplaysOk, TokensOk;
  }

  lemma LookUpKeeps(s: State, rid: nat)
    requires Inv(s) && rid in s.flights && s.flights[rid].req.token in s.replays
    ensures var req := s.flights[rid].req;
            Inv(s.(flights := s.flights[rid := Rotated(req, s.replays[req.token])]))
  {
    hide Within, Tokens, MintedOk, TokensOk;
  }

  /** Drawing a string: it joins the chain, and nobody else has it. */
  lemma DrawKeeps(s: State, rid: nat, drawn: string)
    requires Inv(s) && rid in s.flights && s.flights[rid].req.token in s.tokens && drawn !in s.root
    ensures var req := s.flights[rid].req;
            var s' := s.(root := s.root[drawn := RootOf(s, req.token)],
                         flights := s.flights[rid := Loaded(req, Successor(s.tokens[req.token], drawn))]);
            Inv(s') && Grows(s, s')
  {
    hide Within, Tokens;
    var req := s.flights[rid].req;
    var f := Loaded(req, Successor(s.tokens[req.token], drawn));
    var s' := s.(root := s.root[drawn := RootOf(s, req.token)], flights := s.flights[rid := f]);
    assert Grows(s, s') by { hide TokensOk, ReplaysOk, FlightsOk, FreshApart, MintedOk; }
    assert TokensOk(s'.root, s'.next, s'.tokens) by { hide ReplaysOk, FlightsOk, FreshApart, MintedOk, Grows; }
    assert FlightOk(s', f) by { hide ReplaysOk, FreshApart, MintedOk; }
    assert FlightsOk(s') by {
      hide ReplaysOk, TokensOk, FreshApart, MintedOk;
      forall r | r in s.flights ensures FlightOk(s', s.flights[r]) { FlightGrows(s, s', s.flights[r]); }
    }
    assert FreshApart(s'.flights) by {
      hide TokensOk, ReplaysOk, MintedOk, Grows;
      assert forall r | r in s.flights && s.flights[r].Loaded? :: s.flights[r].drawn.token in s.root;
    }
    hide TokensOk, FlightsOk, FreshApart;
    GrowsKeepsRecords(s, s');
  }

  lemma LoadKeeps(s: State, rid: nat, drawn: string, replayValid: bool)
    requires Inv(s)
    ensures Inv(Load(s, rid, drawn, replayValid)) && Grows(s, Load(s, rid, drawn, replayValid))
  {
    hide Inv, RootOf;
    if rid in s.flights && s.flights[rid].Checked? && drawn !in s.root {
      EndKeeps(s, rid);
      if s.flights[rid].req.token in s.replays { LookUpKeeps(s, rid); }
      if s.flights[rid].req.token in s.tokens { DrawKeeps(s, rid, drawn); }
    }
  }

  lemma SwapKeepsFlights(s: State, rid: nat)
    requires FlightsOk(s) && FreshApart(s.flights) && Grows(s, Rotate(s, rid))
    requires rid in s.flights && s.flights[rid].Loaded? && s.flights[rid].req.token in s.tokens
    ensures FlightsOk(Rotate(s, rid))
  {
    var s' := Rotate(s, rid);
    assert FlightOk(s, s.flights[rid]);
    forall r | r in s'.flights ensures FlightOk(s', s'.flights[r]) {
      hide ScopeOk, InChain;
      if r != rid {
        assert FlightOk(s, s.flights[r]);
        hide FlightsOk;
        SwapSpares(s, rid, r);
        FlightGrows(s, s', s.flights[r]);
      } else {
        assert FlightOk(s', s'.flights[rid]) by { SwappedOk(s, rid); }
      }
    }
  }

  lemma SwappedOk(s: State, rid: nat)
    requires Grows(s, Rotate(s, rid))
    requires rid in s.flights && s.flights[rid].Loaded? && s.flights[rid].req.token in s.tokens && FlightOk(s, s.flights[rid])
    ensures FlightOk(Rotate(s, rid), Rotate(s, rid).flights[rid])
  {
    hide Within, Tokens;
  }

  lemma SwapKeeps(s: State, rid: nat)
    requires Inv(s) && rid in s.flights && s.flights[rid].Loaded? && s.flights[rid].req.token in s.tokens
    ensures Inv(Rotate(s, rid)) && Grows(s, Rotate(s, rid))
  {
    hide ScopeOk, AccessOk;
    var req := s.flights[rid].req;
    var drawn := s.flights[rid].drawn;
    var s' := Rotate(s, rid);
    assert FlightOk(s, s.flights[rid]);
    assert req.token !in s.next by { hide ReplaysOk, FlightsOk, FreshApart, MintedOk; }
    assert Grows(s, s') by { hide TokensOk, ReplaysOk, FlightsOk, FreshApart, MintedOk; }
    SwapKeepsFlights(s, rid);
    hide FlightsOk, MintedOk;
    assert TokensOk(s'.root, s'.next, s'.tokens) by { hide ReplaysOk, FreshApart; }
    hide TokensOk;
    assert FreshApart(s'.flights) by { hide ReplaysOk; }
    hide FreshApart;
    GrowsKeepsRecords(s, s');
  }

  lemma SwapSpares(s: State, rid: nat, r: nat)
    requires FreshApart(s.flights) && rid in s.flights && s.flights[rid].Loaded? && s.flights[rid].req.token in s.tokens
    requires r in s.flights && r != rid && FlightOk(s, s.flights[r])
    ensures var f := s.flights[r]; var s' := Rotate(s, rid);
            f.Loaded? ==> f.drawn.token !in s'.tokens && f.drawn.token !in s'.next
  {
    hide InChain, ScopeOk;
  }

  lemma RotateKeeps(s: State, rid: nat)
    requires Inv(s)
    ensures Inv(Rotate(s, rid)) && Grows(s, Rotate(s, rid))
  {
    if rid in s.flights && s.flights[rid].Loaded? {
      if s.flights[rid].req.token in s.tokens {
        hide Inv;
        SwapKeeps(s, rid);
      } else {
        hide Inv;
        EndKeeps(s, rid);
        if s.flights[rid].req.token in s.replays { LookUpKeeps(s, rid); }
      }
    }
  }

  lemma MintKeeps(s: State, rid: nat, signed: bool, admin: bool)
    requires Inv(s)
    ensures Inv(Mint(s, rid, signed, admin)) && Grows(s, Mint(s, rid, signed, admin))
  {
    hide Tokens, SessionScope;
    if rid in s.flights && s.flights[rid].Rotated? {
      var s' := Mint(s, rid, signed, admin);
      assert FlightOk(s, s.flights[rid]) by { hide TokensOk, ReplaysOk, MintedOk, FreshApart; }
      EndKeeps(s, rid);
      var e := s.(flights := s.flights - {rid});
      assert FlightsOk(e) && FreshApart(e.flights);
      hide FreshApart, TokensOk, ReplaysOk;
      assert FlightsOk(s');
    }
  }

  lemma ForgetKeeps(s: State, tokens: set<string>, replays: set<string>, active: set<string>)
    requires Inv(s)
    ensures Inv(s.(tokens := s.tokens - tokens, replays := s.replays - replays, active := active))
  {
    hide InChain, AccessOk, ScopeOk;
    var s' := s.(tokens := s.tokens - tokens, replays := s.replays - replays, active := active);
    assert TokensOk(s'.root, s'.next, s'.tokens) by { hide ReplaysOk, FlightsOk, FreshApart, MintedOk; }
    assert ReplaysOk(s'.root, s'.next, s'.replays) by { hide TokensOk, FlightsOk, FreshApart, MintedOk; }
    assert FlightsOk(s') by { hide TokensOk, ReplaysOk, FreshApart, MintedOk; }
    hide TokensOk, ReplaysOk, FlightsOk, FreshApart, MintedOk;
  }

  lemma StepKeeps(s: State, a: Action)
    requires Inv(s)
    ensures Inv(Step(s, a)) && Grows(s, Step(s, a))
  {
    hide Inv, Issue, Check, Enter, Load, Rotate, Mint;
    match a
    case AIssue(token, account, clientId, session, scopes) => IssueKeeps(s, FirstToken(token, account, clientId, session, scopes));
    case ACheck(rid, req, valid) => CheckKeeps(s, rid, req, valid);
    case AEnter(rid, token) => EnterKeeps(s, rid, token);
    case ALoad(rid, drawn, replayValid) => LoadKeeps(s, rid, drawn, replayValid);
    case ARotate(rid) => RotateKeeps(s, rid);
    case AMint(rid, signed, admin) => MintKeeps(s, rid, signed, admin);
    case AForget(token) =>
      ForgetKeeps(s, {token}, {}, s.active);
      assert s.replays - {} == s.replays;
    case AForgetReplay(token) =>
      ForgetKeeps(s, {}, {token}, s.active);
      assert s.tokens - {} == s.tokens;
    case ASetActive(active) =>
      ForgetKeeps(s, {}, {}, active);
      assert s.tokens - {} == s.tokens && s.replays - {} == s.replays;
  }

  lemma {:induction false} RunKeeps(active: set<string>, acts: seq<Action>)
    ensures Inv(Run(active, acts))
  {
    if acts != [] {
      hide Inv, Step;
      RunKeeps(active, acts[..|acts| - 1]);
      StepKeeps(Run(active, acts[..|acts| - 1]), acts[|acts| - 1]);
    }
  }

  // ----- what every run guarantees -----

  /** The action gave a chain its first token. */
  predicate Starts(a: Action, first: RefreshToken) {
    a.AIssue? && first == FirstToken(a.token, a.account, a.clientId, a.session, a.scopes)
  }

  ghost predicate Started(acts: seq<Action>, first: RefreshToken) {
    exists n :: 0 <= n < |acts| && Starts(acts[n], first)
  }

  lemma StartedLater(acts: seq<Action>, a: Action, first: RefreshToken)
    requires Started(acts, first) || Starts(a, first)
    ensures Started(acts + [a], first)
  {
    hide Starts;
    if Starts(a, first) {
      assert (acts + [a])[|acts|] == a;
    } else {
      var n :| 0 <= n < |acts| && Starts(acts[n], first);
      assert (acts + [a])[n] == acts[n];
    }
  }

  /** A step adds no roots but copies and the first token of an AIssue. */
  lemma StepRoots(s: State, a: Action, token: string)
    requires TokensOk(s.root, s.next, s.tokens) && token in Step(s, a).root
    ensures var r := Step(s, a).root[token]; Starts(a, r) || exists t :: t in s.root && s.root[t] == r
  {
    hide Within, Tokens, FirstToken;
    var s' := Step(s, a);
    if a.ALoad? {
      if token !in s.root { assert s'.root[token] == s.root[s.flights[a.rid].req.token]; }
    } else if a.AIssue? {
      if token !in s.root { assert Starts(a, s'.root[token]); }
    } else {
      assert token in s.root && s'.root[token] == s.root[token];
    }
  }

  /** Every chain of a run began with an AIssue of the run. */
  lemma {:induction false} RootsStarted(active: set<string>, acts: seq<Action>, token: string)
    requires token in Run(active, acts).root
    ensures Started(acts, Run(active, acts).root[token])
  {
    hide Step, Inv, Started, Starts;
    var last := |acts| - 1;
    var s := Run(active, acts[..last]);
    RunKeeps(active, acts[..last]);
    InvTokens(s);
    StepRoots(s, acts[last], token);
    var r := Run(active, acts).root[token];
    if !Starts(acts[last], r) {
      var t :| t in s.root && s.root[t] == r;
      RootsStarted(active, acts[..last], t);
    }
    StartedLater(acts[..last], acts[last], r);
    assert acts[..last] + [acts[last]] == acts;
  }

  lemma InvTokens(s: State)
    requires Inv(s)
    ensures TokensOk(s.root, s.next, s.tokens)
  {
    hide TokensOk, ReplaysOk, FlightsOk, FreshApart, MintedOk;
  }

  lemma SessionScopeWithin(scope: string, admin: bool)
    ensures Within(Tokens(SessionScope(scope, admin)), Tokens(scope)) <==> scope != ""
  {
    if scope == "" {
      var granted := ["openid", "profile", "email"] + if admin then ["admin"] else [];
      assert Text.Join(granted, ' ') == SessionScope("", admin) by { JoinRoles(); }
      TokensOfJoin(granted);
      TokensOfJoin([]);
      hide Tokens;
      assert "openid" in Tokens(SessionScope("", admin));
    }
  }

  lemma JoinRoles()
    ensures Text.Join(["openid", "profile", "email"] + [], ' ') == "openid profile email"
    ensures Text.Join(["openid", "profile", "email"] + ["admin"], ' ') == "openid profile email admin"
  {
    assert ["openid", "profile", "email"] + [] == ["openid", "profile", "email"];
    assert ["openid", "profile", "email"] + ["admin"] == ["openid", "profile", "email", "admin"];
    assert Text.Join(["email", "admin"], ' ') == "email admin";
    assert Text.Join(["profile", "email", "admin"], ' ') == "profile email admin";
    assert Text.Join(["profile", "email"], ' ') == "profile email";
  }

  /**
   Over any chain of refreshes, however they interleave: an access token is for
   the account, client and session of the chain's first token, which some AIssue
   of the run made; at the token endpoint only that client gets it.  Its scopes
   lie in the scope first granted, except exactly when the session refresh is
   used on a chain without scope.
   */
  lemma RefreshStaysInGrant(active: set<string>, acts: seq<Action>, i: nat)
    requires i < |Run(active, acts).minted|
    ensures var s := Run(active, acts);
            var a := s.minted[i];
            && a.presented in s.root
            && var first := s.root[a.presented];
               && Started(acts, first)
               && a.account == first.account && a.session == first.session && a.clientId == first.clientId
               && (a.caller.App? ==> a.caller.id == first.clientId)
               && (Within(Tokens(a.scope), Tokens(first.scope)) <==> a.caller.App? || first.scope != "")
  {
    hide TokensOk, ReplaysOk, FlightsOk, FreshApart, Run, Tokens, SessionScope, Within, Started;
    RunKeeps(active, acts);
    var s := Run(active, acts);
    var a := s.minted[i];
    assert AccessOk(s.root, s.next, a);
    RootsStarted(active, acts, a.presented);
    if a.caller.Session? {
      var first := s.root[a.presented];
      var admin :| a.scope == SessionScope(first.scope, admin);
      SessionScopeWithin(first.scope, admin);
    }
  }

  /**
   The same in terms of the scope list the chain began with, whatever client or
   session refreshes: refreshed scopes are words of its items, and items of it
   when every item is a single token, as those of a code are.  A list that joins
   to nothing, as a login's, gives the session refresh the roles' scopes.
   */
  lemma RefreshStaysInScopes(active: set<string>, acts: seq<Action>, i: nat)
    requires i < |Run(active, acts).minted|
    ensures exists n :: 0 <= n < |acts| && acts[n].AIssue? && IssuedFor(acts[n], Run(active, acts).minted[i])
  {
    hide Run, Tokens, IsToken, Text.Join;
    RefreshStaysInGrant(active, acts, i);
    var s := Run(active, acts);
    var a := s.minted[i];
    var first := s.root[a.presented];
    var n :| 0 <= n < |acts| && Starts(acts[n], first);
    var scopes := acts[n].scopes;
    if forall x | x in scopes :: IsToken(x) {
      TokensOfJoin(scopes);
      if scopes != [] { JoinNotEmpty(scopes); }
    }
    TokensAreWords(first.scope);
    forall x | x in Tokens(first.scope) ensures PieceOf(IsBlank, scopes, x) { WordsOfJoin(IsBlank, scopes, x); }
  }

  predicate IssuedFor(first: Action, a: Access)
    requires first.AIssue?
  {
    && a.account == first.account && a.session == first.session && a.clientId == first.clientId
    && (a.caller.App? || Text.Join(first.scopes, ' ') != "" ==> forall x | x in Tokens(a.scope) :: PieceOf(IsBlank, first.scopes, x))
    && ((forall x | x in first.scopes :: IsToken(x)) && (a.caller.App? || first.scopes != []) ==>
          forall x | x in Tokens(a.scope) :: x in first.scopes)
  }

  /** One item that is not a token is read as its words: then the words need not be items. */
  lemma WordsNeedNotBeItems()
    ensures Tokens(FirstToken("t", "a", "c", "", ["openid admin"]).scope) == ["openid", "admin"]
  {
    var parts := ["openid", "admin"];
    assert parts[1..] == ["admin"];
    assert Text.Join(parts, ' ') == "openid admin" == Text.Join(["openid admin"], ' ');
    TokensOfJoin(parts);
  }

  lemma JoinNotEmpty(scopes: seq<string>)
    requires scopes != [] && IsToken(scopes[0])
    ensures Text.Join(scopes, ' ') != ""
  {
  }

  /** A refresh token has one successor: whoever presents it, at either endpoint, first or as a replay, is handed the same one. */
  lemma OneSuccessor(active: set<string>, acts: seq<Action>, i: nat, j: nat)
    requires i < |Run(active, acts).minted| && j < |Run(active, acts).minted|
    requires Run(active, acts).minted[i].presented == Run(active, acts).minted[j].presented
    ensures Run(active, acts).minted[i].given == Run(active, acts).minted[j].given
  {
    hide TokensOk, ReplaysOk, FlightsOk, FreshApart, Run, Tokens;
    RunKeeps(active, acts);
    var s := Run(active, acts);
    assert AccessOk(s.root, s.next, s.minted[i]) && AccessOk(s.root, s.next, s.minted[j]);
  }

  /** Once rotated, a token is never stored again, whatever happens later. */
  lemma {:induction false} RotatedStaysGone(active: set<string>, acts: seq<Action>, later: seq<Action>, token: string)
    requires token in Run(active, acts).next
    ensures token in Run(active, acts + later).next && token !in Run(active, acts + later).tokens
  {
    hide ReplaysOk, FlightsOk, FreshApart, MintedOk, Step;
    RunKeeps(active, acts + later);
    if later == [] {
      assert acts + later == acts;
    } else {
      var last := |later| - 1;
      RotatedStaysGone(active, acts, later[..last], token);
      assert (acts + later)[..|acts| + last] == acts + later[..last];
      RunKeeps(active, acts + later[..last]);
      StepKeeps(Run(active, acts + later[..last]), later[last]);
    }
  }
}
