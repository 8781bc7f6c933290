/**
 From a request to its last refreshed token: the authorization-code protocol
 and the refresh chains its tokens start, in one run.
 */
module TokenChain {
  import opened Common
  import opened OAuthClient
  import opened OAuthProtocol
  import OAuthHistory
  import RefreshGrant

  /** The chain's first token was made for this code: handleAuthorizationCodeGrant after it minted the access token. */
  predicate FirstOf(first: RefreshGrant.RefreshToken, ac: AuthCode) {
    first == RefreshGrant.FirstToken(first.token, ac.account, ac.clientId, ac.session, ac.scopes)
  }

  /** What a refresh hands out lies in what the code's request asked for, its client might have and its consent covered. */
  predicate Bounded(a: RefreshGrant.Access, o: Origin) {
    && a.account == o.asked.account && a.clientId == o.asked.req.clientId && a.session == o.asked.session
    && (a.caller.App? ==> a.caller.id == o.asked.req.clientId)
    && forall x | x in Tokens(a.scope) :: x in Tokens(o.asked.req.scope) && o.client.MayHave(x) && x in o.consented
  }

  /**
   However the requests and the refreshes interleave: every access token of a
   chain that began with a code, refreshed at either endpoint, is bounded by the
   request, client and consent its code came from in the run.
   */
  lemma ChainStaysInRequest(cfg: Config, db: Database, acts: seq<Action>, code: string,
                            active: set<string>, refreshes: seq<RefreshGrant.Action>, i: nat)
    requires db.Keyed() && code in Reached(cfg, db, acts).issued
    requires var r := RefreshGrant.Run(active, refreshes);
             && i < |r.minted| && r.minted[i].presented in r.root
             && FirstOf(r.root[r.minted[i].presented], Reached(cfg, db, acts).issued[code].ac)
    ensures var issue := Reached(cfg, db, acts).issued[code];
            && (exists n, m, k, j :: OAuthHistory.IssuedAt(cfg, db, acts, n, m, k, j, code, issue))
            && Bounded(RefreshGrant.Run(active, refreshes).minted[i], issue.origin)
  {
    hide Reached, RefreshGrant.Run, OAuthHistory.IssuedAt, Tokens, Client.MayHave, AllowedScopes, RefreshGrant.Started;
    var issue := Reached(cfg, db, acts).issued[code];
    var o := issue.origin;
    OAuthHistory.CodeComesFromRun(cfg, db, acts, code);
    var n, m, k, j :| OAuthHistory.IssuedAt(cfg, db, acts, n, m, k, j, code, issue);
    OAuthHistory.IssuedFields(cfg, db, acts, n, m, k, j, code, issue);
    RefreshGrant.RefreshStaysInGrant(active, refreshes, i);
    var scopes := AllowedScopes(o.asked, o.client, o.consented);
    forall x ensures x in scopes <==> x in Tokens(o.asked.req.scope) && o.client.MayHave(x) && x in o.consented {
      OAuthHistory.AllowedMember(o.asked, o.client, o.consented, x);
    }
    assert forall x | x in scopes :: IsToken(x);
    FirstScope(RefreshGrant.Run(active, refreshes).root[RefreshGrant.Run(active, refreshes).minted[i].presented], issue.ac);
  }

  lemma FirstScope(first: RefreshGrant.RefreshToken, ac: AuthCode)
    requires FirstOf(first, ac) && ac.scopes != [] && forall x | x in ac.scopes :: IsToken(x)
    ensures first.account == ac.account && first.clientId == ac.clientId && first.session == ac.session
    ensures first.scope != "" && Tokens(first.scope) == ac.scopes
  {
    TokensOfJoin(ac.scopes);
    RefreshGrant.JoinNotEmpty(ac.scopes);
  }

  // ----- one run of both -----

  /** FirstRefresh: the code grant, having minted its access token, makes the first refresh token of a chain. */
  datatype Event =
    | CodeStep(a: OAuthProtocol.Action)
    | RefreshStep(r: RefreshGrant.Action)
    | FirstRefresh(grant: nat, token: string)

  /** chains records which grant began which chain. */
  datatype Joint = Joint(code: State, refresh: RefreshGrant.State, chains: map<nat, string>)

  /** The grant is there, has no chain yet, and the string is new. */
  predicate Begins(j: Joint, grant: nat, token: string) {
    && grant < |j.code.grants| && grant !in j.chains && j.code.grants[grant].code in j.code.issued
    && token !in j.refresh.root && token != "" && CodeOf(j, grant).account != ""
  }

  function CodeOf(j: Joint, grant: nat): AuthCode
    requires grant < |j.code.grants| && j.code.grants[grant].code in j.code.issued
  {
    j.code.issued[j.code.grants[grant].code].ac
  }

  function IssueFor(ac: AuthCode, token: string): RefreshGrant.Action {
    RefreshGrant.AIssue(token, ac.account, ac.clientId, ac.session, ac.scopes)
  }

  function JointStep(cfg: Config, j: Joint, a: Event): Joint {
    match a
    case CodeStep(c) => j.(code := Step(cfg, j.code, c))
    case RefreshStep(r) => j.(refresh := RefreshGrant.Step(j.refresh, r))
    case FirstRefresh(grant, token) =>
      if !Begins(j, grant, token) then j
      else j.(refresh := RefreshGrant.Step(j.refresh, IssueFor(CodeOf(j, grant), token)), chains := j.chains[grant := token])
  }

  function JointRun(cfg: Config, db: Database, active: set<string>, events: seq<Event>): Joint {
    if events == [] then Joint(Init(db), RefreshGrant.Init(active), map[])
    else JointStep(cfg, JointRun(cfg, db, active, events[..|events| - 1]), events[|events| - 1])
  }

  /** The two runs a joint run consists of. */
  function CodePart(e: Event): seq<OAuthProtocol.Action> {
    if e.CodeStep? then [e.a] else []
  }

  function RefreshPart(j: Joint, e: Event): seq<RefreshGrant.Action> {
    match e
    case CodeStep(_) => []
    case RefreshStep(r) => [r]
    case FirstRefresh(grant, token) => if Begins(j, grant, token) then [IssueFor(CodeOf(j, grant), token)] else []
  }

  function CodeActs(events: seq<Event>): seq<OAuthProtocol.Action> {
    if events == [] then [] else CodeActs(events[..|events| - 1]) + CodePart(events[|events| - 1])
  }

  function RefreshActs(cfg: Config, db: Database, active: set<string>, events: seq<Event>): seq<RefreshGrant.Action> {
    if events == [] then []
    else
      RefreshActs(cfg, db, active, events[..|events| - 1])
      + RefreshPart(JointRun(cfg, db, active, events[..|events| - 1]), events[|events| - 1])
  }

  lemma PartsStep(cfg: Config, db: Database, active: set<string>, j: Joint, e: Event,
                  acts: seq<OAuthProtocol.Action>, refreshes: seq<RefreshGrant.Action>)
    requires j.code == Reached(cfg, db, acts) && j.refresh == RefreshGrant.Run(active, refreshes)
    ensures JointStep(cfg, j, e).code == Reached(cfg, db, acts + CodePart(e))
    ensures JointStep(cfg, j, e).refresh == RefreshGrant.Run(active, refreshes + RefreshPart(j, e))
  {
    hide Step, RefreshGrant.Step, Reached, RefreshGrant.Run, IssueFor, CodeOf;
    assert acts + [] == acts && refreshes + [] == refreshes;
    match e
    case CodeStep(a) => OAuthHistory.ReachedNext(cfg, db, acts, a);
    case RefreshStep(r) => RefreshNext(active, refreshes, r);
    case FirstRefresh(grant, token) =>
      if Begins(j, grant, token) { RefreshNext(active, refreshes, IssueFor(CodeOf(j, grant), token)); }
  }

  lemma {:induction false} JointIsBoth(cfg: Config, db: Database, active: set<string>, events: seq<Event>)
    ensures var j := JointRun(cfg, db, active, events);
            && j.code == Reached(cfg, db, CodeActs(events))
            && j.refresh == RefreshGrant.Run(active, RefreshActs(cfg, db, active, events))
  {
    if events != [] {
      hide JointStep, CodePart, RefreshPart, Reached, RefreshGrant.Run;
      var before, last := events[..|events| - 1], events[|events| - 1];
      JointIsBoth(cfg, db, active, before);
      PartsStep(cfg, db, active, JointRun(cfg, db, active, before), last, CodeActs(before), RefreshActs(cfg, db, active, before));
    }
  }

  lemma RefreshNext(active: set<string>, acts: seq<RefreshGrant.Action>, a: RefreshGrant.Action)
    ensures RefreshGrant.Run(active, acts + [a]) == RefreshGrant.Step(RefreshGrant.Run(active, acts), a)
  {
    hide RefreshGrant.Step;
    assert (acts + [a])[..|acts|] == acts;
  }

  // Grants and the records of codes are only added to.

  ghost predicate Keeps(s: State, s': State) {
    && |s.grants| <= |s'.grants| && (forall i | 0 <= i < |s.grants| :: s'.grants[i] == s.grants[i])
    && (forall c | c in s.issued :: c in s'.issued && s'.issued[c] == s.issued[c])
  }

  lemma IssueKeepsRecords(cfg: Config, s: State, rid: nat, o: Origin, scopes: seq<string>, code: string)
    requires code !in s.issued
    ensures Keeps(s, IssueCode(cfg, s, rid, o, scopes, code))
  {
    hide CodeFor;
  }

  lemma GenerateKeeps(cfg: Config, s: State, rid: nat, code: string)
    requires Inv(cfg, s)
    ensures Keeps(s, GenerateCode(cfg, s, rid, code))
  {
    hide Inv, IssueCode, CodeFieldsPresent, Keeps, EndFlight;
    KeepsRecords(s, s);
    if rid in s.flights && Redemption(code) !in s.place && code != "" {
      OAuthHistory.CodeIsNew(cfg, s, code);
      match s.flights[rid]
      case Allowed(id, asked, client, consented, scopes) =>
        EndKeeps(s, rid, Direct(id));
        IssueKeepsRecords(cfg, s, rid, Origin(Direct(id), asked, client, consented), scopes, code);
      case Saved(id, asked, client, scopes) =>
        EndKeeps(s, rid, Form(id));
        IssueKeepsRecords(cfg, s, rid, Origin(Form(id), asked, client, scopes), scopes, code);
      case _ =>
    }
  }

  lemma KeepsRecords(s: State, s': State)
    requires SameRecords(s, s')
    ensures Keeps(s, s')
  {
  }

  lemma EndKeeps(s: State, rid: nat, t: Ticket)
    ensures Keeps(s, EndFlight(s, rid, t, Dropped))
  {
  }

  predicate SameRecords(s: State, s': State) {
    s'.issued == s.issued && s'.grants == s.grants
  }

  lemma AuthorizeRecords(cfg: Config, s: State, rid: nat, account: string, session: string, query: AuthRequest,
                         rt: string, rm: string, id: string, readOk: bool)
    ensures SameRecords(s, BeginAuthorize(cfg, s, rid, account, session, query, rt, rm, id)) && SameRecords(s, ReadConsent(s, rid, readOk))
  {
    hide AuthorizeRefusal, PlusToSpace, AllowedScopes;
  }

  lemma SubmitRecords(cfg: Config, s: State, rid: nat, account: string, session: string, form: AuthRequest, approved: bool, id: string)
    ensures SameRecords(s, BeginSubmit(s, rid, account, session, form, approved, id)) && SameRecords(s, ValidateSubmit(cfg, s, rid))
  {
    hide Tokens, Client.ValidScopes;
    if rid in s.flights && s.flights[rid].Submitting? { OAuthHistory.NotRefused(cfg, s, s.flights[rid].asked); }
    hide SubmitRefusal;
  }

  lemma SaveRecords(s: State, rid: nat, c: Commit)
    ensures SameRecords(s, SaveConsent(s, rid, c))
  {
    if rid in s.flights && s.flights[rid].Validated? {
      OAuthHistory.SaveConsentMoves(s, rid, c);
      hide SaveConsent;
    }
  }

  lemma TokenRecords(cfg: Config, s: State, rid: nat, id: string, secretOk: bool, code: string, uri: string, v: string)
    ensures SameRecords(s, BeginToken(cfg, s, rid, id, secretOk, code, uri, v))
  {
    if rid !in s.flights {
      OAuthHistory.BeginTokenMoves(cfg, s, rid, id, secretOk, code, uri, v);
      hide BeginToken;
    }
  }

  lemma FinishKeeps(s: State, rid: nat, minted: bool)
    ensures Keeps(s, FinishToken(s, rid, minted))
  {
    hide TokenFor;
  }

  lemma CodeStepKeeps(cfg: Config, s: State, a: OAuthProtocol.Action)
    requires Inv(cfg, s)
    ensures Keeps(s, Step(cfg, s, a))
  {
    hide Inv, BeginAuthorize, ReadConsent, GenerateCode, BeginSubmit, ValidateSubmit, SaveConsent, BeginToken, FinishToken;
    match a
    case ABeginAuthorize(r, account, session, query, rt, rm, id) => AuthorizeRecords(cfg, s, r, account, session, query, rt, rm, id, true);
    case AReadConsent(r, readOk) => AuthorizeRecords(cfg, s, r, "", "", AuthRequest("", "", "", "", "", "", ""), "", "", "", readOk);
    case AGenerateCode(r, code) => GenerateKeeps(cfg, s, r, code);
    case ABeginSubmit(r, account, session, form, approved, id) => SubmitRecords(cfg, s, r, account, session, form, approved, id);
    case AValidateSubmit(r) => SubmitRecords(cfg, s, r, "", "", AuthRequest("", "", "", "", "", "", ""), false, "");
    case ASaveConsent(r, c) => SaveRecords(s, r, c);
    case ABeginToken(r, id, secretOk, code, uri, v) => TokenRecords(cfg, s, r, id, secretOk, code, uri, v);
    case AFinishToken(r, minted) => FinishKeeps(s, r, minted);
    case _ =>
  }

  // Chains are told apart by their first tokens.

  ghost predicate RootsSelf(root: map<string, RefreshGrant.RefreshToken>) {
    forall t | t in root :: root[t].token in root && root[root[t].token] == root[t]
  }

  lemma NewRootSelf(root: map<string, RefreshGrant.RefreshToken>, t: string, r: RefreshGrant.RefreshToken)
    requires RootsSelf(root) && t !in root && r.token == t
    ensures RootsSelf(root[t := r])
  {
  }

  lemma CopiedRootSelf(root: map<string, RefreshGrant.RefreshToken>, t: string, u: string)
    requires RootsSelf(root) && t !in root && u in root
    ensures RootsSelf(root[t := root[u]])
  {
  }

  lemma StepRootsSelf(s: RefreshGrant.State, a: RefreshGrant.Action)
    requires RefreshGrant.TokensOk(s.root, s.next, s.tokens) && RootsSelf(s.root)
    ensures RootsSelf(RefreshGrant.Step(s, a).root)
  {
    hide RefreshGrant.MayRefresh, RefreshGrant.FirstToken, RootsSelf;
    var s' := RefreshGrant.Step(s, a);
    if s'.root != s.root {
      if a.AIssue? {
        var rt := RefreshGrant.FirstToken(a.token, a.account, a.clientId, a.session, a.scopes);
        NewRootSelf(s.root, rt.token, rt);
      } else {
        CopiedRootSelf(s.root, a.drawn, s.flights[a.rid].req.token);
      }
    }
  }

  lemma RefreshStepKeeps(r: RefreshGrant.State, a: RefreshGrant.Action)
    requires RefreshGrant.Inv(r) && RootsSelf(r.root)
    ensures RootsSelf(RefreshGrant.Step(r, a).root) && RefreshGrant.Grows(r, RefreshGrant.Step(r, a))
  {
    hide RefreshGrant.Inv, RefreshGrant.Grows, RefreshGrant.Step, RootsSelf, RefreshGrant.TokensOk;
    RefreshGrant.StepKeeps(r, a);
    RefreshGrant.InvTokens(r);
    StepRootsSelf(r, a);
  }

  /** The chain of this grant began with its code's account, client, session and scopes. */
  ghost predicate ChainOk(s: State, root: map<string, RefreshGrant.RefreshToken>, grant: nat, token: string) {
    && grant < |s.grants| && s.grants[grant].code in s.issued
    && token in root && FirstOf(root[token], s.issued[s.grants[grant].code].ac) && root[token].token == token
  }

  /** So did every chain, and no two share a first token. */
  ghost predicate Linked(j: Joint) {
    && (forall g | g in j.chains :: ChainOk(j.code, j.refresh.root, g, j.chains[g]))
    && (forall g, h | g in j.chains && h in j.chains && j.chains[g] == j.chains[h] :: g == h)
  }

  lemma CodeStepLinked(cfg: Config, j: Joint, a: OAuthProtocol.Action)
    requires Linked(j) && Inv(cfg, j.code)
    ensures Linked(JointStep(cfg, j, CodeStep(a)))
  {
    hide Step, Inv, FirstOf;
    CodeStepKeeps(cfg, j.code, a);
  }

  lemma RefreshStepLinked(cfg: Config, j: Joint, a: RefreshGrant.Action)
    requires Linked(j) && RefreshGrant.Inv(j.refresh) && RootsSelf(j.refresh.root)
    ensures Linked(JointStep(cfg, j, RefreshStep(a)))
  {
    hide RefreshGrant.Step, RefreshGrant.Inv, RootsSelf, FirstOf;
    RefreshStepKeeps(j.refresh, a);
  }

  lemma IssuedChain(r: RefreshGrant.State, ac: AuthCode, token: string)
    requires token !in r.root && token != "" && ac.account != ""
    ensures var r' := RefreshGrant.Step(r, IssueFor(ac, token));
            token in r'.root && FirstOf(r'.root[token], ac) && r'.root[token].token == token
  {
  }

  lemma FirstLinked(cfg: Config, j: Joint, grant: nat, token: string)
    requires Linked(j) && RefreshGrant.Inv(j.refresh) && RootsSelf(j.refresh.root)
    ensures Linked(JointStep(cfg, j, FirstRefresh(grant, token)))
  {
    hide RefreshGrant.Inv, RootsSelf, RefreshGrant.Step, FirstOf, IssueFor;
    if Begins(j, grant, token) {
      RefreshStepKeeps(j.refresh, IssueFor(CodeOf(j, grant), token));
      IssuedChain(j.refresh, CodeOf(j, grant), token);
    }
  }

  lemma {:induction false} RefreshRunSelf(active: set<string>, acts: seq<RefreshGrant.Action>)
    ensures RootsSelf(RefreshGrant.Run(active, acts).root) && RefreshGrant.Inv(RefreshGrant.Run(active, acts))
  {
    hide RefreshGrant.Step, RefreshGrant.Inv;
    RefreshGrant.RunKeeps(active, acts);
    if acts != [] {
      hide RootsSelf;
      RefreshRunSelf(active, acts[..|acts| - 1]);
      RefreshStepKeeps(RefreshGrant.Run(active, acts[..|acts| - 1]), acts[|acts| - 1]);
    }
  }

  lemma {:induction false} JointLinked(cfg: Config, db: Database, active: set<string>, events: seq<Event>)
    requires db.Keyed()
    ensures Linked(JointRun(cfg, db, active, events))
  {
    if events != [] {
      hide JointStep, Linked, Inv, RefreshGrant.Inv, RootsSelf, Reached, RefreshGrant.Run;
      var before, last := events[..|events| - 1], events[|events| - 1];
      JointLinked(cfg, db, active, before);
      JointIsBoth(cfg, db, active, before);
      ReachedInv(cfg, db, CodeActs(before));
      RefreshRunSelf(active, RefreshActs(cfg, db, active, before));
      var j := JointRun(cfg, db, active, before);
      match last
      case CodeStep(a) => CodeStepLinked(cfg, j, a);
      case RefreshStep(r) => RefreshStepLinked(cfg, j, r);
      case FirstRefresh(grant, token) => FirstLinked(cfg, j, grant, token);
    }
  }

  /**
   In one run of the code flow and the refreshes, however they interleave: every
   access token of a chain that a grant began is bounded by the request, client
   and consent the grant's code came from in that run.
   */
  lemma GrantChainBounded(cfg: Config, db: Database, active: set<string>, events: seq<Event>, grant: nat, i: nat)
    requires db.Keyed() && grant in JointRun(cfg, db, active, events).chains
    requires var j := JointRun(cfg, db, active, events);
             && i < |j.refresh.minted| && j.refresh.minted[i].presented in j.refresh.root
             && j.refresh.root[j.refresh.minted[i].presented].token == j.chains[grant]
    ensures var j := JointRun(cfg, db, active, events);
            && grant < |j.code.grants| && j.code.grants[grant].code in j.code.issued
            && var issue := j.code.issued[j.code.grants[grant].code];
               && (exists n, m, k, l :: OAuthHistory.IssuedAt(cfg, db, CodeActs(events), n, m, k, l, j.code.grants[grant].code, issue))
               && Bounded(j.refresh.minted[i], issue.origin)
  {
    hide JointRun, Reached, RefreshGrant.Run, RefreshGrant.Inv, CodeActs, RefreshActs, OAuthHistory.IssuedAt, Bounded, FirstOf;
    JointLinked(cfg, db, active, events);
    JointIsBoth(cfg, db, active, events);
    RefreshRunSelf(active, RefreshActs(cfg, db, active, events));
    var j := JointRun(cfg, db, active, events);
    assert j.refresh.root[j.refresh.minted[i].presented] == j.refresh.root[j.chains[grant]];
    ChainStaysInRequest(cfg, db, CodeActs(events), j.code.grants[grant].code, active, RefreshActs(cfg, db, active, events), i);
  }

  /** One chain per code, and one code per chain. */
  lemma OneChainPerCode(cfg: Config, db: Database, active: set<string>, events: seq<Event>, g: nat, h: nat)
    requires db.Keyed() && g in JointRun(cfg, db, active, events).chains && h in JointRun(cfg, db, active, events).chains
    ensures var j := JointRun(cfg, db, active, events);
            && g < |j.code.grants| && h < |j.code.grants|
            && (j.code.grants[g].code == j.code.grants[h].code <==> j.chains[g] == j.chains[h])
  {
    hide JointRun, Reached, RefreshGrant.Run, CodeActs, RefreshActs, FirstOf;
    JointLinked(cfg, db, active, events);
    JointIsBoth(cfg, db, active, events);
    var j := JointRun(cfg, db, active, events);
    if j.code.grants[g].code == j.code.grants[h].code { CodeRedeemedOnce(cfg, db, CodeActs(events), g, h); }
  }
}
