/**
 The authorization-code protocol as a state machine: Authorize and
 SubmitConsent (internal/oauth2/controller/oauth2_authorize.go), GenerateCode
 and ValidateCode (internal/oauth2/service/auth_code_service.go), and the code
 grant (internal/oauth2/controller/oauth2_token.go).

 A handler is several steps, and steps of different requests interleave freely;
 a request between two steps is a Flight.  A step is one Redis call or one
 transaction with the lookups made just before it: BeginAuthorize looks up
 client and account and stores the consent state, ValidateSubmit looks up client
 and account, BeginToken looks up the client and takes the code.  Every claim is
 an invariant of all runs.
 */
module OAuthProtocol {
  import opened Common
  import opened OAuthClient
  import Text

  const STATE_TTL_MS := 600_000
  const MAX_CONSENT_SCOPES := 64

  /** What the deployment fixes: hashing, URL parsing, lifetimes and the PKCE policy. */
  datatype Config = Config(challengeOf: string -> string, schemeOk: string -> bool, codeTtlMs: nat, enforcePkce: bool)

  datatype AuthRequest = AuthRequest(
    clientId: string, redirectURI: string, scope: string, state: string,
    challenge: string, challengeMethod: string, nonce: string)

  datatype ConsentState = ConsentState(account: string, session: string, req: AuthRequest)

  datatype AuthCode = AuthCode(
    clientId: string, account: string, session: string, redirectURI: string, scopes: seq<string>,
    challenge: string, challengeMethod: string, nonce: string, expiresAt: int)

  datatype AccessToken = AccessToken(account: string, clientId: string, session: string, scope: string)

  datatype Flight =
    | Authorizing(consentId: string, asked: ConsentState, client: Client)
    | Allowed(consentId: string, asked: ConsentState, client: Client, consented: seq<string>, scopes: seq<string>)
    | Submitting(consentId: string, asked: ConsentState)
    | Validated(consentId: string, asked: ConsentState, client: Client, scopes: seq<string>)
    | Saved(consentId: string, asked: ConsentState, client: Client, scopes: seq<string>)
    | Redeeming(code: string, ac: AuthCode, verifier: Option<string>)

  /** A one-time right: to submit a consent form, to finish an Authorize, to redeem a code. */
  datatype Ticket = Form(consentId: string) | Direct(consentId: string) | Redemption(code: string)

  /** Where a ticket is.  It is created once and moves towards Issued, Granted or Dropped. */
  datatype Place = Free | Held(rid: nat) | Issued(code: string) | Granted(index: nat) | Dropped

  /** Why a code was issued: the request, the client as looked up, the consent as read or saved. */
  datatype Origin = Origin(ticket: Ticket, asked: ConsentState, client: Client, consented: seq<string>)
  datatype Issue = Issue(ac: AuthCode, origin: Origin)
  datatype Grant = Grant(code: string, verifier: Option<string>, token: AccessToken)
  datatype Pending = Pending(asked: ConsentState, expireAt: int)

  datatype State = State(
    now: int,
    clients: map<string, Client>,
    active: set<string>,
    consents: map<(string, string), seq<string>>,
    pending: map<string, Pending>,
    codes: map<string, AuthCode>,
    // history
    flights: map<nat, Flight>,
    confidential: map<string, bool>,
    place: map<Ticket, Place>,
    rendered: set<string>,
    issued: map<string, Issue>,
    grants: seq<Grant>)

  /** What the database holds when the run begins; Redis is empty. */
  datatype Database = Database(clients: map<string, Client>, active: set<string>, consents: map<(string, string), seq<string>>)
  {
    ghost predicate Keyed() {
      forall id | id in clients :: clients[id].clientId == id
    }
  }

  function Init(db: Database): State {
    State(0, db.clients, db.active, db.consents, map[], map[], map[],
          map id | id in db.clients :: db.clients[id].confidential, map[], {}, map[], [])
  }

  // ----- Authorize -----

  function PlusToSpace(s: string): string {
    seq(|s|, i requires 0 <= i < |s| => if s[i] == '+' then ' ' else s[i])
  }

  /** The error of the checks before anything is stored, "" when there is none. */
  function AuthorizeRefusal(cfg: Config, s: State, account: string, q: AuthRequest, responseType: string, responseMode: string): string {
    if q.challenge != "" && q.challengeMethod != "S256" then "invalid_request"
    else if q.challengeMethod != "" && q.challenge == "" then "invalid_request"
    else if responseType != "code" then "unsupported_response_type"
    else if responseMode != "" && responseMode != "query" then "invalid_request"
    else if q.clientId !in s.clients then "invalid_client"
    else
      var client := s.clients[q.clientId];
      if !(cfg.schemeOk(q.redirectURI) && q.redirectURI in client.redirectURIs) then "invalid_redirect_uri"
      else if !client.confidential && q.state == "" then "invalid_request"
      else if !client.confidential && q.challenge == "" then "invalid_request"
      else if client.confidential && cfg.enforcePkce && q.challenge == "" then "invalid_request"
      else if account !in s.active then "access_denied"
      else ""
  }

  predicate FreshConsentId(s: State, consentId: string) {
    Form(consentId) !in s.place && Direct(consentId) !in s.place
  }

  /** Checks, client lookup, and the consent state put into Redis. */
  function BeginAuthorize(cfg: Config, s: State, rid: nat, account: string, session: string,
                          query: AuthRequest, responseType: string, responseMode: string, consentId: string): State
  {
    var q := query.(scope := PlusToSpace(query.scope));
    if rid in s.flights || !FreshConsentId(s, consentId)
       || AuthorizeRefusal(cfg, s, account, q, responseType, responseMode) != "" then s
    else
      var asked := ConsentState(account, session, q);
      s.(pending := s.pending[consentId := Pending(asked, s.now + STATE_TTL_MS)],
         place := s.place[Form(consentId) := Free][Direct(consentId) := Held(rid)],
         flights := s.flights[rid := Authorizing(consentId, asked, s.clients[q.clientId])])
  }

  function AllowedScopes(asked: ConsentState, client: Client, consented: seq<string>): seq<string> {
    Keep(x => x in consented, client.ValidScopes(Tokens(asked.req.scope)))
  }

  function EndFlight(s: State, rid: nat, ticket: Ticket, p: Place): State {
    s.(flights := s.flights - {rid}, place := s.place[ticket := p])
  }

  /** GetConsent; without a usable consent, or when reading fails, the consent page goes out. */
  function ReadConsent(s: State, rid: nat, readOk: bool): State {
    if rid !in s.flights || !s.flights[rid].Authorizing? then s
    else
      var f := s.flights[rid];
      var key := (f.asked.account, f.asked.req.clientId);
      if !readOk || key !in s.consents || AllowedScopes(f.asked, f.client, s.consents[key]) == [] then
        EndFlight(s, rid, Direct(f.consentId), Dropped).(rendered := s.rendered + {f.consentId})
      else
        s.(flights := s.flights[rid := Allowed(f.consentId, f.asked, f.client, s.consents[key],
                                               AllowedScopes(f.asked, f.client, s.consents[key]))])
  }

  // ----- GenerateCode -----

  function CodeFor(cfg: Config, now: int, asked: ConsentState, scopes: seq<string>): AuthCode {
    AuthCode(asked.req.clientId, asked.account, asked.session, asked.req.redirectURI, scopes,
             asked.req.challenge, asked.req.challengeMethod, asked.req.nonce, now + cfg.codeTtlMs)
  }

  /** NewAuthorizationCode insists on these. */
  predicate CodeFieldsPresent(asked: ConsentState) {
    asked.req.clientId != "" && asked.account != "" && asked.req.redirectURI != ""
  }

  function IssueCode(cfg: Config, s: State, rid: nat, origin: Origin, scopes: seq<string>, code: string): State {
    var ac := CodeFor(cfg, s.now, origin.asked, scopes);
    EndFlight(s, rid, origin.ticket, Issued(code)).(
      place := s.place[origin.ticket := Issued(code)][Redemption(code) := Free],
      codes := s.codes[code := ac],
      issued := s.issued[code := Issue(ac, origin)])
  }

  /** The last step of Authorize or SubmitConsent; code is a fresh random string. */
  function GenerateCode(cfg: Config, s: State, rid: nat, code: string): State {
    if rid !in s.flights || Redemption(code) in s.place || code == "" then s
    else
      match s.flights[rid]
      case Allowed(id, asked, client, consented, scopes) =>
        if !CodeFieldsPresent(asked) then EndFlight(s, rid, Direct(id), Dropped)
        else IssueCode(cfg, s, rid, Origin(Direct(id), asked, client, consented), scopes, code)
      case Saved(id, asked, client, scopes) =>
        if !CodeFieldsPresent(asked) then EndFlight(s, rid, Form(id), Dropped)
        else IssueCode(cfg, s, rid, Origin(Form(id), asked, client, scopes), scopes, code)
      case _ => s
  }

  // ----- SubmitConsent -----

  /** The form's required fields, GETDEL of the consent state, then comparison with the form. */
  function BeginSubmit(s: State, rid: nat, account: string, session: string,
                       form: AuthRequest, approved: bool, consentId: string): State
  {
    if rid in s.flights || form.clientId == "" || form.redirectURI == "" || form.scope == "" || !approved || consentId == "" then s
    else if consentId !in s.pending || s.now > s.pending[consentId].expireAt then s
    else
      var asked := s.pending[consentId].asked;
      var s' := s.(pending := s.pending - {consentId});
      if asked != ConsentState(account, session, form) then
        s'.(place := s.place[Form(consentId) := Dropped])
      else
        s'.(place := s.place[Form(consentId) := Held(rid)],
            flights := s.flights[rid := Submitting(consentId, asked)])
  }

  /** Client lookup, redirect URI, scopes, account status; the error or "". */
  function SubmitRefusal(cfg: Config, s: State, asked: ConsentState): string {
    if asked.req.clientId !in s.clients then "invalid_client"
    else
      var client := s.clients[asked.req.clientId];
      if !(cfg.schemeOk(asked.req.redirectURI) && asked.req.redirectURI in client.redirectURIs) then "invalid_redirect_uri"
      else if client.ValidScopes(Tokens(asked.req.scope)) == [] then "invalid_scope"
      else if asked.account !in s.active then "unauthorized_client"
      else ""
  }

  function ValidateSubmit(cfg: Config, s: State, rid: nat): State {
    if rid !in s.flights || !s.flights[rid].Submitting? then s
    else
      var f := s.flights[rid];
      if SubmitRefusal(cfg, s, f.asked) != "" then EndFlight(s, rid, Form(f.consentId), Dropped)
      else
        var client := s.clients[f.asked.req.clientId];
        s.(flights := s.flights[rid := Validated(f.consentId, f.asked, client, client.ValidScopes(Tokens(f.asked.req.scope)))])
  }

  predicate Distinct(scopes: seq<string>) {
    forall i, j | 0 <= i < j < |scopes| :: scopes[i] != scopes[j]
  }

  /** What NewConsent accepts. */
  predicate ConsentAccepts(asked: ConsentState, scopes: seq<string>) {
    asked.account != "" && asked.req.clientId != "" && |scopes| <= MAX_CONSENT_SCOPES && Distinct(scopes) && "" !in scopes
  }

  function Recorded(s: State, asked: ConsentState, scopes: seq<string>): State {
    s.(consents := s.consents[(asked.account, asked.req.clientId) := scopes])
  }

  /** NewConsent and SaveConsent, whose transaction may end in doubt: recorded, but the request is over. */
  function SaveConsent(s: State, rid: nat, c: Commit): State {
    if rid !in s.flights || !s.flights[rid].Validated? then s
    else
      var f := s.flights[rid];
      if c.RolledBack? || !ConsentAccepts(f.asked, f.scopes) then EndFlight(s, rid, Form(f.consentId), Dropped)
      else if c.CommitUnconfirmed? then EndFlight(Recorded(s, f.asked, f.scopes), rid, Form(f.consentId), Dropped)
      else Recorded(s, f.asked, f.scopes).(flights := s.flights[rid := Saved(f.consentId, f.asked, f.client, f.scopes)])
  }

  // ----- the code grant -----

  predicate IsUnreserved(c: char) {
    'A' <= c <= 'Z' || 'a' <= c <= 'z' || '0' <= c <= '9' || c == '-' || c == '.' || c == '_' || c == '~'
  }

  predicate ValidVerifier(v: string) {
    43 <= |v| <= 128 && forall i | 0 <= i < |v| :: IsUnreserved(v[i])
  }

  /** VerifyPKCE of internal/oauth2/domain/authorization_code.go. */
  method VerifyPKCE(cfg: Config, challenge: string, challengeMethod: string, verifier: string) returns (ok: bool)
    ensures ok <==> PkceMatches(cfg, challenge, challengeMethod, verifier)
  {
    if challenge == "" { return true; }
    if |verifier| < 43 || |verifier| > 128 { return false; }
    for i := 0 to |verifier|
      invariant forall j | 0 <= j < i :: IsUnreserved(verifier[j])
    {
      var c := verifier[i];
      if (c < 'A' || c > 'Z') && (c < 'a' || c > 'z') && (c < '0' || c > '9')
         && c != '-' && c != '.' && c != '_' && c != '~' {
        return false;
      }
    }
    return challengeMethod == "S256" && cfg.challengeOf(verifier) == challenge;
  }

  predicate PkceMatches(cfg: Config, challenge: string, challengeMethod: string, verifier: string) {
    challenge == "" || (ValidVerifier(verifier) && challengeMethod == "S256" && cfg.challengeOf(verifier) == challenge)
  }

  /** ValidateCode's checks on a code it has already deleted. */
  predicate CodeAccepted(cfg: Config, s: State, ac: AuthCode, clientId: string, redirectURI: string, verifier: Option<string>) {
    && s.now <= ac.expiresAt
    && ac.clientId == clientId
    && ac.redirectURI == redirectURI
    && (ac.challenge != "" ==> verifier.Some? && PkceMatches(cfg, ac.challenge, ac.challengeMethod, verifier.value))
  }

  /** Client lookup and authentication; the error or "". */
  function TokenRefusal(s: State, clientId: string, secretOk: bool, codeVerifier: string): string {
    if clientId !in s.clients then "invalid_client"
    else
      var client := s.clients[clientId];
      if !client.HasGrantType("authorization_code") then "unauthorized_client"
      else if client.confidential && !secretOk then "invalid_client"
      else if !client.confidential && codeVerifier == "" then "invalid_grant"
      else ""
  }

  function VerifierParam(codeVerifier: string): Option<string> {
    if codeVerifier == "" then None else Some(codeVerifier)
  }

  /** Everything up to and including ValidateCode; the code is gone even when it is refused. */
  function BeginToken(cfg: Config, s: State, rid: nat, clientId: string, secretOk: bool,
                      code: string, redirectURI: string, codeVerifier: string): State
  {
    if rid in s.flights || TokenRefusal(s, clientId, secretOk, codeVerifier) != "" then s
    else if code !in s.codes || s.now > s.codes[code].expiresAt then s      // the key is not there
    else
      var ac := s.codes[code];
      var s' := s.(codes := s.codes - {code});
      if !CodeAccepted(cfg, s, ac, clientId, redirectURI, VerifierParam(codeVerifier)) then
        s'.(place := s.place[Redemption(code) := Dropped])
      else
        s'.(place := s.place[Redemption(code) := Held(rid)],
            flights := s.flights[rid := Redeeming(code, ac, VerifierParam(codeVerifier))])
  }

  function TokenFor(ac: AuthCode): AccessToken {
    AccessToken(ac.account, ac.clientId, ac.session, Text.Join(ac.scopes, ' '))
  }

  /** Account check and token generation; `minted` is false when a lookup or the signing fails. */
  function FinishToken(s: State, rid: nat, minted: bool): State {
    if rid !in s.flights || !s.flights[rid].Redeeming? then s
    else
      var f := s.flights[rid];
      if f.ac.account !in s.active || !minted then EndFlight(s, rid, Redemption(f.code), Dropped)
      else
        EndFlight(s, rid, Redemption(f.code), Granted(|s.grants|)).(
          grants := s.grants + [Grant(f.code, f.verifier, TokenFor(f.ac))])
  }

  // ----- the surroundings -----

  /** Registration or update of a client; an update cannot change `confidential`. */
  function PutClient(s: State, client: Client): State {
    var id := client.clientId;
    if id in s.confidential && s.confidential[id] != client.confidential then s
    else s.(clients := s.clients[id := client], confidential := s.confidential[id := client.confidential])
  }

  datatype Action =
    | ATick(ms: nat)
    | APutClient(client: Client)
    | ADropClient(clientId: string)
    | ASetActive(account: string, isActive: bool)
    | ARevokeConsent(account: string, clientId: string)
    | ABeginAuthorize(rid: nat, account: string, session: string, query: AuthRequest,
                      responseType: string, responseMode: string, consentId: string)
    | AReadConsent(rid: nat, readOk: bool)
    | AGenerateCode(rid: nat, code: string)
    | ABeginSubmit(rid: nat, account: string, session: string, form: AuthRequest, approved: bool, consentId: string)
    | AValidateSubmit(rid: nat)
    | ASaveConsent(rid: nat, c: Commit)
    | ABeginToken(rid: nat, clientId: string, secretOk: bool, code: string, redirectURI: string, codeVerifier: string)
    | AFinishToken(rid: nat, minted: bool)

  function Step(cfg: Config, s: State, a: Action): State {
    match a
    case ATick(ms) => s.(now := s.now + ms)
    case APutClient(client) => PutClient(s, client)
    case ADropClient(id) => s.(clients := s.clients - {id})
    case ASetActive(account, isActive) => s.(active := if isActive then s.active + {account} else s.active - {account})
    case ARevokeConsent(account, id) => s.(consents := s.consents - {(account, id)})
    case ABeginAuthorize(rid, account, session, query, rt, rm, id) => BeginAuthorize(cfg, s, rid, account, session, query, rt, rm, id)
    case AReadConsent(rid, readOk) => ReadConsent(s, rid, readOk)
    case AGenerateCode(rid, code) => GenerateCode(cfg, s, rid, code)
    case ABeginSubmit(rid, account, session, form, approved, id) => BeginSubmit(s, rid, account, session, form, approved, id)
    case AValidateSubmit(rid) => ValidateSubmit(cfg, s, rid)
    case ASaveConsent(rid, c) => SaveConsent(s, rid, c)
    case ABeginToken(rid, id, secretOk, code, uri, v) => BeginToken(cfg, s, rid, id, secretOk, code, uri, v)
    case AFinishToken(rid, minted) => FinishToken(s, rid, minted)
  }

  function Run(cfg: Config, s: State, acts: seq<Action>): State {
    if acts == [] then s
    else Step(cfg, Run(cfg, s, acts[..|acts| - 1]), acts[|acts| - 1])
  }

  // ----- invariants -----

  ghost predicate ClientsOk(s: State) {
    forall id | id in s.clients ::
      s.clients[id].clientId == id && id in s.confidential && s.confidential[id] == s.clients[id].confidential
  }

  /** A challenge is an S256 challenge, and a public client has one. */
  ghost predicate PkceBound(s: State, req: AuthRequest) {
    && req.clientId in s.confidential
    && (req.challenge != "" ==> req.challengeMethod == "S256")
    && (!s.confidential[req.clientId] ==> req.challenge != "")
  }

  ghost predicate ScopesWithin(scopes: seq<string>, asked: ConsentState, client: Client, consented: seq<string>) {
    forall x | x in scopes :: x in Tokens(asked.req.scope) && client.MayHave(x) && x in consented
  }

  function TicketOf(f: Flight): Ticket {
    match f
    case Authorizing(id, _, _) => Direct(id)
    case Allowed(id, _, _, _, _) => Direct(id)
    case Submitting(id, _) => Form(id)
    case Validated(id, _, _, _) => Form(id)
    case Saved(id, _, _, _) => Form(id)
    case Redeeming(code, _, _) => Redemption(code)
  }

  ghost predicate At(s: State, t: Ticket, p: Place) {
    t in s.place && s.place[t] == p
  }

  ghost predicate VerifierOk(cfg: Config, ac: AuthCode, verifier: Option<string>) {
    ac.challenge != "" ==> verifier.Some? && PkceMatches(cfg, ac.challenge, ac.challengeMethod, verifier.value)
  }

  ghost predicate FlightOk(cfg: Config, s: State, rid: nat, f: Flight) {
    && At(s, TicketOf(f), Held(rid))
    && match f
       case Authorizing(_, asked, client) => PkceBound(s, asked.req) && client.clientId == asked.req.clientId
       case Allowed(_, asked, client, consented, scopes) =>
         PkceBound(s, asked.req) && client.clientId == asked.req.clientId && ScopesWithin(scopes, asked, client, consented)
       case Submitting(_, asked) => PkceBound(s, asked.req)
       case Validated(_, asked, client, scopes) =>
         PkceBound(s, asked.req) && client.clientId == asked.req.clientId && ScopesWithin(scopes, asked, client, scopes)
       case Saved(_, asked, client, scopes) =>
         PkceBound(s, asked.req) && client.clientId == asked.req.clientId && ScopesWithin(scopes, asked, client, scopes)
       case Redeeming(code, ac, verifier) => code in s.issued && s.issued[code].ac == ac && VerifierOk(cfg, ac, verifier)
  }

  /** The code is exactly what its request asked for, with scopes bounded three ways. */
  ghost predicate IssueOk(s: State, code: string, i: Issue) {
    && Redemption(code) in s.place
    && At(s, i.origin.ticket, Issued(code))
    && i.ac.account == i.origin.asked.account
    && i.ac.session == i.origin.asked.session
    && i.ac.clientId == i.origin.asked.req.clientId == i.origin.client.clientId
    && i.ac.redirectURI == i.origin.asked.req.redirectURI
    && i.ac.challenge == i.origin.asked.req.challenge
    && i.ac.challengeMethod == i.origin.asked.req.challengeMethod
    && i.ac.nonce == i.origin.asked.req.nonce
    && PkceBound(s, i.origin.asked.req)
    && ScopesWithin(i.ac.scopes, i.origin.asked, i.origin.client, i.origin.consented)
  }

  ghost predicate GrantOk(cfg: Config, s: State, i: nat, g: Grant) {
    && g.code in s.issued
    && At(s, Redemption(g.code), Granted(i))
    && g.token == TokenFor(s.issued[g.code].ac)
    && VerifierOk(cfg, s.issued[g.code].ac, g.verifier)
  }

  ghost predicate PendingOk(s: State) {
    forall id | id in s.pending :: At(s, Form(id), Free) && PkceBound(s, s.pending[id].asked.req)
  }

  ghost predicate FlightsOk(cfg: Config, s: State) {
    forall rid | rid in s.flights :: FlightOk(cfg, s, rid, s.flights[rid])
  }

  ghost predicate CodesOk(s: State) {
    forall c | c in s.codes :: c in s.issued && s.issued[c].ac == s.codes[c] && At(s, Redemption(c), Free)
  }

  ghost predicate IssuedOk(s: State) {
    forall c | c in s.issued :: IssueOk(s, c, s.issued[c])
  }

  ghost predicate GrantsOk(cfg: Config, s: State) {
    forall i | 0 <= i < |s.grants| :: GrantOk(cfg, s, i, s.grants[i])
  }

  ghost predicate Inv(cfg: Config, s: State) {
    ClientsOk(s) && PendingOk(s) && FlightsOk(cfg, s) && CodesOk(s) && IssuedOk(s) && GrantsOk(cfg, s)
  }

  // ----- what a step leaves alone -----

  /** History only grows, and only the touched tickets move. */
  ghost predicate Extends(s: State, s': State, touched: set<Ticket>) {
    && (forall id | id in s.confidential :: id in s'.confidential && s'.confidential[id] == s.confidential[id])
    && (forall t | t in s.place :: t in s'.place && (t !in touched ==> s'.place[t] == s.place[t]))
    && (forall c | c in s.issued :: c in s'.issued && s'.issued[c] == s.issued[c])
  }

  lemma FlightFrame(cfg: Config, s: State, s': State, touched: set<Ticket>, rid: nat, f: Flight)
    requires FlightOk(cfg, s, rid, f) && Extends(s, s', touched) && TicketOf(f) !in touched
    ensures FlightOk(cfg, s', rid, f)
  {
    hide ScopesWithin, VerifierOk;
  }

  lemma IssueFrame(s: State, s': State, touched: set<Ticket>, c: string, i: Issue)
    requires IssueOk(s, c, i) && Extends(s, s', touched) && i.origin.ticket !in touched
    ensures IssueOk(s', c, i)
  {
    hide ScopesWithin;
  }

  lemma GrantFrame(cfg: Config, s: State, s': State, touched: set<Ticket>, i: nat, g: Grant)
    requires GrantOk(cfg, s, i, g) && Extends(s, s', touched) && Redemption(g.code) !in touched
    ensures GrantOk(cfg, s', i, g)
  {
    hide VerifierOk, TokenFor;
  }

  /** A request may touch tickets that are new, free or its own; nothing else notices. */
  lemma OthersUnmoved(cfg: Config, s: State, s': State, rid: nat, touched: set<Ticket>)
    requires FlightsOk(cfg, s) && IssuedOk(s) && GrantsOk(cfg, s)
    requires Extends(s, s', touched)
    requires forall t | t in touched && t in s.place :: s.place[t] == Free || s.place[t] == Held(rid)
    ensures OthersOk(cfg, s, s', rid)
  {
    forall r | r in s.flights && r != rid ensures FlightOk(cfg, s', r, s.flights[r]) {
      assert At(s, TicketOf(s.flights[r]), Held(r));
      FlightFrame(cfg, s, s', touched, r, s.flights[r]);
    }
    forall c | c in s.issued ensures IssueOk(s', c, s.issued[c]) {
      assert At(s, s.issued[c].origin.ticket, Issued(c));
      IssueFrame(s, s', touched, c, s.issued[c]);
    }
    forall i | 0 <= i < |s.grants| ensures GrantOk(cfg, s', i, s.grants[i]) {
      assert At(s, Redemption(s.grants[i].code), Granted(i));
      GrantFrame(cfg, s, s', touched, i, s.grants[i]);
    }
  }

  ghost predicate OthersOk(cfg: Config, s: State, s': State, rid: nat) {
    && (forall r | r in s.flights && r != rid :: FlightOk(cfg, s', r, s.flights[r]))
    && (forall c | c in s.issued :: IssueOk(s', c, s.issued[c]))
    && (forall i | 0 <= i < |s.grants| :: GrantOk(cfg, s', i, s.grants[i]))
  }

  /** A step that only moves one request: its new flight is sound, or the flight is over. */
  lemma FlightStepKeeps(cfg: Config, s: State, s': State, rid: nat, touched: set<Ticket>)
    requires Inv(cfg, s) && Extends(s, s', touched)
    requires forall t | t in touched && t in s.place :: s.place[t] == Free || s.place[t] == Held(rid)
    requires s'.clients == s.clients && s'.confidential == s.confidential
    requires s'.issued == s.issued && s'.grants == s.grants
    requires forall r | r != rid :: r in s'.flights <==> r in s.flights
    requires forall r | r in s'.flights && r != rid :: s'.flights[r] == s.flights[r]
    requires rid in s'.flights ==> FlightOk(cfg, s', rid, s'.flights[rid])
    requires PendingOk(s') && CodesOk(s')
    ensures Inv(cfg, s')
  {
    hide FlightOk, IssueOk, GrantOk, Extends, PendingOk, CodesOk;
    OthersUnmoved(cfg, s, s', rid, touched);
  }

  // ----- every step keeps the invariant -----

  /** One ticket moves; consent states and codes may be consumed, nothing is issued. */
  ghost predicate OnlyMoves(s: State, s': State, rid: nat, t: Ticket, p: Place) {
    && s'.clients == s.clients && s'.confidential == s.confidential && s'.issued == s.issued && s'.grants == s.grants
    && (forall id | id in s'.pending :: id in s.pending && s'.pending[id] == s.pending[id])
    && (forall c | c in s'.codes :: c in s.codes && s'.codes[c] == s.codes[c])
    && s'.place == s.place[t := p]
    && (forall r | r != rid :: r in s'.flights <==> r in s.flights)
    && (forall r | r in s'.flights && r != rid :: s'.flights[r] == s.flights[r])
  }

  /** The request holds the ticket, or takes it while nobody does. */
  ghost predicate MayMove(s: State, s': State, rid: nat, t: Ticket) {
    || At(s, t, Held(rid))
    || (At(s, t, Free) && (forall id | id in s'.pending :: t != Form(id)) && (forall c | c in s'.codes :: t != Redemption(c)))
  }

  lemma MoveExtends(s: State, s': State, rid: nat, t: Ticket, p: Place)
    requires OnlyMoves(s, s', rid, t, p)
    ensures Extends(s, s', {t})
  {
  }

  lemma MoveKeepsPending(s: State, s': State, rid: nat, t: Ticket, p: Place)
    requires PendingOk(s) && MayMove(s, s', rid, t) && OnlyMoves(s, s', rid, t, p)
    ensures PendingOk(s')
  {
  }

  lemma MoveKeepsCodes(s: State, s': State, rid: nat, t: Ticket, p: Place)
    requires CodesOk(s) && MayMove(s, s', rid, t) && OnlyMoves(s, s', rid, t, p)
    ensures CodesOk(s')
  {
  }

  lemma MoveKeeps(cfg: Config, s: State, s': State, rid: nat, t: Ticket, p: Place)
    requires Inv(cfg, s) && MayMove(s, s', rid, t) && OnlyMoves(s, s', rid, t, p)
    requires rid in s'.flights ==> FlightOk(cfg, s', rid, s'.flights[rid])
    ensures Inv(cfg, s')
  {
    hide FlightOk, FlightsOk, IssuedOk, GrantsOk;
    MoveExtends(s, s', rid, t, p);
    MoveKeepsPending(s, s', rid, t, p);
    MoveKeepsCodes(s, s', rid, t, p);
    hide PendingOk, CodesOk, Extends;
    FlightStepKeeps(cfg, s, s', rid, {t});
  }

  lemma HeldByFlight(cfg: Config, s: State, rid: nat)
    requires Inv(cfg, s) && rid in s.flights
    ensures FlightOk(cfg, s, rid, s.flights[rid])
    ensures At(s, TicketOf(s.flights[rid]), Held(rid))
  {
    hide PendingOk, CodesOk, IssuedOk, GrantsOk;
  }

  lemma EndFlightKeeps(cfg: Config, s: State, rid: nat, t: Ticket, p: Place, shown: set<string>)
    requires Inv(cfg, s) && At(s, t, Held(rid))
    ensures Inv(cfg, EndFlight(s, rid, t, p).(rendered := shown))
  {
    hide Inv;
    MoveKeeps(cfg, s, EndFlight(s, rid, t, p).(rendered := shown), rid, t, p);
  }

  lemma AdvanceKeeps(cfg: Config, s: State, rid: nat, f: Flight, consents: map<(string, string), seq<string>>)
    requires Inv(cfg, s) && rid in s.flights && FlightOk(cfg, s, rid, f)
    ensures Inv(cfg, s.(consents := consents, flights := s.flights[rid := f]))
  {
    hide Inv;
    var s' := s.(consents := consents, flights := s.flights[rid := f]);
    assert s'.place == s.place[TicketOf(f) := Held(rid)];
    MoveKeeps(cfg, s, s', rid, TicketOf(f), Held(rid));
  }

  lemma OpenKeepsStored(s: State, s': State, id: string, pend: Pending, p: Place)
    requires PendingOk(s) && CodesOk(s) && FreshConsentId(s, id) && PkceBound(s, pend.asked.req)
    requires s'.pending == s.pending[id := pend] && s'.codes == s.codes && s'.issued == s.issued
    requires s'.confidential == s.confidential && s'.place == s.place[Form(id) := Free][Direct(id) := p]
    ensures PendingOk(s') && CodesOk(s')
  {
  }

  /** A new consent id: its form is free, its direct path is held. */
  lemma OpenKeeps(cfg: Config, s: State, rid: nat, id: string, pend: Pending, client: Client)
    requires Inv(cfg, s) && rid !in s.flights && FreshConsentId(s, id)
    requires PkceBound(s, pend.asked.req) && client.clientId == pend.asked.req.clientId
    ensures Inv(cfg, s.(pending := s.pending[id := pend], place := s.place[Form(id) := Free][Direct(id) := Held(rid)],
                        flights := s.flights[rid := Authorizing(id, pend.asked, client)]))
  {
    hide IssuedOk, GrantsOk, FlightsOk;
    var s' := s.(pending := s.pending[id := pend], place := s.place[Form(id) := Free][Direct(id) := Held(rid)],
                 flights := s.flights[rid := Authorizing(id, pend.asked, client)]);
    OpenKeepsStored(s, s', id, pend, Held(rid));
    hide PendingOk, CodesOk;
    assert Extends(s, s', {Form(id), Direct(id)});
    assert FlightOk(cfg, s', rid, s'.flights[rid]);
    hide Extends, FlightOk;
    FlightStepKeeps(cfg, s, s', rid, {Form(id), Direct(id)});
  }

  lemma BeginAuthorizeKeeps(cfg: Config, s: State, rid: nat, account: string, session: string,
                            query: AuthRequest, rt: string, rm: string, id: string)
    requires Inv(cfg, s)
    ensures Inv(cfg, BeginAuthorize(cfg, s, rid, account, session, query, rt, rm, id))
  {
    hide PlusToSpace, PendingOk, CodesOk, IssuedOk, GrantsOk, FlightsOk;
    var q := query.(scope := PlusToSpace(query.scope));
    if rid !in s.flights && FreshConsentId(s, id) && AuthorizeRefusal(cfg, s, account, q, rt, rm) == "" {
      var asked := ConsentState(account, session, q);
      assert PkceBound(s, q);
      hide AuthorizeRefusal, PkceBound, Inv;
      OpenKeeps(cfg, s, rid, id, Pending(asked, s.now + STATE_TTL_MS), s.clients[q.clientId]);
    }
  }

  lemma AllowedWithin(asked: ConsentState, client: Client, consented: seq<string>)
    ensures ScopesWithin(AllowedScopes(asked, client, consented), asked, client, consented)
  {
    hide Tokens, Client.MayHave;
  }

  lemma ReadConsentKeeps(cfg: Config, s: State, rid: nat, readOk: bool)
    requires Inv(cfg, s)
    ensures Inv(cfg, ReadConsent(s, rid, readOk))
  {
    if rid in s.flights && s.flights[rid].Authorizing? {
      hide Inv, AllowedScopes, ScopesWithin;
      HeldByFlight(cfg, s, rid);
      var f := s.flights[rid];
      var key := (f.asked.account, f.asked.req.clientId);
      EndFlightKeeps(cfg, s, rid, Direct(f.consentId), Dropped, s.rendered + {f.consentId});
      if key in s.consents {
        AllowedWithin(f.asked, f.client, s.consents[key]);
        AdvanceKeeps(cfg, s, rid, Allowed(f.consentId, f.asked, f.client, s.consents[key],
                                          AllowedScopes(f.asked, f.client, s.consents[key])), s.consents);
      }
    }
  }

  lemma SubmittedWithin(asked: ConsentState, client: Client)
    ensures var scopes := client.ValidScopes(Tokens(asked.req.scope));
            ScopesWithin(scopes, asked, client, scopes)
  {
    hide Tokens, Client.MayHave;
  }

  lemma SubmitClientFound(cfg: Config, s: State, asked: ConsentState)
    requires Inv(cfg, s) && SubmitRefusal(cfg, s, asked) == ""
    ensures asked.req.clientId in s.clients && s.clients[asked.req.clientId].clientId == asked.req.clientId
  {
    hide Tokens, Client.ValidScopes, FlightsOk, IssuedOk, GrantsOk, PendingOk, CodesOk;
  }

  lemma ValidateSubmitKeeps(cfg: Config, s: State, rid: nat)
    requires Inv(cfg, s)
    ensures Inv(cfg, ValidateSubmit(cfg, s, rid))
  {
    hide Inv, Tokens, Client.ValidScopes, ScopesWithin, SubmitRefusal;
    if rid in s.flights && s.flights[rid].Submitting? {
      var f := s.flights[rid];
      HeldByFlight(cfg, s, rid);
      if SubmitRefusal(cfg, s, f.asked) == "" {
        SubmitClientFound(cfg, s, f.asked);
        var client := s.clients[f.asked.req.clientId];
        SubmittedWithin(f.asked, client);
        AdvanceKeeps(cfg, s, rid, Validated(f.consentId, f.asked, client, client.ValidScopes(Tokens(f.asked.req.scope))), s.consents);
      } else {
        EndFlightKeeps(cfg, s, rid, Form(f.consentId), Dropped, s.rendered);
      }
    }
  }

  lemma SaveConsentKeeps(cfg: Config, s: State, rid: nat, c: Commit)
    requires Inv(cfg, s)
    ensures Inv(cfg, SaveConsent(s, rid, c))
  {
    hide Inv, ScopesWithin, ConsentAccepts;
    if rid in s.flights && s.flights[rid].Validated? {
      HeldByFlight(cfg, s, rid);
      var f := s.flights[rid];
      EndFlightKeeps(cfg, s, rid, Form(f.consentId), Dropped, s.rendered);
      var r := Recorded(s, f.asked, f.scopes);
      SurroundingValuesKeep(cfg, s, s.now, s.active, r.consents);
      EndFlightKeeps(cfg, r, rid, Form(f.consentId), Dropped, r.rendered);
      AdvanceKeeps(cfg, s, rid, Saved(f.consentId, f.asked, f.client, f.scopes),
                   s.consents[(f.asked.account, f.asked.req.clientId) := f.scopes]);
    }
  }

  lemma PendingFree(cfg: Config, s: State, id: string)
    requires Inv(cfg, s) && id in s.pending
    ensures At(s, Form(id), Free) && PkceBound(s, s.pending[id].asked.req)
  {
    hide CodesOk, IssuedOk, GrantsOk, FlightsOk;
  }

  /** The consent state is consumed, for nothing or for the request. */
  lemma WastePendingKeeps(cfg: Config, s: State, rid: nat, id: string)
    requires Inv(cfg, s) && rid !in s.flights && id in s.pending
    ensures Inv(cfg, s.(pending := s.pending - {id}, place := s.place[Form(id) := Dropped]))
  {
    hide Inv;
    PendingFree(cfg, s, id);
    MoveKeeps(cfg, s, s.(pending := s.pending - {id}, place := s.place[Form(id) := Dropped]), rid, Form(id), Dropped);
  }

  lemma TakePendingKeeps(cfg: Config, s: State, rid: nat, id: string)
    requires Inv(cfg, s) && rid !in s.flights && id in s.pending
    ensures Inv(cfg, s.(pending := s.pending - {id}, place := s.place[Form(id) := Held(rid)],
                        flights := s.flights[rid := Submitting(id, s.pending[id].asked)]))
  {
    hide Inv;
    PendingFree(cfg, s, id);
    MoveKeeps(cfg, s, s.(pending := s.pending - {id}, place := s.place[Form(id) := Held(rid)],
                         flights := s.flights[rid := Submitting(id, s.pending[id].asked)]), rid, Form(id), Held(rid));
  }

  lemma BeginSubmitKeeps(cfg: Config, s: State, rid: nat, account: string, session: string,
                         form: AuthRequest, approved: bool, id: string)
    requires Inv(cfg, s)
    ensures Inv(cfg, BeginSubmit(s, rid, account, session, form, approved, id))
  {
    hide Inv;
    if rid !in s.flights && id in s.pending {
      WastePendingKeeps(cfg, s, rid, id);
      TakePendingKeeps(cfg, s, rid, id);
    }
  }

  lemma CodeFree(cfg: Config, s: State, code: string)
    requires Inv(cfg, s) && code in s.codes
    ensures At(s, Redemption(code), Free) && code in s.issued && s.issued[code].ac == s.codes[code]
  {
    hide PendingOk, IssuedOk, GrantsOk, FlightsOk;
  }

  /** The code is consumed, for nothing or for the request. */
  lemma WasteCodeKeeps(cfg: Config, s: State, rid: nat, code: string)
    requires Inv(cfg, s) && rid !in s.flights && code in s.codes
    ensures Inv(cfg, s.(codes := s.codes - {code}, place := s.place[Redemption(code) := Dropped]))
  {
    hide Inv;
    CodeFree(cfg, s, code);
    MoveKeeps(cfg, s, s.(codes := s.codes - {code}, place := s.place[Redemption(code) := Dropped]), rid, Redemption(code), Dropped);
  }

  lemma TakeCodeKeeps(cfg: Config, s: State, rid: nat, code: string, verifier: Option<string>)
    requires Inv(cfg, s) && rid !in s.flights && code in s.codes
    requires VerifierOk(cfg, s.codes[code], verifier)
    ensures Inv(cfg, s.(codes := s.codes - {code}, place := s.place[Redemption(code) := Held(rid)],
                        flights := s.flights[rid := Redeeming(code, s.codes[code], verifier)]))
  {
    hide Inv, VerifierOk;
    CodeFree(cfg, s, code);
    MoveKeeps(cfg, s, s.(codes := s.codes - {code}, place := s.place[Redemption(code) := Held(rid)],
                         flights := s.flights[rid := Redeeming(code, s.codes[code], verifier)]), rid, Redemption(code), Held(rid));
  }

  lemma BeginTokenKeeps(cfg: Config, s: State, rid: nat, clientId: string, secretOk: bool,
                        code: string, redirectURI: string, codeVerifier: string)
    requires Inv(cfg, s)
    ensures Inv(cfg, BeginToken(cfg, s, rid, clientId, secretOk, code, redirectURI, codeVerifier))
  {
    hide Inv, TokenRefusal, PkceMatches;
    if rid !in s.flights && code in s.codes {
      WasteCodeKeeps(cfg, s, rid, code);
      if VerifierOk(cfg, s.codes[code], VerifierParam(codeVerifier)) {
        TakeCodeKeeps(cfg, s, rid, code, VerifierParam(codeVerifier));
      }
    }
  }

  /** Nothing but the grants depends on the grants. */
  lemma AddGrantKeepsRest(cfg: Config, s: State, g: Grant)
    requires FlightsOk(cfg, s) && IssuedOk(s)
    ensures FlightsOk(cfg, s.(grants := s.grants + [g])) && IssuedOk(s.(grants := s.grants + [g]))
  {
    hide ScopesWithin, VerifierOk;
    var s' := s.(grants := s.grants + [g]);
    assert FlightsOk(cfg, s') by { hide IssuedOk; }
    assert IssuedOk(s') by { hide FlightsOk; }
  }

  lemma AddGrantKeepsGrants(cfg: Config, s: State, g: Grant)
    requires GrantsOk(cfg, s) && GrantOk(cfg, s, |s.grants|, g)
    ensures GrantsOk(cfg, s.(grants := s.grants + [g]))
  {
    hide VerifierOk, TokenFor;
  }

  lemma AddGrantKeeps(cfg: Config, s: State, g: Grant)
    requires Inv(cfg, s) && GrantOk(cfg, s, |s.grants|, g)
    ensures Inv(cfg, s.(grants := s.grants + [g]))
  {
    hide FlightsOk, IssuedOk, GrantsOk, GrantOk;
    AddGrantKeepsRest(cfg, s, g);
    AddGrantKeepsGrants(cfg, s, g);
  }

  lemma GrantKeeps(cfg: Config, s: State, rid: nat)
    requires Inv(cfg, s) && rid in s.flights && s.flights[rid].Redeeming?
    ensures var f := s.flights[rid];
            Inv(cfg, EndFlight(s, rid, Redemption(f.code), Granted(|s.grants|)).(
                       grants := s.grants + [Grant(f.code, f.verifier, TokenFor(f.ac))]))
  {
    hide Inv, TokenFor, VerifierOk;
    HeldByFlight(cfg, s, rid);
    var f := s.flights[rid];
    var moved := EndFlight(s, rid, Redemption(f.code), Granted(|s.grants|));
    EndFlightKeeps(cfg, s, rid, Redemption(f.code), Granted(|s.grants|), s.rendered);
    AddGrantKeeps(cfg, moved, Grant(f.code, f.verifier, TokenFor(f.ac)));
  }

  lemma FinishTokenKeeps(cfg: Config, s: State, rid: nat, minted: bool)
    requires Inv(cfg, s)
    ensures Inv(cfg, FinishToken(s, rid, minted))
  {
    hide Inv;
    if rid in s.flights && s.flights[rid].Redeeming? {
      var f := s.flights[rid];
      HeldByFlight(cfg, s, rid);
      GrantKeeps(cfg, s, rid);
      EndFlightKeeps(cfg, s, rid, Redemption(f.code), Dropped, s.rendered);
    }
  }

  lemma IssueKeepsPending(cfg: Config, s: State, rid: nat, origin: Origin, scopes: seq<string>, code: string)
    requires PendingOk(s) && At(s, origin.ticket, Held(rid))
    ensures PendingOk(IssueCode(cfg, s, rid, origin, scopes, code))
  {
  }

  lemma IssueKeepsCodes(cfg: Config, s: State, rid: nat, origin: Origin, scopes: seq<string>, code: string)
    requires CodesOk(s) && IssuedOk(s)
    requires At(s, origin.ticket, Held(rid)) && Redemption(code) !in s.place && !origin.ticket.Redemption?
    ensures CodesOk(IssueCode(cfg, s, rid, origin, scopes, code))
  {
    hide IssueOk, CodeFor;
  }

  lemma IssueExtends(cfg: Config, s: State, rid: nat, origin: Origin, scopes: seq<string>, code: string)
    requires IssuedOk(s) && At(s, origin.ticket, Held(rid)) && Redemption(code) !in s.place
    ensures Extends(s, IssueCode(cfg, s, rid, origin, scopes, code), {origin.ticket, Redemption(code)})
  {
    hide CodeFor;
    assert forall c | c in s.issued :: Redemption(c) in s.place;
    hide IssuedOk;
  }

  lemma NewIssueOk(cfg: Config, s: State, rid: nat, origin: Origin, scopes: seq<string>, code: string)
    requires At(s, origin.ticket, Held(rid)) && !origin.ticket.Redemption? && Redemption(code) !in s.place
    requires PkceBound(s, origin.asked.req) && origin.client.clientId == origin.asked.req.clientId
    requires ScopesWithin(scopes, origin.asked, origin.client, origin.consented)
    ensures IssueOk(IssueCode(cfg, s, rid, origin, scopes, code), code, Issue(CodeFor(cfg, s.now, origin.asked, scopes), origin))
  {
    hide ScopesWithin;
  }

  /** A code is born with its record, from a ticket that is spent by it. */
  lemma IssueKeeps(cfg: Config, s: State, rid: nat, origin: Origin, scopes: seq<string>, code: string)
    requires Inv(cfg, s) && rid in s.flights && At(s, origin.ticket, Held(rid)) && !origin.ticket.Redemption?
    requires Redemption(code) !in s.place
    requires PkceBound(s, origin.asked.req) && origin.client.clientId == origin.asked.req.clientId
    requires ScopesWithin(scopes, origin.asked, origin.client, origin.consented)
    ensures Inv(cfg, IssueCode(cfg, s, rid, origin, scopes, code))
  {
    hide FlightOk, GrantOk, IssueOk, ScopesWithin, CodeFor, PendingOk, CodesOk, FlightsOk, IssuedOk, GrantsOk, PkceBound;
    var s' := IssueCode(cfg, s, rid, origin, scopes, code);
    IssueKeepsPending(cfg, s, rid, origin, scopes, code);
    IssueKeepsCodes(cfg, s, rid, origin, scopes, code);
    IssueKeepsHistory(cfg, s, rid, origin, scopes, code);
  }

  lemma IssueKeepsHistory(cfg: Config, s: State, rid: nat, origin: Origin, scopes: seq<string>, code: string)
    requires FlightsOk(cfg, s) && IssuedOk(s) && GrantsOk(cfg, s)
    requires At(s, origin.ticket, Held(rid)) && !origin.ticket.Redemption? && Redemption(code) !in s.place
    requires PkceBound(s, origin.asked.req) && origin.client.clientId == origin.asked.req.clientId
    requires ScopesWithin(scopes, origin.asked, origin.client, origin.consented)
    ensures var s' := IssueCode(cfg, s, rid, origin, scopes, code);
            FlightsOk(cfg, s') && IssuedOk(s') && GrantsOk(cfg, s')
  {
    hide FlightOk, GrantOk, IssueOk, ScopesWithin, CodeFor, PkceBound;
    var s' := IssueCode(cfg, s, rid, origin, scopes, code);
    IssueExtends(cfg, s, rid, origin, scopes, code);
    NewIssueOk(cfg, s, rid, origin, scopes, code);
    assert OthersOk(cfg, s, s', rid) by {
      hide FlightsOk, IssuedOk, GrantsOk, Extends;
      OthersUnmoved(cfg, s, s', rid, {origin.ticket, Redemption(code)});
    }
    hide Extends;
  }

  lemma GenerateCodeKeeps(cfg: Config, s: State, rid: nat, code: string)
    requires Inv(cfg, s)
    ensures Inv(cfg, GenerateCode(cfg, s, rid, code))
  {
    hide Inv, ScopesWithin, PkceBound, IssueCode;
    if rid in s.flights && Redemption(code) !in s.place {
      HeldByFlight(cfg, s, rid);
      match s.flights[rid]
      case Allowed(id, asked, client, consented, scopes) =>
        EndFlightKeeps(cfg, s, rid, Direct(id), Dropped, s.rendered);
        IssueKeeps(cfg, s, rid, Origin(Direct(id), asked, client, consented), scopes, code);
      case Saved(id, asked, client, scopes) =>
        EndFlightKeeps(cfg, s, rid, Form(id), Dropped, s.rendered);
        IssueKeeps(cfg, s, rid, Origin(Form(id), asked, client, scopes), scopes, code);
      case _ =>
    }
  }

  lemma SurroundingsKeep(cfg: Config, s: State, s': State)
    requires Inv(cfg, s) && ClientsOk(s')
    requires forall id | id in s.confidential :: id in s'.confidential && s'.confidential[id] == s.confidential[id]
    requires s'.place == s.place && s'.flights == s.flights && s'.issued == s.issued && s'.grants == s.grants
    requires s'.pending == s.pending && s'.codes == s.codes
    ensures Inv(cfg, s')
  {
    assert Extends(s, s', {});
    assert PendingOk(s') && CodesOk(s') by { hide FlightsOk, IssuedOk, GrantsOk; }
    hide PendingOk, CodesOk, Extends;
    forall rid | rid in s.flights ensures FlightOk(cfg, s', rid, s'.flights[rid]) {
      FlightFrame(cfg, s, s', {}, rid, s.flights[rid]);
    }
    forall c | c in s.issued ensures IssueOk(s', c, s'.issued[c]) {
      IssueFrame(s, s', {}, c, s.issued[c]);
    }
    forall i | 0 <= i < |s.grants| ensures GrantOk(cfg, s', i, s'.grants[i]) {
      GrantFrame(cfg, s, s', {}, i, s.grants[i]);
    }
    hide FlightOk, IssueOk, GrantOk;
  }

  lemma PutClientKeepsClients(s: State, client: Client)
    requires ClientsOk(s)
    ensures ClientsOk(PutClient(s, client))
  {
  }

  /** An update cannot turn a public client confidential or back. */
  lemma PutClientRemembers(s: State, client: Client, id: string)
    requires id in s.confidential
    ensures id in PutClient(s, client).confidential && PutClient(s, client).confidential[id] == s.confidential[id]
  {
    var key := client.clientId;
    if key in s.confidential && s.confidential[key] != client.confidential {
      assert PutClient(s, client) == s;
    } else {
      assert PutClient(s, client).confidential == s.confidential[key := client.confidential];
      hide PutClient;
    }
  }

  lemma PutClientFrames(s: State, client: Client)
    ensures var s' := PutClient(s, client);
            && s'.place == s.place && s'.flights == s.flights && s'.issued == s.issued && s'.grants == s.grants
            && s'.pending == s.pending && s'.codes == s.codes
  {
  }

  lemma PutClientKeeps(cfg: Config, s: State, client: Client)
    requires Inv(cfg, s)
    ensures Inv(cfg, PutClient(s, client))
  {
    hide ClientsOk, PendingOk, CodesOk, FlightsOk, IssuedOk, GrantsOk, PutClient;
    PutClientKeepsClients(s, client);
    forall id | id in s.confidential
      ensures id in PutClient(s, client).confidential && PutClient(s, client).confidential[id] == s.confidential[id]
    {
      PutClientRemembers(s, client, id);
    }
    PutClientFrames(s, client);
    hide Inv;
    SurroundingsKeep(cfg, s, PutClient(s, client));
  }

  lemma DropClientKeeps(cfg: Config, s: State, clientId: string)
    requires Inv(cfg, s)
    ensures Inv(cfg, s.(clients := s.clients - {clientId}))
  {
    var s' := s.(clients := s.clients - {clientId});
    assert ClientsOk(s') by { hide PendingOk, CodesOk, FlightsOk, IssuedOk, GrantsOk; }
    hide Inv, ClientsOk;
    SurroundingsKeep(cfg, s, s');
  }

  lemma SurroundingValuesKeep(cfg: Config, s: State, now: int, active: set<string>, consents: map<(string, string), seq<string>>)
    requires Inv(cfg, s)
    ensures Inv(cfg, s.(now := now, active := active, consents := consents))
  {
    var s' := s.(now := now, active := active, consents := consents);
    assert ClientsOk(s') by { hide PendingOk, CodesOk, FlightsOk, IssuedOk, GrantsOk; }
    hide Inv, ClientsOk;
    SurroundingsKeep(cfg, s, s');
  }

  lemma StepKeeps(cfg: Config, s: State, a: Action)
    requires Inv(cfg, s)
    ensures Inv(cfg, Step(cfg, s, a))
  {
    hide Inv, BeginAuthorize, ReadConsent, GenerateCode, BeginSubmit, ValidateSubmit, SaveConsent, BeginToken, FinishToken, PutClient;
    match a
    case ABeginAuthorize(rid, account, session, query, rt, rm, id) => BeginAuthorizeKeeps(cfg, s, rid, account, session, query, rt, rm, id);
    case AReadConsent(rid, readOk) => ReadConsentKeeps(cfg, s, rid, readOk);
    case AGenerateCode(rid, code) => GenerateCodeKeeps(cfg, s, rid, code);
    case ABeginSubmit(rid, account, session, form, approved, id) => BeginSubmitKeeps(cfg, s, rid, account, session, form, approved, id);
    case AValidateSubmit(rid) => ValidateSubmitKeeps(cfg, s, rid);
    case ASaveConsent(rid, c) => SaveConsentKeeps(cfg, s, rid, c);
    case ABeginToken(rid, id, secretOk, code, uri, v) => BeginTokenKeeps(cfg, s, rid, id, secretOk, code, uri, v);
    case AFinishToken(rid, minted) => FinishTokenKeeps(cfg, s, rid, minted);
    case APutClient(client) => PutClientKeeps(cfg, s, client);
    case ADropClient(id) => DropClientKeeps(cfg, s, id);
    case ATick(ms) => SurroundingValuesKeep(cfg, s, s.now + ms, s.active, s.consents);
    case ASetActive(account, isActive) =>
      SurroundingValuesKeep(cfg, s, s.now, if isActive then s.active + {account} else s.active - {account}, s.consents);
    case ARevokeConsent(account, id) => SurroundingValuesKeep(cfg, s, s.now, s.active, s.consents - {(account, id)});
  }

  lemma {:induction false} RunKeeps(cfg: Config, s: State, acts: seq<Action>)
    requires Inv(cfg, s)
    ensures Inv(cfg, Run(cfg, s, acts))
  {
    hide Inv, Step;
    if acts != [] {
      RunKeeps(cfg, s, acts[..|acts| - 1]);
      StepKeeps(cfg, Run(cfg, s, acts[..|acts| - 1]), acts[|acts| - 1]);
    }
  }

  // ----- what every run guarantees -----

  function Reached(cfg: Config, db: Database, acts: seq<Action>): State {
    Run(cfg, Init(db), acts)
  }

  lemma ReachedInv(cfg: Config, db: Database, acts: seq<Action>)
    requires db.Keyed()
    ensures Inv(cfg, Reached(cfg, db, acts))
  {
    RunKeeps(cfg, Init(db), acts);
  }

  /** However requests interleave, a code yields at most one token. */
  lemma CodeRedeemedOnce(cfg: Config, db: Database, acts: seq<Action>, i: nat, j: nat)
    requires db.Keyed()
    requires i < |Reached(cfg, db, acts).grants| && j < |Reached(cfg, db, acts).grants|
    requires Reached(cfg, db, acts).grants[i].code == Reached(cfg, db, acts).grants[j].code
    ensures i == j
  {
    hide Run, VerifierOk, TokenFor, PendingOk, CodesOk, FlightsOk, IssuedOk;
    ReachedInv(cfg, db, acts);
    var s := Reached(cfg, db, acts);
    assert GrantOk(cfg, s, i, s.grants[i]) && GrantOk(cfg, s, j, s.grants[j]);
  }

  /** A token is its code's: account, client, session and scopes, all as the request asked. */
  lemma TokenBoundToRequest(cfg: Config, db: Database, acts: seq<Action>, i: nat)
    requires db.Keyed()
    requires i < |Reached(cfg, db, acts).grants|
    ensures var s := Reached(cfg, db, acts);
            var g := s.grants[i];
            && g.code in s.issued
            && var o := s.issued[g.code].origin;
               && g.token.account == s.issued[g.code].ac.account == o.asked.account
               && g.token.clientId == s.issued[g.code].ac.clientId == o.asked.req.clientId
               && g.token.session == s.issued[g.code].ac.session == o.asked.session
               && g.token.scope == Text.Join(s.issued[g.code].ac.scopes, ' ')
               && forall x | x in s.issued[g.code].ac.scopes ::
                    x in Tokens(o.asked.req.scope) && o.client.MayHave(x) && x in o.consented
  {
    hide Run, VerifierOk, PkceBound, PendingOk, CodesOk, FlightsOk, Tokens, Client.MayHave, Text.Join;
    ReachedInv(cfg, db, acts);
    var s := Reached(cfg, db, acts);
    assert GrantOk(cfg, s, i, s.grants[i]);
    assert IssueOk(s, s.grants[i].code, s.issued[s.grants[i].code]);
  }

  /** A form, or an Authorize that skipped the form, ends in at most one code. */
  lemma TicketIssuesOnce(cfg: Config, db: Database, acts: seq<Action>, c: string, d: string)
    requires db.Keyed()
    requires c in Reached(cfg, db, acts).issued && d in Reached(cfg, db, acts).issued
    requires Reached(cfg, db, acts).issued[c].origin.ticket == Reached(cfg, db, acts).issued[d].origin.ticket
    ensures c == d
  {
    hide Run, ScopesWithin, PkceBound, PendingOk, CodesOk, FlightsOk, GrantsOk;
    ReachedInv(cfg, db, acts);
    var s := Reached(cfg, db, acts);
    assert IssueOk(s, c, s.issued[c]) && IssueOk(s, d, s.issued[d]);
  }

  /** Section 4.6 of RFC 7636 for public clients: issue and redemption. */
  lemma PublicCodeNeedsVerifier(cfg: Config, db: Database, acts: seq<Action>, c: string)
    requires db.Keyed()
    requires var s := Reached(cfg, db, acts);
             && c in s.issued && s.issued[c].ac.clientId in s.confidential
             && !s.confidential[s.issued[c].ac.clientId]
    ensures var s := Reached(cfg, db, acts);
            s.issued[c].ac.challenge != "" && s.issued[c].ac.challengeMethod == "S256"
    ensures var s := Reached(cfg, db, acts);
            forall i | 0 <= i < |s.grants| && s.grants[i].code == c ::
              && s.grants[i].verifier.Some?
              && ValidVerifier(s.grants[i].verifier.value)
              && cfg.challengeOf(s.grants[i].verifier.value) == s.issued[c].ac.challenge
  {
    hide Run, ScopesWithin, TokenFor, ValidVerifier, PendingOk, CodesOk, FlightsOk;
    ReachedInv(cfg, db, acts);
    var s := Reached(cfg, db, acts);
    assert IssueOk(s, c, s.issued[c]);
    forall i | 0 <= i < |s.grants| && s.grants[i].code == c
      ensures s.grants[i].verifier.Some? && ValidVerifier(s.grants[i].verifier.value)
      ensures cfg.challengeOf(s.grants[i].verifier.value) == s.issued[c].ac.challenge
    {
      assert GrantOk(cfg, s, i, s.grants[i]);
    }
  }

  // ----- one code per consent id -----

  /** Forms come only from consent pages: an id is submitted only after it was shown. */
  predicate SubmitsShown(cfg: Config, db: Database, acts: seq<Action>) {
    forall n | 0 <= n < |acts| && acts[n].ABeginSubmit? :: acts[n].consentId in Reached(cfg, db, acts[..n]).rendered
  }

  /** A shown id has given up its direct path; a form that moved was shown. */
  ghost predicate Separate(s: State) {
    && (forall id | id in s.rendered :: At(s, Direct(id), Dropped))
    && (forall id | Form(id) in s.place && s.place[Form(id)] != Free :: id in s.rendered)
  }

  ghost predicate StaysSeparate(s: State, s': State) {
    && (forall id | At(s, Direct(id), Dropped) :: At(s', Direct(id), Dropped))
    && (forall id | id in s.rendered :: id in s'.rendered)
    && (forall id | id in s'.rendered && id !in s.rendered :: At(s', Direct(id), Dropped))
    && (forall id | Form(id) in s'.place && s'.place[Form(id)] != Free ::
          id in s.rendered || (Form(id) in s.place && s.place[Form(id)] != Free))
  }

  lemma StaysSeparateSound(s: State, s': State)
    requires Separate(s) && StaysSeparate(s, s')
    ensures Separate(s')
  {
  }

  lemma EndFlightSeparate(s: State, rid: nat, t: Ticket, p: Place)
    requires At(s, t, Held(rid))
    ensures StaysSeparate(s, EndFlight(s, rid, t, p))
  {
  }

  lemma BeginAuthorizeSeparate(cfg: Config, s: State, rid: nat, account: string, session: string,
                               query: AuthRequest, rt: string, rm: string, id: string)
    ensures StaysSeparate(s, BeginAuthorize(cfg, s, rid, account, session, query, rt, rm, id))
  {
    hide AuthorizeRefusal, PlusToSpace;
  }

  lemma ShownSeparate(s: State, rid: nat, id: string)
    requires At(s, Direct(id), Held(rid))
    ensures StaysSeparate(s, EndFlight(s, rid, Direct(id), Dropped).(rendered := s.rendered + {id}))
  {
  }

  lemma SameSeparate(s: State, s': State)
    requires s'.place == s.place && s'.rendered == s.rendered
    ensures StaysSeparate(s, s')
  {
  }

  lemma ReadConsentSeparate(cfg: Config, s: State, rid: nat, readOk: bool)
    requires Inv(cfg, s)
    ensures StaysSeparate(s, ReadConsent(s, rid, readOk))
  {
    hide Inv, AllowedScopes, PkceBound, EndFlight, StaysSeparate;
    if rid in s.flights && s.flights[rid].Authorizing? {
      HeldByFlight(cfg, s, rid);
      var f := s.flights[rid];
      var key := (f.asked.account, f.asked.req.clientId);
      ShownSeparate(s, rid, f.consentId);
      if key in s.consents {
        SameSeparate(s, s.(flights := s.flights[rid := Allowed(f.consentId, f.asked, f.client, s.consents[key],
                                                               AllowedScopes(f.asked, f.client, s.consents[key]))]));
      }
    } else {
      SameSeparate(s, s);
    }
  }

  lemma IssueSeparate(cfg: Config, s: State, rid: nat, origin: Origin, scopes: seq<string>, code: string)
    requires At(s, origin.ticket, Held(rid))
    ensures StaysSeparate(s, IssueCode(cfg, s, rid, origin, scopes, code))
  {
    hide CodeFor;
  }

  lemma GenerateCodeSeparate(cfg: Config, s: State, rid: nat, code: string)
    requires Inv(cfg, s)
    ensures StaysSeparate(s, GenerateCode(cfg, s, rid, code))
  {
    hide Inv, ScopesWithin, PkceBound, IssueCode, EndFlight, StaysSeparate;
    assert StaysSeparate(s, s) by { SameSeparate(s, s); }
    if rid in s.flights && Redemption(code) !in s.place {
      HeldByFlight(cfg, s, rid);
      match s.flights[rid]
      case Allowed(id, asked, client, consented, scopes) =>
        EndFlightSeparate(s, rid, Direct(id), Dropped);
        IssueSeparate(cfg, s, rid, Origin(Direct(id), asked, client, consented), scopes, code);
      case Saved(id, asked, client, scopes) =>
        EndFlightSeparate(s, rid, Form(id), Dropped);
        IssueSeparate(cfg, s, rid, Origin(Form(id), asked, client, scopes), scopes, code);
      case _ =>
    }
  }

  lemma BeginSubmitSeparate(s: State, rid: nat, account: string, session: string,
                            form: AuthRequest, approved: bool, id: string)
    requires id in s.rendered
    ensures StaysSeparate(s, BeginSubmit(s, rid, account, session, form, approved, id))
  {
  }

  lemma ValidateSubmitSeparate(cfg: Config, s: State, rid: nat)
    requires Inv(cfg, s)
    ensures StaysSeparate(s, ValidateSubmit(cfg, s, rid))
  {
    hide Inv, PkceBound, SubmitRefusal, EndFlight, StaysSeparate;
    SameSeparate(s, s);
    if rid in s.flights && s.flights[rid].Submitting? {
      HeldByFlight(cfg, s, rid);
      if SubmitRefusal(cfg, s, s.flights[rid].asked) != "" {
        EndFlightSeparate(s, rid, Form(s.flights[rid].consentId), Dropped);
      } else {
        SameSeparate(s, ValidateSubmit(cfg, s, rid));
      }
    }
  }

  lemma SaveConsentSeparate(cfg: Config, s: State, rid: nat, c: Commit)
    requires Inv(cfg, s)
    ensures StaysSeparate(s, SaveConsent(s, rid, c))
  {
    hide Inv, PkceBound, ScopesWithin, ConsentAccepts, StaysSeparate;
    SameSeparate(s, s);
    if rid in s.flights && s.flights[rid].Validated? {
      HeldByFlight(cfg, s, rid);
      var f := s.flights[rid];
      EndFlightSeparate(s, rid, Form(f.consentId), Dropped);
      SeparateByPlace(s, EndFlight(s, rid, Form(f.consentId), Dropped), EndFlight(Recorded(s, f.asked, f.scopes), rid, Form(f.consentId), Dropped));
      if c.Committed? && ConsentAccepts(f.asked, f.scopes) { SameSeparate(s, SaveConsent(s, rid, c)); }
    }
  }

  lemma SeparateByPlace(s: State, s': State, t: State)
    requires StaysSeparate(s, s') && t.place == s'.place && t.rendered == s'.rendered
    ensures StaysSeparate(s, t)
  {
  }

  lemma RedemptionSeparate(s: State, s': State, code: string, p: Place)
    requires s'.rendered == s.rendered && s'.place == s.place[Redemption(code) := p]
    ensures StaysSeparate(s, s')
  {
  }

  lemma BeginTokenMoves(cfg: Config, s: State, rid: nat, clientId: string, secretOk: bool,
                        code: string, redirectURI: string, codeVerifier: string)
    ensures var s' := BeginToken(cfg, s, rid, clientId, secretOk, code, redirectURI, codeVerifier);
            && s'.rendered == s.rendered
            && (s'.place == s.place || s'.place == s.place[Redemption(code) := Held(rid)]
                || s'.place == s.place[Redemption(code) := Dropped])
  {
    hide TokenRefusal, CodeAccepted;
  }

  lemma BeginTokenSeparate(cfg: Config, s: State, rid: nat, clientId: string, secretOk: bool,
                           code: string, redirectURI: string, codeVerifier: string)
    ensures StaysSeparate(s, BeginToken(cfg, s, rid, clientId, secretOk, code, redirectURI, codeVerifier))
  {
    hide StaysSeparate, BeginToken;
    BeginTokenMoves(cfg, s, rid, clientId, secretOk, code, redirectURI, codeVerifier);
    var s' := BeginToken(cfg, s, rid, clientId, secretOk, code, redirectURI, codeVerifier);
    if s'.place == s.place {
      SameSeparate(s, s');
    } else {
      RedemptionSeparate(s, s', code, s'.place[Redemption(code)]);
    }
  }

  lemma FinishTokenSeparate(s: State, rid: nat, minted: bool)
    ensures StaysSeparate(s, FinishToken(s, rid, minted))
  {
    hide StaysSeparate, TokenFor;
    var s' := FinishToken(s, rid, minted);
    if rid in s.flights && s.flights[rid].Redeeming? {
      var code := s.flights[rid].code;
      RedemptionSeparate(s, s', code, s'.place[Redemption(code)]);
    } else {
      SameSeparate(s, s');
    }
  }

  lemma StepSeparate(cfg: Config, s: State, a: Action)
    requires Inv(cfg, s)
    requires a.ABeginSubmit? ==> a.consentId in s.rendered
    ensures StaysSeparate(s, Step(cfg, s, a))
  {
    hide Inv, StaysSeparate;
    hide BeginAuthorize, ReadConsent, GenerateCode, BeginSubmit, ValidateSubmit, SaveConsent, BeginToken, FinishToken;
    match a
    case ABeginAuthorize(rid, account, session, query, rt, rm, id) => BeginAuthorizeSeparate(cfg, s, rid, account, session, query, rt, rm, id);
    case AReadConsent(rid, readOk) => ReadConsentSeparate(cfg, s, rid, readOk);
    case AGenerateCode(rid, code) => GenerateCodeSeparate(cfg, s, rid, code);
    case ABeginSubmit(rid, account, session, form, approved, id) => BeginSubmitSeparate(s, rid, account, session, form, approved, id);
    case AValidateSubmit(rid) => ValidateSubmitSeparate(cfg, s, rid);
    case ASaveConsent(rid, c) => SaveConsentSeparate(cfg, s, rid, c);
    case ABeginToken(rid, id, secretOk, code, uri, v) => BeginTokenSeparate(cfg, s, rid, id, secretOk, code, uri, v);
    case AFinishToken(rid, minted) => FinishTokenSeparate(s, rid, minted);
    case _ => SameSeparate(s, Step(cfg, s, a));
  }

  lemma {:induction false} RunSeparate(cfg: Config, db: Database, acts: seq<Action>)
    requires db.Keyed()
    requires SubmitsShown(cfg, db, acts)
    ensures Separate(Reached(cfg, db, acts))
  {
    hide Step, StaysSeparate, Inv;
    if acts != [] {
      hide Separate;
      var last := |acts| - 1;
      assert forall n | 0 <= n < last :: acts[..last][..n] == acts[..n];
      assert SubmitsShown(cfg, db, acts[..last]);
      RunSeparate(cfg, db, acts[..last]);
      var s := Reached(cfg, db, acts[..last]);
      ReachedInv(cfg, db, acts[..last]);
      StepSeparate(cfg, s, acts[last]);
      StaysSeparateSound(s, Step(cfg, s, acts[last]));
    }
  }

  function ConsentIdOf(t: Ticket): string
    requires !t.Redemption?
  {
    match t case Form(id) => id case Direct(id) => id
  }

  lemma OriginTicket(cfg: Config, db: Database, acts: seq<Action>, c: string)
    requires db.Keyed()
    requires c in Reached(cfg, db, acts).issued
    ensures var s := Reached(cfg, db, acts); At(s, s.issued[c].origin.ticket, Issued(c))
  {
    hide Run, ScopesWithin, PkceBound, PendingOk, CodesOk, FlightsOk, GrantsOk;
    ReachedInv(cfg, db, acts);
    assert IssueOk(Reached(cfg, db, acts), c, Reached(cfg, db, acts).issued[c]);
  }

  /** When ids reach users only on consent pages, a consent id yields at most one code. */
  lemma ConsentIdIssuesOnce(cfg: Config, db: Database, acts: seq<Action>, c: string, d: string)
    requires db.Keyed()
    requires SubmitsShown(cfg, db, acts)
    requires c in Reached(cfg, db, acts).issued && d in Reached(cfg, db, acts).issued
    requires !Reached(cfg, db, acts).issued[c].origin.ticket.Redemption? && !Reached(cfg, db, acts).issued[d].origin.ticket.Redemption?
    requires ConsentIdOf(Reached(cfg, db, acts).issued[c].origin.ticket) == ConsentIdOf(Reached(cfg, db, acts).issued[d].origin.ticket)
    ensures c == d
  {
    hide Run, SubmitsShown;
    RunSeparate(cfg, db, acts);
    OriginTicket(cfg, db, acts, c);
    OriginTicket(cfg, db, acts, d);
  }

}
