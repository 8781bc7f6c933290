/**
 Where the records of the authorization-code protocol come from: every code
 and token of a run is traced back to the actions that made it and to the
 database states its client and consent were read in, and the scopes of a code
 are compared with what stands when it is issued.
 */
module OAuthHistory {
  import opened Common
  import opened OAuthClient
  import opened OAuthProtocol
  import Text

  // ----- what a trace points at -----

  /** The action is an Authorize that is let through and stores `asked` under `id`. */
  predicate Opens(cfg: Config, s: State, a: Action, id: string, asked: ConsentState) {
    && a.ABeginAuthorize? && a.consentId == id
    && asked == ConsentState(a.account, a.session, a.query.(scope := PlusToSpace(a.query.scope)))
    && AuthorizeRefusal(cfg, s, a.account, asked.req, a.responseType, a.responseMode) == ""
  }

  predicate Holds(s: State, client: Client) {
    client.clientId in s.clients && s.clients[client.clientId] == client
  }

  predicate HoldsConsent(s: State, asked: ConsentState, consented: seq<string>) {
    var key := (asked.account, asked.req.clientId);
    key in s.consents && s.consents[key] == consented
  }

  /** The action presents the code in time, as the client it was issued to, with its redirect URI and a fitting verifier. */
  predicate Redeems(cfg: Config, s: State, a: Action, code: string, ac: AuthCode, verifier: Option<string>) {
    && a.ABeginToken? && a.code == code && verifier == VerifierParam(a.codeVerifier)
    && TokenRefusal(s, a.clientId, a.secretOk, a.codeVerifier) == ""
    && CodeAccepted(cfg, s, ac, a.clientId, a.redirectURI, verifier)
  }

  predicate Generates(a: Action, code: string) {
    a.AGenerateCode? && a.code == code
  }

  // ----- traces; the numbers are positions in the run -----

  ghost predicate AskedAt(cfg: Config, db: Database, acts: seq<Action>, n: nat, id: string, asked: ConsentState) {
    n < |acts| && Opens(cfg, Reached(cfg, db, acts[..n]), acts[n], id, asked)
  }

  ghost predicate ClientAt(cfg: Config, db: Database, acts: seq<Action>, n: nat, m: nat, id: string, asked: ConsentState, client: Client) {
    && n <= m <= |acts| && AskedAt(cfg, db, acts, n, id, asked)
    && client.clientId == asked.req.clientId && Holds(Reached(cfg, db, acts[..m]), client)
  }

  ghost predicate ConsentAt(cfg: Config, db: Database, acts: seq<Action>, n: nat, m: nat, k: nat,
                            id: string, asked: ConsentState, client: Client, consented: seq<string>) {
    m <= k <= |acts| && ClientAt(cfg, db, acts, n, m, id, asked, client) && HoldsConsent(Reached(cfg, db, acts[..k]), asked, consented)
  }

  ghost predicate IssuedAt(cfg: Config, db: Database, acts: seq<Action>, n: nat, m: nat, k: nat, j: nat, code: string, i: Issue) {
    && !i.origin.ticket.Redemption?
    && ConsentAt(cfg, db, acts, n, m, k, ConsentIdOf(i.origin.ticket), i.origin.asked, i.origin.client, i.origin.consented)
    && k <= j < |acts| && Generates(acts[j], code)
    && i.ac == CodeFor(cfg, Reached(cfg, db, acts[..j]).now, i.origin.asked,
                       AllowedScopes(i.origin.asked, i.origin.client, i.origin.consented))
    && i.ac.scopes != []
  }

  ghost predicate RedeemedAt(cfg: Config, db: Database, acts: seq<Action>, t: nat, code: string, ac: AuthCode, verifier: Option<string>) {
    t < |acts| && Redeems(cfg, Reached(cfg, db, acts[..t]), acts[t], code, ac, verifier)
  }

  ghost predicate WasAsked(cfg: Config, db: Database, acts: seq<Action>, id: string, asked: ConsentState) {
    exists n :: AskedAt(cfg, db, acts, n, id, asked)
  }

  ghost predicate WasClient(cfg: Config, db: Database, acts: seq<Action>, id: string, asked: ConsentState, client: Client) {
    exists n, m :: ClientAt(cfg, db, acts, n, m, id, asked, client)
  }

  ghost predicate WasConsented(cfg: Config, db: Database, acts: seq<Action>,
                               id: string, asked: ConsentState, client: Client, consented: seq<string>) {
    exists n, m, k :: ConsentAt(cfg, db, acts, n, m, k, id, asked, client, consented)
  }

  ghost predicate WasIssued(cfg: Config, db: Database, acts: seq<Action>, code: string, i: Issue) {
    exists n, m, k, j :: IssuedAt(cfg, db, acts, n, m, k, j, code, i)
  }

  ghost predicate WasRedeemed(cfg: Config, db: Database, acts: seq<Action>, code: string, ac: AuthCode, verifier: Option<string>) {
    exists t :: RedeemedAt(cfg, db, acts, t, code, ac, verifier)
  }

  ghost predicate FlightTraced(cfg: Config, db: Database, acts: seq<Action>, f: Flight) {
    match f
    case Authorizing(id, asked, client) => WasClient(cfg, db, acts, id, asked, client)
    case Allowed(id, asked, client, consented, scopes) =>
      WasConsented(cfg, db, acts, id, asked, client, consented) && scopes == AllowedScopes(asked, client, consented) && scopes != []
    case Submitting(id, asked) => WasAsked(cfg, db, acts, id, asked)
    case Validated(id, asked, client, scopes) =>
      WasClient(cfg, db, acts, id, asked, client) && scopes == AllowedScopes(asked, client, scopes) && scopes != []
    case Saved(id, asked, client, scopes) =>
      WasConsented(cfg, db, acts, id, asked, client, scopes) && scopes == AllowedScopes(asked, client, scopes) && scopes != []
    case Redeeming(code, ac, verifier) => WasRedeemed(cfg, db, acts, code, ac, verifier)
  }

  ghost predicate PendingTraced(cfg: Config, db: Database, acts: seq<Action>, s: State) {
    forall id | id in s.pending :: WasAsked(cfg, db, acts, id, s.pending[id].asked)
  }

  ghost predicate FlightsTraced(cfg: Config, db: Database, acts: seq<Action>, s: State) {
    forall rid | rid in s.flights :: FlightTraced(cfg, db, acts, s.flights[rid])
  }

  ghost predicate IssuedTraced(cfg: Config, db: Database, acts: seq<Action>, s: State) {
    forall c | c in s.issued :: WasIssued(cfg, db, acts, c, s.issued[c])
  }

  ghost predicate GrantsTraced(cfg: Config, db: Database, acts: seq<Action>, s: State) {
    forall i | 0 <= i < |s.grants| ::
      s.grants[i].code in s.issued && WasRedeemed(cfg, db, acts, s.grants[i].code, s.issued[s.grants[i].code].ac, s.grants[i].verifier)
  }

  ghost predicate Traced(cfg: Config, db: Database, acts: seq<Action>, s: State) {
    PendingTraced(cfg, db, acts, s) && FlightsTraced(cfg, db, acts, s) && IssuedTraced(cfg, db, acts, s) && GrantsTraced(cfg, db, acts, s)
  }

  // ----- a trace stays one as the run goes on -----

  lemma Prefixes(acts: seq<Action>, a: Action)
    ensures forall n | 0 <= n <= |acts| :: (acts + [a])[..n] == acts[..n]
    ensures forall n | 0 <= n < |acts| :: (acts + [a])[n] == acts[n]
    ensures (acts + [a])[|acts|] == a && acts[..|acts|] == acts
  {
  }

  lemma AskedLater(cfg: Config, db: Database, acts: seq<Action>, a: Action, id: string, asked: ConsentState)
    requires WasAsked(cfg, db, acts, id, asked)
    ensures WasAsked(cfg, db, acts + [a], id, asked)
  {
    hide Opens, Reached;
    Prefixes(acts, a);
    var n :| AskedAt(cfg, db, acts, n, id, asked);
    assert AskedAt(cfg, db, acts + [a], n, id, asked);
  }

  lemma ClientLater(cfg: Config, db: Database, acts: seq<Action>, a: Action, id: string, asked: ConsentState, client: Client)
    requires WasClient(cfg, db, acts, id, asked, client)
    ensures WasClient(cfg, db, acts + [a], id, asked, client)
  {
    hide Opens, Holds, Reached;
    Prefixes(acts, a);
    var n, m :| ClientAt(cfg, db, acts, n, m, id, asked, client);
    assert ClientAt(cfg, db, acts + [a], n, m, id, asked, client);
  }

  lemma ConsentedLater(cfg: Config, db: Database, acts: seq<Action>, a: Action,
                       id: string, asked: ConsentState, client: Client, consented: seq<string>)
    requires WasConsented(cfg, db, acts, id, asked, client, consented)
    ensures WasConsented(cfg, db, acts + [a], id, asked, client, consented)
  {
    hide Opens, Holds, HoldsConsent, Reached;
    Prefixes(acts, a);
    var n, m, k :| ConsentAt(cfg, db, acts, n, m, k, id, asked, client, consented);
    assert ConsentAt(cfg, db, acts + [a], n, m, k, id, asked, client, consented);
  }

  lemma IssuedLater(cfg: Config, db: Database, acts: seq<Action>, a: Action, code: string, i: Issue)
    requires WasIssued(cfg, db, acts, code, i)
    ensures WasIssued(cfg, db, acts + [a], code, i)
  {
    hide Opens, Holds, HoldsConsent, Reached, CodeFor, AllowedScopes;
    Prefixes(acts, a);
    var n, m, k, j :| IssuedAt(cfg, db, acts, n, m, k, j, code, i);
    assert IssuedAt(cfg, db, acts + [a], n, m, k, j, code, i);
  }

  lemma RedeemedLater(cfg: Config, db: Database, acts: seq<Action>, a: Action, code: string, ac: AuthCode, verifier: Option<string>)
    requires WasRedeemed(cfg, db, acts, code, ac, verifier)
    ensures WasRedeemed(cfg, db, acts + [a], code, ac, verifier)
  {
    hide Redeems, Reached;
    Prefixes(acts, a);
    var t :| RedeemedAt(cfg, db, acts, t, code, ac, verifier);
    assert RedeemedAt(cfg, db, acts + [a], t, code, ac, verifier);
  }

  lemma FlightLater(cfg: Config, db: Database, acts: seq<Action>, a: Action, f: Flight)
    requires FlightTraced(cfg, db, acts, f)
    ensures FlightTraced(cfg, db, acts + [a], f)
  {
    hide WasAsked, WasClient, WasConsented, WasRedeemed, AllowedScopes;
    match f
    case Authorizing(id, asked, client) => ClientLater(cfg, db, acts, a, id, asked, client);
    case Allowed(id, asked, client, consented, scopes) => ConsentedLater(cfg, db, acts, a, id, asked, client, consented);
    case Submitting(id, asked) => AskedLater(cfg, db, acts, a, id, asked);
    case Validated(id, asked, client, scopes) => ClientLater(cfg, db, acts, a, id, asked, client);
    case Saved(id, asked, client, scopes) => ConsentedLater(cfg, db, acts, a, id, asked, client, scopes);
    case Redeeming(code, ac, verifier) => RedeemedLater(cfg, db, acts, a, code, ac, verifier);
  }

  lemma TracedLater(cfg: Config, db: Database, acts: seq<Action>, a: Action, s: State)
    requires Traced(cfg, db, acts, s)
    ensures Traced(cfg, db, acts + [a], s)
  {
    hide WasAsked, WasIssued, WasRedeemed, FlightTraced;
    forall id | id in s.pending ensures WasAsked(cfg, db, acts + [a], id, s.pending[id].asked) {
      AskedLater(cfg, db, acts, a, id, s.pending[id].asked);
    }
    forall rid | rid in s.flights ensures FlightTraced(cfg, db, acts + [a], s.flights[rid]) {
      FlightLater(cfg, db, acts, a, s.flights[rid]);
    }
    forall c | c in s.issued ensures WasIssued(cfg, db, acts + [a], c, s.issued[c]) {
      IssuedLater(cfg, db, acts, a, c, s.issued[c]);
    }
    forall i | 0 <= i < |s.grants|
      ensures WasRedeemed(cfg, db, acts + [a], s.grants[i].code, s.issued[s.grants[i].code].ac, s.grants[i].verifier)
    {
      RedeemedLater(cfg, db, acts, a, s.grants[i].code, s.issued[s.grants[i].code].ac, s.grants[i].verifier);
    }
  }

  // ----- the action at hand extends a trace -----

  lemma AskedNow(cfg: Config, db: Database, acts: seq<Action>, a: Action, id: string, asked: ConsentState, client: Client)
    requires Opens(cfg, Reached(cfg, db, acts), a, id, asked)
    requires client.clientId == asked.req.clientId && Holds(Reached(cfg, db, acts), client)
    ensures WasAsked(cfg, db, acts + [a], id, asked) && WasClient(cfg, db, acts + [a], id, asked, client)
  {
    hide Opens, Holds, Reached;
    Prefixes(acts, a);
    assert AskedAt(cfg, db, acts + [a], |acts|, id, asked);
    assert ClientAt(cfg, db, acts + [a], |acts|, |acts|, id, asked, client);
  }

  lemma ClientNow(cfg: Config, db: Database, acts: seq<Action>, a: Action, id: string, asked: ConsentState, client: Client)
    requires WasAsked(cfg, db, acts, id, asked)
    requires client.clientId == asked.req.clientId && Holds(Reached(cfg, db, acts), client)
    ensures WasClient(cfg, db, acts + [a], id, asked, client)
  {
    hide Opens, Holds, Reached;
    Prefixes(acts, a);
    var n :| AskedAt(cfg, db, acts, n, id, asked);
    assert ClientAt(cfg, db, acts + [a], n, |acts|, id, asked, client);
  }

  /** The consent is there before the action, or from it on. */
  lemma ConsentNow(cfg: Config, db: Database, acts: seq<Action>, a: Action, id: string, asked: ConsentState, client: Client, consented: seq<string>)
    requires WasClient(cfg, db, acts, id, asked, client)
    requires HoldsConsent(Reached(cfg, db, acts), asked, consented) || HoldsConsent(Reached(cfg, db, acts + [a]), asked, consented)
    ensures WasConsented(cfg, db, acts + [a], id, asked, client, consented)
  {
    hide Opens, Holds, HoldsConsent, Reached;
    Prefixes(acts, a);
    var h := acts + [a];
    assert h[..|h|] == h;
    var n, m :| ClientAt(cfg, db, acts, n, m, id, asked, client);
    assert ClientAt(cfg, db, h, n, m, id, asked, client);
    if HoldsConsent(Reached(cfg, db, acts), asked, consented) {
      assert ConsentAt(cfg, db, h, n, m, |acts|, id, asked, client, consented);
    } else {
      assert ConsentAt(cfg, db, h, n, m, |h|, id, asked, client, consented);
    }
  }

  lemma IssueNow(cfg: Config, db: Database, acts: seq<Action>, a: Action, code: string, o: Origin, scopes: seq<string>)
    requires !o.ticket.Redemption? && Generates(a, code) && scopes == AllowedScopes(o.asked, o.client, o.consented) && scopes != []
    requires WasConsented(cfg, db, acts, ConsentIdOf(o.ticket), o.asked, o.client, o.consented)
    ensures WasIssued(cfg, db, acts + [a], code, Issue(CodeFor(cfg, Reached(cfg, db, acts).now, o.asked, scopes), o))
  {
    hide Opens, Holds, HoldsConsent, Reached, AllowedScopes;
    Prefixes(acts, a);
    var n, m, k :| ConsentAt(cfg, db, acts, n, m, k, ConsentIdOf(o.ticket), o.asked, o.client, o.consented);
    var h := acts + [a];
    assert ConsentAt(cfg, db, h, n, m, k, ConsentIdOf(o.ticket), o.asked, o.client, o.consented);
    assert IssuedAt(cfg, db, h, n, m, k, |acts|, code, Issue(CodeFor(cfg, Reached(cfg, db, acts).now, o.asked, scopes), o));
  }

  lemma RedeemNow(cfg: Config, db: Database, acts: seq<Action>, a: Action, code: string, ac: AuthCode, verifier: Option<string>)
    requires Redeems(cfg, Reached(cfg, db, acts), a, code, ac, verifier)
    ensures WasRedeemed(cfg, db, acts + [a], code, ac, verifier)
  {
    hide Redeems, Reached;
    Prefixes(acts, a);
    assert RedeemedAt(cfg, db, acts + [a], |acts|, code, ac, verifier);
  }

  // ----- every step extends the traces -----

  /** The step changes one flight at most and may consume stored states. */
  ghost predicate OneFlight(s: State, s': State, rid: nat) {
    && s'.issued == s.issued && s'.grants == s.grants && s'.clients == s.clients
    && (forall id | id in s'.pending :: id in s.pending && s'.pending[id] == s.pending[id])
    && (forall r | r != rid :: r in s'.flights <==> r in s.flights)
    && (forall r | r in s'.flights && r != rid :: s'.flights[r] == s.flights[r])
  }

  lemma OneFlightTraced(cfg: Config, db: Database, h: seq<Action>, s: State, s': State, rid: nat)
    requires Traced(cfg, db, h, s) && OneFlight(s, s', rid)
    requires rid in s'.flights ==> FlightTraced(cfg, db, h, s'.flights[rid])
    ensures Traced(cfg, db, h, s')
  {
    hide WasAsked, WasIssued, WasRedeemed, FlightTraced;
  }

  lemma KeepLast(p: string -> bool, scopes: seq<string>, x: string)
    requires p(x)
    ensures Keep(p, scopes + [x]) == Keep(p, scopes) + [x]
  {
    assert (scopes + [x])[..|scopes|] == scopes;
  }

  lemma {:induction false} KeepAll(p: string -> bool, scopes: seq<string>)
    requires forall i | 0 <= i < |scopes| :: p(scopes[i])
    ensures Keep(p, scopes) == scopes
  {
    if scopes == [] { return; }
    var init := scopes[..|scopes| - 1];
    var x := scopes[|scopes| - 1];
    assert scopes == init + [x];
    KeepAll(p, init);
    KeepLast(p, init, x);
  }

  lemma FormScopesAllowed(asked: ConsentState, client: Client)
    ensures var scopes := client.ValidScopes(Tokens(asked.req.scope)); AllowedScopes(asked, client, scopes) == scopes
  {
    hide Tokens, Client.ValidScopes;
    var scopes := client.ValidScopes(Tokens(asked.req.scope));
    KeepAll(x => x in scopes, scopes);
  }

  lemma ReachedNext(cfg: Config, db: Database, acts: seq<Action>, a: Action)
    ensures Reached(cfg, db, acts + [a]) == Step(cfg, Reached(cfg, db, acts), a)
  {
    hide Step;
    assert (acts + [a])[..|acts|] == acts;
  }

  lemma FlightAt(cfg: Config, db: Database, acts: seq<Action>, s: State, rid: nat)
    requires Traced(cfg, db, acts, s) && rid in s.flights
    ensures FlightTraced(cfg, db, acts, s.flights[rid])
  {
    hide FlightTraced, PendingTraced, IssuedTraced, GrantsTraced;
  }

  lemma BeginAuthorizeTraced(cfg: Config, db: Database, acts: seq<Action>, a: Action)
    requires a.ABeginAuthorize?
    requires var s := Reached(cfg, db, acts); Traced(cfg, db, acts + [a], s) && ClientsOk(s)
    ensures Traced(cfg, db, acts + [a], Step(cfg, Reached(cfg, db, acts), a))
  {
    hide WasAsked, WasClient, WasConsented, WasIssued, WasRedeemed, AllowedScopes, Reached, PlusToSpace, IssuedTraced, GrantsTraced;
    var s := Reached(cfg, db, acts);
    var q := a.query.(scope := PlusToSpace(a.query.scope));
    var asked := ConsentState(a.account, a.session, q);
    if a.rid !in s.flights && FreshConsentId(s, a.consentId)
       && AuthorizeRefusal(cfg, s, a.account, q, a.responseType, a.responseMode) == "" {
      AskedNow(cfg, db, acts, a, a.consentId, asked, s.clients[q.clientId]);
      hide AuthorizeRefusal;
      assert forall rid | rid in s.flights :: FlightTraced(cfg, db, acts + [a], s.flights[rid]);
      assert FlightTraced(cfg, db, acts + [a], Authorizing(a.consentId, asked, s.clients[q.clientId]));
      hide FlightTraced;
      IssuedGrantsSame(cfg, db, acts + [a], s, Step(cfg, s, a));
    } else {
      assert Step(cfg, s, a) == s;
    }
  }

  lemma IssuedGrantsSame(cfg: Config, db: Database, h: seq<Action>, s: State, s': State)
    requires IssuedTraced(cfg, db, h, s) && GrantsTraced(cfg, db, h, s) && s'.issued == s.issued && s'.grants == s.grants
    ensures IssuedTraced(cfg, db, h, s') && GrantsTraced(cfg, db, h, s')
  {
    hide WasIssued, WasRedeemed;
  }

  // What the steps of one request do to its flight.

  lemma ReadConsentMoves(s: State, rid: nat, readOk: bool)
    requires rid in s.flights && s.flights[rid].Authorizing?
    ensures var f := s.flights[rid];
            var key := (f.asked.account, f.asked.req.clientId);
            var s' := ReadConsent(s, rid, readOk);
            && OneFlight(s, s', rid) && s'.consents == s.consents
            && (rid in s'.flights ==>
                  && key in s.consents && AllowedScopes(f.asked, f.client, s.consents[key]) != []
                  && s'.flights[rid] == Allowed(f.consentId, f.asked, f.client, s.consents[key],
                                                AllowedScopes(f.asked, f.client, s.consents[key])))
  {
    hide AllowedScopes;
  }

  lemma BeginSubmitMoves(s: State, rid: nat, account: string, session: string, form: AuthRequest, approved: bool, id: string)
    requires rid !in s.flights
    ensures var s' := BeginSubmit(s, rid, account, session, form, approved, id);
            && OneFlight(s, s', rid) && s'.consents == s.consents
            && (rid in s'.flights ==> id in s.pending && s'.flights[rid] == Submitting(id, s.pending[id].asked))
  {
    var s' := BeginSubmit(s, rid, account, session, form, approved, id);
    if rid in s'.flights {
      assert s' == s.(pending := s.pending - {id}, place := s.place[Form(id) := Held(rid)],
                      flights := s.flights[rid := Submitting(id, s.pending[id].asked)]);
      hide BeginSubmit;
    } else {
      assert s'.issued == s.issued && s'.grants == s.grants && s'.flights == s.flights;
      assert s'.pending == s.pending || s'.pending == s.pending - {id};
      hide BeginSubmit;
    }
  }

  lemma NotRefused(cfg: Config, s: State, asked: ConsentState)
    ensures SubmitRefusal(cfg, s, asked) == "" ==>
              asked.req.clientId in s.clients && s.clients[asked.req.clientId].ValidScopes(Tokens(asked.req.scope)) != []
  {
    hide Tokens, Client.ValidScopes;
  }

  lemma ValidateSubmitMoves(cfg: Config, s: State, rid: nat)
    requires rid in s.flights && s.flights[rid].Submitting?
    ensures var f := s.flights[rid];
            var s' := ValidateSubmit(cfg, s, rid);
            && OneFlight(s, s', rid) && s'.consents == s.consents
            && (rid in s'.flights ==>
                  && f.asked.req.clientId in s.clients
                  && var client := s.clients[f.asked.req.clientId];
                     && client.ValidScopes(Tokens(f.asked.req.scope)) != []
                     && s'.flights[rid] == Validated(f.consentId, f.asked, client, client.ValidScopes(Tokens(f.asked.req.scope))))
  {
    hide Tokens, Client.ValidScopes, SubmitRefusal;
    var f := s.flights[rid];
    NotRefused(cfg, s, f.asked);
    var s' := ValidateSubmit(cfg, s, rid);
    if SubmitRefusal(cfg, s, f.asked) != "" {
      assert s' == EndFlight(s, rid, Form(f.consentId), Dropped);
      hide ValidateSubmit;
    } else {
      var client := s.clients[f.asked.req.clientId];
      assert s' == s.(flights := s.flights[rid := Validated(f.consentId, f.asked, client, client.ValidScopes(Tokens(f.asked.req.scope)))]);
      hide ValidateSubmit;
    }
  }

  lemma SaveConsentMoves(s: State, rid: nat, c: Commit)
    requires rid in s.flights && s.flights[rid].Validated?
    ensures var f := s.flights[rid];
            var s' := SaveConsent(s, rid, c);
            && OneFlight(s, s', rid)
            && (rid in s'.flights ==> s'.flights[rid] == Saved(f.consentId, f.asked, f.client, f.scopes)
                                      && HoldsConsent(s', f.asked, f.scopes))
  {
    hide ConsentAccepts;
  }

  lemma BeginTokenMoves(cfg: Config, s: State, rid: nat, clientId: string, secretOk: bool, code: string, redirectURI: string, codeVerifier: string)
    requires rid !in s.flights
    ensures var s' := BeginToken(cfg, s, rid, clientId, secretOk, code, redirectURI, codeVerifier);
            && OneFlight(s, s', rid) && s'.consents == s.consents
            && (rid in s'.flights ==>
                  && code in s.codes && s'.flights[rid] == Redeeming(code, s.codes[code], VerifierParam(codeVerifier))
                  && TokenRefusal(s, clientId, secretOk, codeVerifier) == ""
                  && CodeAccepted(cfg, s, s.codes[code], clientId, redirectURI, VerifierParam(codeVerifier)))
  {
    hide TokenRefusal, CodeAccepted, VerifierParam;
    var s' := BeginToken(cfg, s, rid, clientId, secretOk, code, redirectURI, codeVerifier);
    if rid in s'.flights {
      assert s' == s.(codes := s.codes - {code}, place := s.place[Redemption(code) := Held(rid)],
                      flights := s.flights[rid := Redeeming(code, s.codes[code], VerifierParam(codeVerifier))]);
      hide BeginToken;
    } else {
      assert s'.issued == s.issued && s'.grants == s.grants && s'.flights == s.flights && s'.pending == s.pending;
      assert s'.clients == s.clients && s'.consents == s.consents;
      hide BeginToken;
    }
  }

  lemma SubmittingTrace(cfg: Config, db: Database, acts: seq<Action>, f: Flight)
    requires f.Submitting?
    ensures FlightTraced(cfg, db, acts, f) <==> WasAsked(cfg, db, acts, f.consentId, f.asked)
  {
    hide WasAsked;
  }

  lemma ValidatedTrace(cfg: Config, db: Database, acts: seq<Action>, f: Flight)
    requires f.Validated?
    ensures FlightTraced(cfg, db, acts, f) <==>
              && WasClient(cfg, db, acts, f.consentId, f.asked, f.client)
              && f.scopes == AllowedScopes(f.asked, f.client, f.scopes) && f.scopes != []
  {
    hide WasClient, AllowedScopes;
  }

  lemma SavedTrace(cfg: Config, db: Database, acts: seq<Action>, f: Flight)
    requires f.Saved?
    ensures FlightTraced(cfg, db, acts, f) <==>
              && WasConsented(cfg, db, acts, f.consentId, f.asked, f.client, f.scopes)
              && f.scopes == AllowedScopes(f.asked, f.client, f.scopes) && f.scopes != []
  {
    hide WasConsented, AllowedScopes;
  }

  // Each step of a run extends the traces.

  lemma ReadConsentTraced(cfg: Config, db: Database, acts: seq<Action>, a: Action)
    requires a.AReadConsent?
    requires var s := Reached(cfg, db, acts); Traced(cfg, db, acts, s) && Traced(cfg, db, acts + [a], s)
    ensures Traced(cfg, db, acts + [a], Step(cfg, Reached(cfg, db, acts), a))
  {
    var s := Reached(cfg, db, acts);
    if a.rid in s.flights && s.flights[a.rid].Authorizing? {
      hide Traced, WasAsked, WasClient, WasConsented, WasIssued, WasRedeemed, AllowedScopes, Reached, ReadConsent, OneFlight;
      ReadConsentMoves(s, a.rid, a.readOk);
      FlightAt(cfg, db, acts, s, a.rid);
      var f := s.flights[a.rid];
      var key := (f.asked.account, f.asked.req.clientId);
      if key in s.consents { ConsentNow(cfg, db, acts, a, f.consentId, f.asked, f.client, s.consents[key]); }
      OneFlightTraced(cfg, db, acts + [a], s, Step(cfg, s, a), a.rid);
    } else {
      hide Traced, Reached;
    }
  }

  lemma BeginSubmitTraced(cfg: Config, db: Database, acts: seq<Action>, a: Action)
    requires a.ABeginSubmit?
    requires var s := Reached(cfg, db, acts); Traced(cfg, db, acts + [a], s)
    ensures Traced(cfg, db, acts + [a], Step(cfg, Reached(cfg, db, acts), a))
  {
    var s := Reached(cfg, db, acts);
    if a.rid !in s.flights {
      hide WasAsked, WasIssued, WasRedeemed, Reached, BeginSubmit, OneFlight, FlightsTraced, IssuedTraced, GrantsTraced;
      BeginSubmitMoves(s, a.rid, a.account, a.session, a.form, a.approved, a.consentId);
      OneFlightTraced(cfg, db, acts + [a], s, Step(cfg, s, a), a.rid);
    } else {
      hide Traced, Reached;
    }
  }

  lemma ValidateSubmitTraced(cfg: Config, db: Database, acts: seq<Action>, a: Action)
    requires a.AValidateSubmit?
    requires var s := Reached(cfg, db, acts); Traced(cfg, db, acts, s) && Traced(cfg, db, acts + [a], s) && ClientsOk(s)
    ensures Traced(cfg, db, acts + [a], Step(cfg, Reached(cfg, db, acts), a))
  {
    var s := Reached(cfg, db, acts);
    if a.rid in s.flights && s.flights[a.rid].Submitting? {
      hide Traced, WasAsked, WasClient, WasConsented, WasIssued, WasRedeemed, AllowedScopes, Tokens, Client.ValidScopes, Reached,
        ValidateSubmit, OneFlight, FlightTraced;
      ValidateSubmitMoves(cfg, s, a.rid);
      FlightAt(cfg, db, acts, s, a.rid);
      SubmittingTrace(cfg, db, acts, s.flights[a.rid]);
      var f := s.flights[a.rid];
      if f.asked.req.clientId in s.clients {
        ClientNow(cfg, db, acts, a, f.consentId, f.asked, s.clients[f.asked.req.clientId]);
        FormScopesAllowed(f.asked, s.clients[f.asked.req.clientId]);
      }
      var s' := Step(cfg, s, a);
      if a.rid in s'.flights { ValidatedTrace(cfg, db, acts + [a], s'.flights[a.rid]); }
      OneFlightTraced(cfg, db, acts + [a], s, Step(cfg, s, a), a.rid);
    } else {
      hide Traced, Reached;
    }
  }

  lemma SaveConsentTraced(cfg: Config, db: Database, acts: seq<Action>, a: Action)
    requires a.ASaveConsent?
    requires var s := Reached(cfg, db, acts); Traced(cfg, db, acts, s) && Traced(cfg, db, acts + [a], s)
    ensures Traced(cfg, db, acts + [a], Step(cfg, Reached(cfg, db, acts), a))
  {
    var s := Reached(cfg, db, acts);
    if a.rid in s.flights && s.flights[a.rid].Validated? {
      hide Traced, WasAsked, WasClient, WasConsented, WasIssued, WasRedeemed, AllowedScopes, Reached, SaveConsent, OneFlight, HoldsConsent,
        FlightTraced;
      SaveConsentMoves(s, a.rid, a.c);
      FlightAt(cfg, db, acts, s, a.rid);
      ValidatedTrace(cfg, db, acts, s.flights[a.rid]);
      var f := s.flights[a.rid];
      var s' := Step(cfg, s, a);
      if a.rid in s'.flights {
        ReachedNext(cfg, db, acts, a);
        ConsentNow(cfg, db, acts, a, f.consentId, f.asked, f.client, f.scopes);
        SavedTrace(cfg, db, acts + [a], s'.flights[a.rid]);
      }
      OneFlightTraced(cfg, db, acts + [a], s, s', a.rid);
    } else {
      hide Traced, Reached;
    }
  }

  lemma BeginTokenTraced(cfg: Config, db: Database, acts: seq<Action>, a: Action)
    requires a.ABeginToken?
    requires var s := Reached(cfg, db, acts); Traced(cfg, db, acts + [a], s)
    ensures Traced(cfg, db, acts + [a], Step(cfg, Reached(cfg, db, acts), a))
  {
    var s := Reached(cfg, db, acts);
    if a.rid !in s.flights {
      hide Traced, WasAsked, WasClient, WasConsented, WasIssued, WasRedeemed, TokenRefusal, CodeAccepted, Reached, BeginToken,
        OneFlight, VerifierParam;
      BeginTokenMoves(cfg, s, a.rid, a.clientId, a.secretOk, a.code, a.redirectURI, a.codeVerifier);
      var s' := Step(cfg, s, a);
      if a.rid in s'.flights { RedeemNow(cfg, db, acts, a, a.code, s.codes[a.code], VerifierParam(a.codeVerifier)); }
      OneFlightTraced(cfg, db, acts + [a], s, s', a.rid);
    } else {
      hide Traced, Reached;
    }
  }

  lemma IssueCodeTraced(cfg: Config, db: Database, h: seq<Action>, s: State, rid: nat, o: Origin, scopes: seq<string>, code: string)
    requires Traced(cfg, db, h, s) && code !in s.issued
    requires WasIssued(cfg, db, h, code, Issue(CodeFor(cfg, s.now, o.asked, scopes), o))
    ensures Traced(cfg, db, h, IssueCode(cfg, s, rid, o, scopes, code))
  {
    hide WasAsked, WasIssued, WasRedeemed, FlightTraced, CodeFor;
  }

  lemma EndFlightTraced(cfg: Config, db: Database, h: seq<Action>, s: State, rid: nat, t: Ticket, p: Place)
    requires Traced(cfg, db, h, s)
    ensures Traced(cfg, db, h, EndFlight(s, rid, t, p))
  {
    hide Traced;
    OneFlightTraced(cfg, db, h, s, EndFlight(s, rid, t, p), rid);
  }

  lemma AllowedTrace(cfg: Config, db: Database, acts: seq<Action>, f: Flight)
    requires f.Allowed?
    ensures FlightTraced(cfg, db, acts, f) <==>
              && WasConsented(cfg, db, acts, f.consentId, f.asked, f.client, f.consented)
              && f.scopes == AllowedScopes(f.asked, f.client, f.consented) && f.scopes != []
  {
    hide WasConsented, AllowedScopes;
  }

  lemma CodeIsNew(cfg: Config, s: State, code: string)
    requires Inv(cfg, s) && Redemption(code) !in s.place
    ensures code !in s.issued
  {
    hide FlightsOk, GrantsOk, PendingOk, CodesOk;
    assert forall c | c in s.issued :: Redemption(c) in s.place;
  }

  lemma GenerateCodeTraced(cfg: Config, db: Database, acts: seq<Action>, a: Action)
    requires a.AGenerateCode?
    requires var s := Reached(cfg, db, acts); Traced(cfg, db, acts, s) && Traced(cfg, db, acts + [a], s) && Inv(cfg, s)
    ensures Traced(cfg, db, acts + [a], Step(cfg, Reached(cfg, db, acts), a))
  {
    hide Traced, WasConsented, WasIssued, FlightTraced, AllowedScopes, Reached, IssueCode, EndFlight, Inv, CodeFieldsPresent;
    var s := Reached(cfg, db, acts);
    var h := acts + [a];
    if a.rid in s.flights && Redemption(a.code) !in s.place && a.code != "" {
      CodeIsNew(cfg, s, a.code);
      FlightAt(cfg, db, acts, s, a.rid);
      match s.flights[a.rid]
      case Allowed(id, asked, client, consented, scopes) =>
        AllowedTrace(cfg, db, acts, s.flights[a.rid]);
        EndFlightTraced(cfg, db, h, s, a.rid, Direct(id), Dropped);
        var o := Origin(Direct(id), asked, client, consented);
        IssueNow(cfg, db, acts, a, a.code, o, scopes);
        IssueCodeTraced(cfg, db, h, s, a.rid, o, scopes, a.code);
      case Saved(id, asked, client, scopes) =>
        SavedTrace(cfg, db, acts, s.flights[a.rid]);
        EndFlightTraced(cfg, db, h, s, a.rid, Form(id), Dropped);
        var o := Origin(Form(id), asked, client, scopes);
        IssueNow(cfg, db, acts, a, a.code, o, scopes);
        IssueCodeTraced(cfg, db, h, s, a.rid, o, scopes, a.code);
      case _ =>
    }
  }

  lemma RedeemingTrace(cfg: Config, db: Database, acts: seq<Action>, f: Flight)
    requires f.Redeeming?
    ensures FlightTraced(cfg, db, acts, f) <==> WasRedeemed(cfg, db, acts, f.code, f.ac, f.verifier)
  {
    hide WasRedeemed;
  }

  lemma AddGrantTraced(cfg: Config, db: Database, h: seq<Action>, s: State, g: Grant)
    requires Traced(cfg, db, h, s) && g.code in s.issued && WasRedeemed(cfg, db, h, g.code, s.issued[g.code].ac, g.verifier)
    ensures Traced(cfg, db, h, s.(grants := s.grants + [g]))
  {
    hide WasAsked, WasIssued, WasRedeemed, FlightTraced;
  }

  lemma RedeemingIssued(cfg: Config, s: State, rid: nat)
    requires Inv(cfg, s) && rid in s.flights && s.flights[rid].Redeeming?
    ensures s.flights[rid].code in s.issued && s.issued[s.flights[rid].code].ac == s.flights[rid].ac
  {
    hide Inv, VerifierOk, ScopesWithin, PkceBound;
    HeldByFlight(cfg, s, rid);
  }

  lemma FinishTokenTraced(cfg: Config, db: Database, acts: seq<Action>, a: Action)
    requires a.AFinishToken?
    requires var s := Reached(cfg, db, acts); Traced(cfg, db, acts + [a], s) && Inv(cfg, s)
    ensures Traced(cfg, db, acts + [a], Step(cfg, Reached(cfg, db, acts), a))
  {
    hide Traced, WasRedeemed, FlightTraced, Reached, Inv, TokenFor;
    var s := Reached(cfg, db, acts);
    var h := acts + [a];
    if a.rid in s.flights && s.flights[a.rid].Redeeming? {
      var f := s.flights[a.rid];
      RedeemingIssued(cfg, s, a.rid);
      FlightAt(cfg, db, h, s, a.rid);
      RedeemingTrace(cfg, db, h, f);
      EndFlightTraced(cfg, db, h, s, a.rid, Redemption(f.code), Dropped);
      EndFlightTraced(cfg, db, h, s, a.rid, Redemption(f.code), Granted(|s.grants|));
      AddGrantTraced(cfg, db, h, EndFlight(s, a.rid, Redemption(f.code), Granted(|s.grants|)), Grant(f.code, f.verifier, TokenFor(f.ac)));
    }
  }

  predicate OutsideRequests(a: Action) {
    a.ATick? || a.APutClient? || a.ADropClient? || a.ASetActive? || a.ARevokeConsent?
  }

  lemma SurroundingsTraced(cfg: Config, db: Database, h: seq<Action>, s: State, a: Action)
    requires Traced(cfg, db, h, s) && OutsideRequests(a)
    ensures Traced(cfg, db, h, Step(cfg, s, a))
  {
    hide WasAsked, WasIssued, WasRedeemed, FlightTraced;
    var s' := Step(cfg, s, a);
    assert s'.pending == s.pending && s'.flights == s.flights && s'.issued == s.issued && s'.grants == s.grants;
    hide Step;
  }

  lemma InvClients(cfg: Config, s: State)
    requires Inv(cfg, s)
    ensures ClientsOk(s)
  {
    hide ClientsOk, PendingOk, FlightsOk, CodesOk, IssuedOk, GrantsOk;
  }

  lemma StepTraced(cfg: Config, db: Database, acts: seq<Action>, a: Action)
    requires var s := Reached(cfg, db, acts); Traced(cfg, db, acts, s) && Inv(cfg, s)
    ensures Traced(cfg, db, acts + [a], Step(cfg, Reached(cfg, db, acts), a))
  {
    hide Reached, Traced, Inv, ClientsOk, Step;
    var s := Reached(cfg, db, acts);
    InvClients(cfg, s);
    TracedLater(cfg, db, acts, a, s);
    match a
    case ABeginAuthorize(_, _, _, _, _, _, _) => BeginAuthorizeTraced(cfg, db, acts, a);
    case AReadConsent(_, _) => ReadConsentTraced(cfg, db, acts, a);
    case AGenerateCode(_, _) => GenerateCodeTraced(cfg, db, acts, a);
    case ABeginSubmit(_, _, _, _, _, _) => BeginSubmitTraced(cfg, db, acts, a);
    case AValidateSubmit(_) => ValidateSubmitTraced(cfg, db, acts, a);
    case ASaveConsent(_, _) => SaveConsentTraced(cfg, db, acts, a);
    case ABeginToken(_, _, _, _, _, _) => BeginTokenTraced(cfg, db, acts, a);
    case AFinishToken(_, _) => FinishTokenTraced(cfg, db, acts, a);
    case _ => SurroundingsTraced(cfg, db, acts + [a], s, a);
  }

  lemma {:induction false} RunTraced(cfg: Config, db: Database, acts: seq<Action>)
    requires db.Keyed()
    ensures Traced(cfg, db, acts, Reached(cfg, db, acts))
  {
    if acts == [] {
      hide WasAsked, WasIssued, WasRedeemed, FlightTraced;
    } else {
      hide Traced, Step, Inv, Database.Keyed;
      var last := |acts| - 1;
      RunTraced(cfg, db, acts[..last]);
      ReachedInv(cfg, db, acts[..last]);
      StepTraced(cfg, db, acts[..last], acts[last]);
      ReachedNext(cfg, db, acts[..last], acts[last]);
      assert acts == acts[..last] + [acts[last]];
    }
  }

  // ----- every code and token of a run comes from its actions -----

  /**
   Behind every code: one Authorize action that was let through and asked for
   it, a later database state the client was read in, a still later one the
   consent was read in or written by, and the action that issued it, with
   exactly the scopes these allow.
   */
  lemma CodeComesFromRun(cfg: Config, db: Database, acts: seq<Action>, code: string)
    requires db.Keyed() && code in Reached(cfg, db, acts).issued
    ensures exists n, m, k, j :: IssuedAt(cfg, db, acts, n, m, k, j, code, Reached(cfg, db, acts).issued[code])
  {
    hide Reached, Traced, IssuedAt;
    RunTraced(cfg, db, acts);
    IssueIn(cfg, db, acts, Reached(cfg, db, acts), code);
  }

  lemma IssueIn(cfg: Config, db: Database, acts: seq<Action>, s: State, code: string)
    requires Traced(cfg, db, acts, s) && code in s.issued
    ensures WasIssued(cfg, db, acts, code, s.issued[code])
  {
    hide PendingTraced, FlightsTraced, GrantsTraced, WasIssued;
  }

  lemma GrantIn(cfg: Config, db: Database, acts: seq<Action>, s: State, i: nat)
    requires Traced(cfg, db, acts, s) && i < |s.grants|
    ensures s.grants[i].code in s.issued
    ensures WasRedeemed(cfg, db, acts, s.grants[i].code, s.issued[s.grants[i].code].ac, s.grants[i].verifier)
  {
    hide PendingTraced, FlightsTraced, IssuedTraced, WasRedeemed;
  }

  /**
   Behind every token: the action that presented its code, and through the code
   the actions and database states of CodeComesFromRun, with the account,
   client, session and scopes found there.
   */
  lemma TokenComesFromRun(cfg: Config, db: Database, acts: seq<Action>, i: nat)
    requires db.Keyed() && i < |Reached(cfg, db, acts).grants|
    ensures var s := Reached(cfg, db, acts);
            var g := s.grants[i];
            && g.code in s.issued
            && var o := s.issued[g.code].origin;
               && (exists n, m, k, j :: IssuedAt(cfg, db, acts, n, m, k, j, g.code, s.issued[g.code]))
               && (exists t :: RedeemedAt(cfg, db, acts, t, g.code, s.issued[g.code].ac, g.verifier))
               && g.token == AccessToken(o.asked.account, o.asked.req.clientId, o.asked.session,
                                         Text.Join(AllowedScopes(o.asked, o.client, o.consented), ' '))
  {
    hide Reached, Traced, IssuedAt, RedeemedAt, AllowedScopes, Text.Join;
    var s := Reached(cfg, db, acts);
    RunTraced(cfg, db, acts);
    GrantIn(cfg, db, acts, s, i);
    CodeComesFromRun(cfg, db, acts, s.grants[i].code);
    var n, m, k, j :| IssuedAt(cfg, db, acts, n, m, k, j, s.grants[i].code, s.issued[s.grants[i].code]);
    IssuedFields(cfg, db, acts, n, m, k, j, s.grants[i].code, s.issued[s.grants[i].code]);
    TokenIsCodes(cfg, db, acts, i);
  }

  lemma IssuedFields(cfg: Config, db: Database, acts: seq<Action>, n: nat, m: nat, k: nat, j: nat, code: string, i: Issue)
    requires IssuedAt(cfg, db, acts, n, m, k, j, code, i)
    ensures i.ac.account == i.origin.asked.account && i.ac.clientId == i.origin.asked.req.clientId
    ensures i.ac.session == i.origin.asked.session && i.ac.scopes == AllowedScopes(i.origin.asked, i.origin.client, i.origin.consented)
    ensures i.ac.scopes != []
  {
    hide ConsentAt, Reached, AllowedScopes;
  }

  lemma TokenIsCodes(cfg: Config, db: Database, acts: seq<Action>, i: nat)
    requires db.Keyed() && i < |Reached(cfg, db, acts).grants|
    ensures var s := Reached(cfg, db, acts);
            s.grants[i].code in s.issued && s.grants[i].token == TokenFor(s.issued[s.grants[i].code].ac)
  {
    hide Run, VerifierOk, PendingOk, CodesOk, FlightsOk, IssuedOk, TokenFor;
    ReachedInv(cfg, db, acts);
    var s := Reached(cfg, db, acts);
    assert GrantOk(cfg, s, i, s.grants[i]);
  }

  // ----- the scopes of a code and what stands when it is issued -----

  /** Registered for the client, permitted to it, and consented, as the database stands. */
  predicate Stands(s: State, account: string, clientId: string, x: string) {
    && clientId in s.clients && s.clients[clientId].MayHave(x)
    && (account, clientId) in s.consents && x in s.consents[(account, clientId)]
  }

  predicate AllStand(s: State, asked: ConsentState, scopes: seq<string>) {
    forall x | x in scopes :: Stands(s, asked.account, asked.req.clientId, x)
  }

  /** Of the client as looked up and the consent as read, every scope token both allow still stands. */
  predicate RightsStand(s: State, account: string, client: Client, consented: seq<string>) {
    forall x | x in consented && IsToken(x) && client.MayHave(x) :: Stands(s, account, client.clientId, x)
  }

  lemma AllowedMember(asked: ConsentState, client: Client, consented: seq<string>, x: string)
    ensures x in AllowedScopes(asked, client, consented) <==> x in Tokens(asked.req.scope) && client.MayHave(x) && x in consented
  {
    hide Tokens, Client.MayHave;
  }

  lemma OneToken(x: string)
    requires IsToken(x)
    ensures Tokens(x) == [x]
  {
    TokensOfJoin([x]);
  }

  /**
   Every request's scopes, fixed from the client and consent read before, still
   stand exactly when the rights these two gave do.
   */
  lemma StandExact(s: State, account: string, client: Client, consented: seq<string>)
    ensures (forall asked: ConsentState | asked.account == account && asked.req.clientId == client.clientId ::
               AllStand(s, asked, AllowedScopes(asked, client, consented)))
       <==> RightsStand(s, account, client, consented)
  {
    hide Tokens, Client.MayHave, AllowedScopes, Stands;
    if RightsStand(s, account, client, consented) {
      forall asked: ConsentState | asked.account == account && asked.req.clientId == client.clientId
        ensures AllStand(s, asked, AllowedScopes(asked, client, consented))
      {
        forall x | x in AllowedScopes(asked, client, consented) ensures Stands(s, account, client.clientId, x) {
          AllowedMember(asked, client, consented, x);
        }
      }
    } else {
      var x :| x in consented && IsToken(x) && client.MayHave(x) && !Stands(s, account, client.clientId, x);
      var asked := ConsentState(account, "", AuthRequest(client.clientId, "", x, "", "", "", ""));
      OneToken(x);
      AllowedMember(asked, client, consented, x);
      assert !AllStand(s, asked, AllowedScopes(asked, client, consented));
    }
  }

  // A request that has read its consent waits with it for its code.

  predicate Ready(f: Flight) {
    f.Allowed? || f.Saved?
  }

  ghost predicate OthersStay(s: State, s': State, rid: nat) {
    forall r | r in s.flights && r != rid :: r in s'.flights && s'.flights[r] == s.flights[r]
  }

  predicate SameDatabase(s: State, s': State) {
    s'.clients == s.clients && s'.consents == s.consents
  }

  lemma BeginAuthorizeStays(cfg: Config, s: State, rid: nat, account: string, session: string, query: AuthRequest,
                            rt: string, rm: string, id: string)
    ensures var s' := BeginAuthorize(cfg, s, rid, account, session, query, rt, rm, id);
            OthersStay(s, s', rid) && (rid in s.flights ==> s' == s) && SameDatabase(s, s')
  {
    hide AuthorizeRefusal, PlusToSpace;
  }

  lemma IssueEndsFlight(cfg: Config, s: State, rid: nat, o: Origin, scopes: seq<string>, code: string)
    ensures IssueCode(cfg, s, rid, o, scopes, code).flights == s.flights - {rid}
    ensures SameDatabase(s, IssueCode(cfg, s, rid, o, scopes, code))
  {
    hide CodeFor;
  }

  lemma GenerateCodeStays(cfg: Config, s: State, rid: nat, code: string)
    ensures OthersStay(s, GenerateCode(cfg, s, rid, code), rid)
    ensures SameDatabase(s, GenerateCode(cfg, s, rid, code))
  {
    hide IssueCode, CodeFieldsPresent;
    if rid in s.flights && Redemption(code) !in s.place && code != "" {
      match s.flights[rid]
      case Allowed(id, asked, client, consented, scopes) =>
        IssueEndsFlight(cfg, s, rid, Origin(Direct(id), asked, client, consented), scopes, code);
      case Saved(id, asked, client, scopes) =>
        IssueEndsFlight(cfg, s, rid, Origin(Form(id), asked, client, scopes), scopes, code);
      case _ =>
    }
  }

  lemma FinishTokenStays(s: State, rid: nat, minted: bool)
    ensures OthersStay(s, FinishToken(s, rid, minted), rid)
    ensures SameDatabase(s, FinishToken(s, rid, minted))
  {
    hide TokenFor;
  }

  lemma OwnStepWaits(cfg: Config, s: State, a: Action)
    requires !OutsideRequests(a) && !a.AGenerateCode? && a.rid in s.flights && Ready(s.flights[a.rid])
    ensures Step(cfg, s, a) == s
  {
  }

  lemma StepStays(cfg: Config, s: State, a: Action)
    requires !OutsideRequests(a)
    ensures OthersStay(s, Step(cfg, s, a), a.rid)
    ensures Step(cfg, s, a).clients == s.clients && (!a.ASaveConsent? ==> SameDatabase(s, Step(cfg, s, a)))
  {
    hide BeginAuthorize, ReadConsent, GenerateCode, BeginSubmit, ValidateSubmit, SaveConsent, BeginToken, FinishToken;
    match a
    case ABeginAuthorize(r, account, session, query, rt, rm, id) => BeginAuthorizeStays(cfg, s, r, account, session, query, rt, rm, id);
    case AReadConsent(r, readOk) => ReadConsentStays(s, r, readOk);
    case AGenerateCode(r, code) => GenerateCodeStays(cfg, s, r, code);
    case ABeginSubmit(r, account, session, form, approved, id) => BeginSubmitStays(s, r, account, session, form, approved, id);
    case AValidateSubmit(r) => ValidateSubmitStays(cfg, s, r);
    case ASaveConsent(r, c) => SaveConsentStays(s, r, c);
    case ABeginToken(r, id, secretOk, code, uri, v) => BeginTokenStays(cfg, s, r, id, secretOk, code, uri, v);
    case AFinishToken(r, minted) => FinishTokenStays(s, r, minted);
  }

  lemma ReadConsentStays(s: State, rid: nat, readOk: bool)
    ensures OthersStay(s, ReadConsent(s, rid, readOk), rid)
    ensures SameDatabase(s, ReadConsent(s, rid, readOk))
  {
    if rid in s.flights && s.flights[rid].Authorizing? {
      ReadConsentMoves(s, rid, readOk);
      hide ReadConsent;
    }
  }

  lemma BeginSubmitStays(s: State, rid: nat, account: string, session: string, form: AuthRequest, approved: bool, id: string)
    ensures OthersStay(s, BeginSubmit(s, rid, account, session, form, approved, id), rid)
    ensures SameDatabase(s, BeginSubmit(s, rid, account, session, form, approved, id))
  {
    if rid !in s.flights {
      BeginSubmitMoves(s, rid, account, session, form, approved, id);
      hide BeginSubmit;
    }
  }

  lemma ValidateSubmitStays(cfg: Config, s: State, rid: nat)
    ensures OthersStay(s, ValidateSubmit(cfg, s, rid), rid)
    ensures SameDatabase(s, ValidateSubmit(cfg, s, rid))
  {
    if rid in s.flights && s.flights[rid].Submitting? {
      ValidateSubmitMoves(cfg, s, rid);
      hide ValidateSubmit;
    }
  }

  lemma SaveConsentStays(s: State, rid: nat, c: Commit)
    ensures OthersStay(s, SaveConsent(s, rid, c), rid) && SaveConsent(s, rid, c).clients == s.clients
  {
    if rid in s.flights && s.flights[rid].Validated? {
      SaveConsentMoves(s, rid, c);
      hide SaveConsent;
    }
  }

  lemma BeginTokenStays(cfg: Config, s: State, rid: nat, clientId: string, secretOk: bool, code: string, redirectURI: string, codeVerifier: string)
    ensures OthersStay(s, BeginToken(cfg, s, rid, clientId, secretOk, code, redirectURI, codeVerifier), rid)
    ensures SameDatabase(s, BeginToken(cfg, s, rid, clientId, secretOk, code, redirectURI, codeVerifier))
  {
    if rid !in s.flights {
      BeginTokenMoves(cfg, s, rid, clientId, secretOk, code, redirectURI, codeVerifier);
      hide BeginToken;
    }
  }

  lemma ReadyWaits(cfg: Config, s: State, a: Action, rid: nat)
    requires rid in s.flights && Ready(s.flights[rid]) && !(a.AGenerateCode? && a.rid == rid)
    ensures var s' := Step(cfg, s, a); rid in s'.flights && s'.flights[rid] == s.flights[rid]
  {
    if OutsideRequests(a) {
      assert Step(cfg, s, a).flights == s.flights;
    } else if a.rid == rid {
      hide Step;
      OwnStepWaits(cfg, s, a);
    } else {
      hide Step;
      StepStays(cfg, s, a);
    }
  }

  lemma {:induction false} ReadyWaitsRun(cfg: Config, s: State, acts: seq<Action>, rid: nat)
    requires rid in s.flights && Ready(s.flights[rid])
    requires forall n | 0 <= n < |acts| :: !(acts[n].AGenerateCode? && acts[n].rid == rid)
    ensures var s' := Run(cfg, s, acts); rid in s'.flights && s'.flights[rid] == s.flights[rid]
  {
    hide Step;
    if acts != [] {
      ReadyWaitsRun(cfg, s, acts[..|acts| - 1], rid);
      ReadyWaits(cfg, Run(cfg, s, acts[..|acts| - 1]), acts[|acts| - 1], rid);
    }
  }

  // What changes the rights a pair of account and client has.

  predicate ChangesClient(a: Action, clientId: string) {
    (a.APutClient? && a.client.clientId == clientId) || (a.ADropClient? && a.clientId == clientId)
  }

  predicate ChangesConsent(s: State, a: Action, account: string, clientId: string) {
    || (a.ARevokeConsent? && a.account == account && a.clientId == clientId)
    || (a.ASaveConsent? && a.rid in s.flights && s.flights[a.rid].Validated?
        && s.flights[a.rid].asked.account == account && s.flights[a.rid].asked.req.clientId == clientId)
  }

  lemma ClientStep(cfg: Config, s: State, a: Action, client: Client)
    requires Holds(s, client) && !ChangesClient(a, client.clientId)
    ensures Holds(Step(cfg, s, a), client)
  {
    if OutsideRequests(a) {
    } else {
      StepStays(cfg, s, a);
      hide Step;
    }
  }

  lemma ConsentStep(cfg: Config, s: State, a: Action, asked: ConsentState, consented: seq<string>)
    requires HoldsConsent(s, asked, consented) && !ChangesConsent(s, a, asked.account, asked.req.clientId)
    ensures HoldsConsent(Step(cfg, s, a), asked, consented)
  {
    if OutsideRequests(a) {
    } else if a.ASaveConsent? {
      SaveConsentFrame(s, a.rid, a.c, asked.account, asked.req.clientId);
      hide SaveConsent;
    } else {
      StepStays(cfg, s, a);
      hide Step;
    }
  }

  lemma SaveConsentFrame(s: State, rid: nat, c: Commit, account: string, clientId: string)
    requires rid in s.flights && s.flights[rid].Validated? ==>
               s.flights[rid].asked.account != account || s.flights[rid].asked.req.clientId != clientId
    ensures var s' := SaveConsent(s, rid, c);
            && ((account, clientId) in s'.consents <==> (account, clientId) in s.consents)
            && ((account, clientId) in s.consents ==> s'.consents[(account, clientId)] == s.consents[(account, clientId)])
  {
    hide ConsentAccepts;
  }

  lemma {:induction false} ClientRun(cfg: Config, db: Database, acts: seq<Action>, m: nat, j: nat, client: Client)
    requires m <= j <= |acts| && Holds(Reached(cfg, db, acts[..m]), client)
    requires forall p | m <= p < j :: !ChangesClient(acts[p], client.clientId)
    ensures Holds(Reached(cfg, db, acts[..j]), client)
  {
    hide Holds, Reached, ChangesClient;
    if m < j {
      ClientRun(cfg, db, acts, m, j - 1, client);
      assert acts[..j - 1] + [acts[j - 1]] == acts[..j];
      ReachedNext(cfg, db, acts[..j - 1], acts[j - 1]);
      ClientStep(cfg, Reached(cfg, db, acts[..j - 1]), acts[j - 1], client);
    }
  }

  lemma {:induction false} ConsentRun(cfg: Config, db: Database, acts: seq<Action>, k: nat, j: nat, asked: ConsentState, consented: seq<string>)
    requires k <= j <= |acts| && HoldsConsent(Reached(cfg, db, acts[..k]), asked, consented)
    requires forall p | k <= p < j :: !ChangesConsent(Reached(cfg, db, acts[..p]), acts[p], asked.account, asked.req.clientId)
    ensures HoldsConsent(Reached(cfg, db, acts[..j]), asked, consented)
  {
    hide HoldsConsent, Reached, ChangesConsent;
    if k < j {
      ConsentRun(cfg, db, acts, k, j - 1, asked, consented);
      assert acts[..j - 1] + [acts[j - 1]] == acts[..j];
      ReachedNext(cfg, db, acts[..j - 1], acts[j - 1]);
      ConsentStep(cfg, Reached(cfg, db, acts[..j - 1]), acts[j - 1], asked, consented);
    }
  }

  /**
   The scopes of an issued code stand when it is issued, if from the reads on no
   action of the run changed the client or the consent.
   */
  lemma UnchangedSinceRead(cfg: Config, db: Database, acts: seq<Action>, n: nat, m: nat, k: nat, j: nat, code: string, i: Issue)
    requires db.Keyed() && IssuedAt(cfg, db, acts, n, m, k, j, code, i)
    requires forall p | m <= p < j :: !ChangesClient(acts[p], i.origin.client.clientId)
    requires forall p | k <= p < j :: !ChangesConsent(Reached(cfg, db, acts[..p]), acts[p], i.origin.asked.account, i.origin.asked.req.clientId)
    ensures AllStand(Reached(cfg, db, acts[..j]), i.origin.asked, i.ac.scopes)
  {
    hide Reached, AskedAt, ChangesClient, ChangesConsent, AllowedScopes, Client.MayHave, Holds, HoldsConsent;
    var o := i.origin;
    ClientRun(cfg, db, acts, m, j, o.client);
    ConsentRun(cfg, db, acts, k, j, o.asked, o.consented);
    HeldStand(Reached(cfg, db, acts[..j]), o.asked, o.client, o.consented);
  }

  lemma HeldStand(s: State, asked: ConsentState, client: Client, consented: seq<string>)
    requires Holds(s, client) && HoldsConsent(s, asked, consented) && client.clientId == asked.req.clientId
    ensures AllStand(s, asked, AllowedScopes(asked, client, consented))
  {
    hide AllowedScopes, Client.MayHave;
    forall x | x in AllowedScopes(asked, client, consented) ensures Stands(s, asked.account, asked.req.clientId, x) {
      AllowedMember(asked, client, consented, x);
    }
  }

  lemma {:induction false} RunConcat(cfg: Config, s: State, acts: seq<Action>, more: seq<Action>)
    ensures Run(cfg, s, acts + more) == Run(cfg, Run(cfg, s, acts), more)
  {
    if more == [] {
      assert acts + more == acts;
    } else {
      hide Step;
      var last := |more| - 1;
      RunConcat(cfg, s, acts, more[..last]);
      assert (acts + more)[..|acts| + last] == acts + more[..last];
    }
  }

  /** The consent a waiting request goes by: the one read, or the one its form saved. */
  function ConsentOf(f: Flight): seq<string>
    requires Ready(f)
  {
    match f case Allowed(_, _, _, consented, _) => consented case Saved(_, _, _, scopes) => scopes
  }

  lemma ReadyScopes(cfg: Config, db: Database, acts: seq<Action>, rid: nat)
    requires db.Keyed() && rid in Reached(cfg, db, acts).flights && Ready(Reached(cfg, db, acts).flights[rid])
    ensures var f := Reached(cfg, db, acts).flights[rid]; f.scopes == AllowedScopes(f.asked, f.client, ConsentOf(f))
  {
    hide Reached, Traced, FlightTraced, AllowedScopes;
    var s := Reached(cfg, db, acts);
    RunTraced(cfg, db, acts);
    FlightAt(cfg, db, acts, s, rid);
    if s.flights[rid].Allowed? { AllowedTrace(cfg, db, acts, s.flights[rid]); } else { SavedTrace(cfg, db, acts, s.flights[rid]); }
  }

  lemma ReadyIssues(cfg: Config, s: State, rid: nat, code: string)
    requires rid in s.flights && Ready(s.flights[rid]) && Redemption(code) !in s.place && code != ""
    requires CodeFieldsPresent(s.flights[rid].asked)
    ensures var s' := Step(cfg, s, AGenerateCode(rid, code));
            code in s'.issued && s'.issued[code].ac.scopes == s.flights[rid].scopes
  {
    hide CodeFieldsPresent;
  }

  /**
   Whatever happens between a request's last read and its code, the code has the
   scopes fixed by the reads.  They stand at issue exactly when every requested
   scope that the client as read might have and the consent as read covered does.
   */
  lemma ScopesAtIssue(cfg: Config, db: Database, acts: seq<Action>, middle: seq<Action>, rid: nat, code: string)
    requires db.Keyed() && rid in Reached(cfg, db, acts).flights && Ready(Reached(cfg, db, acts).flights[rid])
    requires CodeFieldsPresent(Reached(cfg, db, acts).flights[rid].asked)
    requires forall n | 0 <= n < |middle| :: !(middle[n].AGenerateCode? && middle[n].rid == rid)
    requires Redemption(code) !in Reached(cfg, db, acts + middle).place && code != ""
    ensures var f := Reached(cfg, db, acts).flights[rid];
            var t := Reached(cfg, db, acts + middle);
            var u := Reached(cfg, db, acts + middle + [AGenerateCode(rid, code)]);
            && code in u.issued
            && u.issued[code].ac.scopes == AllowedScopes(f.asked, f.client, ConsentOf(f))
            && (AllStand(t, f.asked, u.issued[code].ac.scopes) <==>
                forall x | x in Tokens(f.asked.req.scope) && f.client.MayHave(x) && x in ConsentOf(f) ::
                  Stands(t, f.asked.account, f.asked.req.clientId, x))
  {
    hide Run, Step, Tokens, Client.MayHave, AllowedScopes, Stands, CodeFieldsPresent;
    var s := Reached(cfg, db, acts);
    var f := s.flights[rid];
    var t := Reached(cfg, db, acts + middle);
    ReadyScopes(cfg, db, acts, rid);
    RunConcat(cfg, Init(db), acts, middle);
    ReadyWaitsRun(cfg, s, middle, rid);
    ReachedNext(cfg, db, acts + middle, AGenerateCode(rid, code));
    hide Reached;
    ReadyIssues(cfg, t, rid, code);
    forall x ensures x in f.scopes <==> x in Tokens(f.asked.req.scope) && f.client.MayHave(x) && x in ConsentOf(f) {
      AllowedMember(f.asked, f.client, ConsentOf(f), x);
    }
  }
}
