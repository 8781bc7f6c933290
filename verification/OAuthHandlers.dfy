/**
 The handlers of the authorization-code protocol run from start to end, with
 no other request in between, and what an interleaving can change about them.
 */
module OAuthHandlers {
  import opened Common
  import opened OAuthClient
  import opened OAuthProtocol

  function Authorize(cfg: Config, s: State, rid: nat, account: string, session: string, query: AuthRequest,
                     rt: string, rm: string, consentId: string, code: string): State
  {
    GenerateCode(cfg, ReadConsent(BeginAuthorize(cfg, s, rid, account, session, query, rt, rm, consentId), rid, true), rid, code)
  }

  function SubmitConsent(cfg: Config, s: State, rid: nat, account: string, session: string, form: AuthRequest,
                         approved: bool, consentId: string, c: Commit, code: string): State
  {
    GenerateCode(cfg, SaveConsent(ValidateSubmit(cfg, BeginSubmit(s, rid, account, session, form, approved, consentId), rid),
                                  rid, c), rid, code)
  }

  /** Fresh identifiers, as uuid.New and rand.Read give them. */
  predicate FreshIds(s: State, rid: nat, consentId: string, code: string) {
    rid !in s.flights && FreshConsentId(s, consentId) && Redemption(code) !in s.place && code != ""
  }

  function Query(query: AuthRequest): AuthRequest {
    query.(scope := PlusToSpace(query.scope))
  }

  /** The scopes an earlier consent lets Authorize grant without a page. */
  function Remembered(s: State, asked: ConsentState): (scopes: seq<string>)
    requires asked.req.clientId in s.clients
    ensures forall x | x in scopes ::
              && (asked.account, asked.req.clientId) in s.consents
              && x in Tokens(asked.req.scope)
              && s.clients[asked.req.clientId].MayHave(x)
              && x in s.consents[(asked.account, asked.req.clientId)]
  {
    var key := (asked.account, asked.req.clientId);
    if key !in s.consents then [] else AllowedScopes(asked, s.clients[asked.req.clientId], s.consents[key])
  }

  function Opened(cfg: Config, s: State, rid: nat, asked: ConsentState, id: string): State
    requires asked.req.clientId in s.clients
  {
    s.(pending := s.pending[id := Pending(asked, s.now + STATE_TTL_MS)],
       place := s.place[Form(id) := Free][Direct(id) := Held(rid)],
       flights := s.flights[rid := Authorizing(id, asked, s.clients[asked.req.clientId])])
  }

  /** A refused request changes nothing; an accepted one stores its consent state. */
  lemma AuthorizeOpens(cfg: Config, s: State, rid: nat, account: string, session: string, query: AuthRequest,
                       rt: string, rm: string, id: string)
    requires rid !in s.flights && FreshConsentId(s, id)
    ensures var q := Query(query);
            var s' := BeginAuthorize(cfg, s, rid, account, session, query, rt, rm, id);
            && (AuthorizeRefusal(cfg, s, account, q, rt, rm) != "" ==> s' == s)
            && (AuthorizeRefusal(cfg, s, account, q, rt, rm) == "" ==>
                  q.clientId in s.clients && s' == Opened(cfg, s, rid, ConsentState(account, session, q), id))
  {
    hide PlusToSpace;
  }

  /** The end of an opened request: the page goes out, or a code, or nothing. */
  function Closed(cfg: Config, s: State, rid: nat, asked: ConsentState, id: string, code: string): State
    requires asked.req.clientId in s.clients
  {
    var o := Opened(cfg, s, rid, asked, id);
    var client := s.clients[asked.req.clientId];
    if Remembered(s, asked) == [] then EndFlight(o, rid, Direct(id), Dropped).(rendered := s.rendered + {id})
    else
      var a := o.(flights := o.flights[rid := Allowed(id, asked, client, s.consents[(asked.account, asked.req.clientId)], Remembered(s, asked))]);
      if !CodeFieldsPresent(asked) then EndFlight(a, rid, Direct(id), Dropped)
      else IssueCode(cfg, a, rid, Origin(Direct(id), asked, client, s.consents[(asked.account, asked.req.clientId)]), Remembered(s, asked), code)
  }

  lemma OpenedCloses(cfg: Config, s: State, rid: nat, asked: ConsentState, id: string, code: string)
    requires asked.req.clientId in s.clients && FreshIds(s, rid, id, code)
    ensures GenerateCode(cfg, ReadConsent(Opened(cfg, s, rid, asked, id), rid, true), rid, code) == Closed(cfg, s, rid, asked, id, code)
  {
    hide AllowedScopes, IssueCode, CodeFieldsPresent;
  }

  /** What the end of Authorize leaves: page or code, the stored form, the database untouched. */
  lemma ClosedEnds(cfg: Config, s: State, rid: nat, asked: ConsentState, id: string, code: string)
    requires asked.req.clientId in s.clients && FreshIds(s, rid, id, code) && code !in s.issued
    ensures var s' := Closed(cfg, s, rid, asked, id, code);
            && (code in s'.issued <==> Remembered(s, asked) != [] && CodeFieldsPresent(asked))
            && (code in s'.issued ==> s'.issued[code].origin.ticket == Direct(id)
                                      && s'.issued[code].ac.scopes == Remembered(s, asked))
            && id in s'.pending && s'.pending[id] == Pending(asked, s.now + STATE_TTL_MS)
            && s'.clients == s.clients && s'.active == s.active && s'.now == s.now && rid !in s'.flights
            && (forall d | d != code && Redemption(d) !in s.place :: Redemption(d) !in s'.place)
            && (forall d | d != code && d !in s.issued :: d !in s'.issued)
  {
    hide AllowedScopes, Remembered;
  }

  predicate SkipsPage(cfg: Config, s: State, asked: ConsentState, rt: string, rm: string) {
    && AuthorizeRefusal(cfg, s, asked.account, asked.req, rt, rm) == ""
    && asked.req.clientId in s.clients
    && Remembered(s, asked) != []
    && CodeFieldsPresent(asked)
  }

  /**
   Uninterrupted, Authorize issues a code exactly when it may skip the page,
   and the code's scopes are the requested ones that the client's registration
   and the consent allow, both as they stand at that moment.
   */
  lemma AuthorizeIssues(cfg: Config, s: State, rid: nat, account: string, session: string, query: AuthRequest,
                        rt: string, rm: string, id: string, code: string)
    requires Inv(cfg, s) && FreshIds(s, rid, id, code)
    ensures var s' := Authorize(cfg, s, rid, account, session, query, rt, rm, id, code);
            var asked := ConsentState(account, session, Query(query));
            && (code in s'.issued <==> SkipsPage(cfg, s, asked, rt, rm))
            && (code in s'.issued ==>
                  && s'.issued[code].origin.ticket == Direct(id)
                  && forall x | x in s'.issued[code].ac.scopes ::
                       && x in Tokens(asked.req.scope)
                       && s.clients[query.clientId].MayHave(x)
                       && x in s.consents[(account, query.clientId)])
  {
    var asked := ConsentState(account, session, Query(query));
    CodeNotIssued(cfg, s, code);
    hide Inv, AuthorizeRefusal, BeginAuthorize, Opened, Tokens, Client.MayHave, PlusToSpace, ReadConsent;
    AuthorizeOpens(cfg, s, rid, account, session, query, rt, rm, id);
    if AuthorizeRefusal(cfg, s, account, Query(query), rt, rm) == "" {
      OpenedCloses(cfg, s, rid, asked, id, code);
      ClosedEnds(cfg, s, rid, asked, id, code);
      hide GenerateCode, AllowedScopes, Closed;
    } else {
      OverStays(cfg, s, rid, Committed, code);
    }
  }

  lemma CodeNotIssued(cfg: Config, s: State, code: string)
    requires Inv(cfg, s) && Redemption(code) !in s.place
    ensures code !in s.issued
  {
    hide FlightsOk, GrantsOk, PendingOk, CodesOk;
    assert forall c | c in s.issued :: Redemption(c) in s.place;
  }

  // ----- the form -----

  /** What lets a submitted form through to a code. */
  predicate FormSucceeds(cfg: Config, s: State, asked: ConsentState, id: string) {
    && id in s.pending && s.now <= s.pending[id].expireAt && s.pending[id].asked == asked && id != ""
    && asked.req.scope != ""
    && SubmitRefusal(cfg, s, asked) == ""
    && asked.req.clientId in s.clients
    && ConsentAccepts(asked, s.clients[asked.req.clientId].ValidScopes(Tokens(asked.req.scope)))
    && CodeFieldsPresent(asked)
  }

  function Taken(s: State, rid: nat, asked: ConsentState, id: string): State {
    s.(pending := s.pending - {id}, place := s.place[Form(id) := Held(rid)], flights := s.flights[rid := Submitting(id, asked)])
  }

  /** What BeginSubmit compares before the request goes on. */
  predicate FormMatches(s: State, asked: ConsentState, id: string) {
    && asked.req.clientId != "" && asked.req.redirectURI != "" && asked.req.scope != "" && id != ""
    && id in s.pending && s.now <= s.pending[id].expireAt && s.pending[id].asked == asked
  }

  lemma FormTaken(s: State, rid: nat, asked: ConsentState, approved: bool, id: string)
    requires rid !in s.flights
    ensures var b := BeginSubmit(s, rid, asked.account, asked.session, asked.req, approved, id);
            && (rid in b.flights <==> approved && FormMatches(s, asked, id))
            && (rid in b.flights ==> b == Taken(s, rid, asked, id))
            && b.issued == s.issued
  {
  }

  /** From a matching form: validated, saved, and then a code, or the end. */
  lemma TakenEnds(cfg: Config, s: State, rid: nat, asked: ConsentState, id: string, c: Commit, code: string)
    requires rid !in s.flights && Redemption(code) !in s.place && code != "" && code !in s.issued && FormMatches(s, asked, id)
    ensures var s' := GenerateCode(cfg, SaveConsent(ValidateSubmit(cfg, Taken(s, rid, asked, id), rid), rid, c), rid, code);
            && (code in s'.issued <==> FormSucceeds(cfg, s, asked, id) && c.Committed?)
            && (code in s'.issued ==> s'.issued[code].origin.ticket == Form(id))
            && (forall d | d in s.issued :: d in s'.issued && s'.issued[d] == s.issued[d])
  {
    hide ConsentAccepts, Tokens, Client.ValidScopes, SubmitRefusal, ValidateSubmit, SaveConsent, GenerateCode, CodeFieldsPresent, FormMatches;
    var t := Taken(s, rid, asked, id);
    RefusalByDatabase(cfg, s, t, asked);
    SubmittedValidates(cfg, t, rid);
    var v := ValidateSubmit(cfg, t, rid);
    SucceedsExactly(cfg, s, asked, id);
    if rid in v.flights { ValidatedEnds(cfg, v, rid, c, code); } else { OverStays(cfg, v, rid, c, code); }
  }

  lemma SubmittedValidates(cfg: Config, s: State, rid: nat)
    requires rid in s.flights && s.flights[rid].Submitting?
    ensures var f := s.flights[rid];
            var v := ValidateSubmit(cfg, s, rid);
            && v.issued == s.issued && v.place.Keys <= s.place.Keys + {Form(f.consentId)}
            && (rid in v.flights <==> SubmitRefusal(cfg, s, f.asked) == "")
            && (rid in v.flights ==>
                  && f.asked.req.clientId in s.clients
                  && var client := s.clients[f.asked.req.clientId];
                     v.flights[rid] == Validated(f.consentId, f.asked, client, client.ValidScopes(Tokens(f.asked.req.scope))))
  {
    hide Tokens, Client.ValidScopes;
    var f := s.flights[rid];
    RefusalByDatabase(cfg, s, s, f.asked);
    hide SubmitRefusal;
  }

  lemma RefusalByDatabase(cfg: Config, s: State, t: State, asked: ConsentState)
    requires t.clients == s.clients && t.active == s.active
    ensures SubmitRefusal(cfg, t, asked) == SubmitRefusal(cfg, s, asked)
    ensures SubmitRefusal(cfg, s, asked) == "" ==> asked.req.clientId in s.clients
  {
    hide Tokens, Client.ValidScopes;
  }

  /** After the form has matched, these decide. */
  lemma SucceedsExactly(cfg: Config, s: State, asked: ConsentState, id: string)
    requires FormMatches(s, asked, id)
    ensures FormSucceeds(cfg, s, asked, id) <==>
              && SubmitRefusal(cfg, s, asked) == "" && asked.req.clientId in s.clients
              && var scopes := s.clients[asked.req.clientId].ValidScopes(Tokens(asked.req.scope));
                 ConsentAccepts(asked, scopes) && CodeFieldsPresent(asked)
  {
    hide SubmitRefusal, ConsentAccepts, Tokens, Client.ValidScopes;
  }

  lemma SucceedsMatches(cfg: Config, s: State, asked: ConsentState, id: string)
    requires FormSucceeds(cfg, s, asked, id)
    ensures FormMatches(s, asked, id)
  {
    hide SubmitRefusal, ConsentAccepts;
  }

  /** Uninterrupted, exactly an approved form that succeeds and whose consent is saved ends in a code, issued for that form. */
  lemma SubmitIssues(cfg: Config, s: State, rid: nat, asked: ConsentState, approved: bool, id: string, c: Commit, code: string)
    requires Inv(cfg, s) && rid !in s.flights && Redemption(code) !in s.place && code != ""
    ensures var s' := SubmitConsent(cfg, s, rid, asked.account, asked.session, asked.req, approved, id, c, code);
            && (code in s'.issued <==> FormSucceeds(cfg, s, asked, id) && approved && c.Committed?)
            && (code in s'.issued ==> s'.issued[code].origin.ticket == Form(id))
  {
    hide Inv, BeginSubmit, ValidateSubmit, SaveConsent, GenerateCode, FormSucceeds, FormMatches, Taken;
    CodeNotIssued(cfg, s, code);
    if FormSucceeds(cfg, s, asked, id) { SucceedsMatches(cfg, s, asked, id); }
    FormTaken(s, rid, asked, approved, id);
    if approved && FormMatches(s, asked, id) {
      TakenEnds(cfg, s, rid, asked, id, c, code);
    } else {
      OverStays(cfg, BeginSubmit(s, rid, asked.account, asked.session, asked.req, approved, id), rid, c, code);
    }
  }

  /** The later steps of a request that is over do nothing. */
  lemma OverStays(cfg: Config, s: State, rid: nat, c: Commit, code: string)
    requires rid !in s.flights
    ensures ReadConsent(s, rid, true) == s
    ensures ValidateSubmit(cfg, s, rid) == s && SaveConsent(s, rid, c) == s && GenerateCode(cfg, s, rid, code) == s
  {
  }

  lemma ValidatedSaves(s: State, rid: nat, c: Commit)
    requires rid in s.flights && s.flights[rid].Validated?
    ensures var f := s.flights[rid];
            var w := SaveConsent(s, rid, c);
            && w.issued == s.issued && w.place.Keys <= s.place.Keys + {Form(f.consentId)}
            && (rid in w.flights <==> c.Committed? && ConsentAccepts(f.asked, f.scopes))
            && (rid in w.flights ==> w.flights[rid] == Saved(f.consentId, f.asked, f.client, f.scopes))
  {
    hide ConsentAccepts;
  }

  lemma SavedIssues(cfg: Config, s: State, rid: nat, code: string)
    requires rid in s.flights && s.flights[rid].Saved?
    requires Redemption(code) !in s.place && code != "" && code !in s.issued
    ensures var f := s.flights[rid];
            var s' := GenerateCode(cfg, s, rid, code);
            && (code in s'.issued <==> CodeFieldsPresent(f.asked))
            && (code in s'.issued ==> s'.issued[code].origin.ticket == Form(f.consentId))
            && (forall d | d in s.issued :: d in s'.issued && s'.issued[d] == s.issued[d])
  {
    hide CodeFieldsPresent;
  }

  lemma ValidatedEnds(cfg: Config, s: State, rid: nat, c: Commit, code: string)
    requires rid in s.flights && s.flights[rid].Validated?
    requires Redemption(code) !in s.place && code != "" && code !in s.issued
    ensures var f := s.flights[rid];
            var s' := GenerateCode(cfg, SaveConsent(s, rid, c), rid, code);
            && (code in s'.issued <==> c.Committed? && ConsentAccepts(f.asked, f.scopes) && CodeFieldsPresent(f.asked))
            && (code in s'.issued ==> s'.issued[code].origin.ticket == Form(f.consentId))
            && (forall d | d in s.issued :: d in s'.issued && s'.issued[d] == s.issued[d])
  {
    hide ConsentAccepts, CodeFieldsPresent, SaveConsent, GenerateCode;
    ValidatedSaves(s, rid, c);
    var w := SaveConsent(s, rid, c);
    if rid in w.flights { SavedIssues(cfg, w, rid, code); } else { OverStays(cfg, w, rid, c, code); }
  }

  // ----- one consent id, two codes -----

  lemma NoTokens()
    ensures Tokens("") == []
  {
    TokensOfJoin([]);
  }

  lemma RememberedIsValid(s: State, asked: ConsentState)
    requires asked.req.clientId in s.clients && Remembered(s, asked) != []
    ensures s.clients[asked.req.clientId].ValidScopes(Tokens(asked.req.scope)) != [] && asked.req.scope != ""
  {
    hide Tokens, Client.MayHave, AllowedScopes, Remembered;
    NoTokens();
    var x := Remembered(s, asked)[0];
    assert x in Tokens(asked.req.scope);
    assert x in s.clients[asked.req.clientId].ValidScopes(Tokens(asked.req.scope));
  }

  lemma SkippedFormSucceeds(cfg: Config, s: State, s': State, asked: ConsentState, id: string, rt: string, rm: string)
    requires SkipsPage(cfg, s, asked, rt, rm) && id != ""
    requires s'.clients == s.clients && s'.active == s.active && s'.now == s.now
    requires id in s'.pending && s'.pending[id] == Pending(asked, s.now + STATE_TTL_MS)
    requires ConsentAccepts(asked, s.clients[asked.req.clientId].ValidScopes(Tokens(asked.req.scope)))
    ensures FormSucceeds(cfg, s', asked, id)
  {
    hide Tokens, Client.ValidScopes, ConsentAccepts, AllowedScopes, Remembered;
    RememberedIsValid(s, asked);
  }

  /** A form of its own still waits behind an Authorize that skipped the page. */
  lemma UnshownFormIssuesToo(cfg: Config, s: State, rid: nat, asked: ConsentState, id: string, c: string, d: string)
    requires Inv(cfg, s) && FreshIds(s, rid, id, c) && FreshIds(s, rid, id, d) && c != d && id != ""
    requires Query(asked.req) == asked.req && SkipsPage(cfg, s, asked, "code", "")
    requires ConsentAccepts(asked, s.clients[asked.req.clientId].ValidScopes(Tokens(asked.req.scope)))
    ensures var s1 := Authorize(cfg, s, rid, asked.account, asked.session, asked.req, "code", "", id, c);
            var s2 := SubmitConsent(cfg, s1, rid, asked.account, asked.session, asked.req, true, id, Committed, d);
            && c in s2.issued && s2.issued[c].origin.ticket == Direct(id)
            && d in s2.issued && s2.issued[d].origin.ticket == Form(id)
  {
    hide Inv, BeginAuthorize, ReadConsent, GenerateCode, Tokens, Client.MayHave, ConsentAccepts, AllowedScopes;
    hide AuthorizeRefusal, PlusToSpace, FormSucceeds, Opened, Remembered, Closed;
    CodeNotIssued(cfg, s, c);
    CodeNotIssued(cfg, s, d);
    AuthorizeOpens(cfg, s, rid, asked.account, asked.session, asked.req, "code", "", id);
    OpenedCloses(cfg, s, rid, asked, id, c);
    ClosedEnds(cfg, s, rid, asked, id, c);
    var s1 := Authorize(cfg, s, rid, asked.account, asked.session, asked.req, "code", "", id, c);
    SkippedFormSucceeds(cfg, s, s1, asked, id, "code", "");
    hide SkipsPage;
    SucceedsMatches(cfg, s1, asked, id);
    FormTaken(s1, rid, asked, true, id);
    TakenEnds(cfg, s1, rid, asked, id, Committed, d);
  }

  // ----- consent as it stands at issue -----

  /** The consent withdrawn between the read and the issue: the code goes out all the same. */
  lemma RevokedBeforeIssue(cfg: Config, s: State, rid: nat, asked: ConsentState, id: string, code: string)
    requires FreshIds(s, rid, id, code) && Query(asked.req) == asked.req && SkipsPage(cfg, s, asked, "code", "")
    ensures var s1 := ReadConsent(BeginAuthorize(cfg, s, rid, asked.account, asked.session, asked.req, "code", "", id), rid, true);
            var s2 := Step(cfg, s1, ARevokeConsent(asked.account, asked.req.clientId));
            var s3 := Step(cfg, s2, AGenerateCode(rid, code));
            && code in s3.issued && s3.issued[code].ac.scopes != []
            && (asked.account, asked.req.clientId) !in s2.consents
  {
    hide PlusToSpace, AuthorizeRefusal, BeginAuthorize, AllowedScopes, Tokens, Client.MayHave;
    AuthorizeOpens(cfg, s, rid, asked.account, asked.session, asked.req, "code", "", id);
    var r := ReadConsent(Opened(cfg, s, rid, asked, id), rid, true);
    assert r.flights[rid].Allowed? && r.flights[rid].scopes == Remembered(s, asked);
  }

  // ----- a run in which both happen -----

  const SAMPLE_CONFIG := Config((v: string) => v, (uri: string) => true, 60_000, true)
  const SAMPLE_CLIENT := Client("c", ["https://rp"], ["authorization_code"], ["mail"], true, map[])
  const SAMPLE_DB := Database(map["c" := SAMPLE_CLIENT], {"a"}, map[("a", "c") := ["mail"]])
  const SAMPLE_ASKED := ConsentState("a", "sid", AuthRequest("c", "https://rp", "mail", "st", "challenge", "S256", ""))

  lemma SampleTokens()
    ensures Tokens("mail") == ["mail"]
  {
    TokensOfJoin(["mail"]);
  }

  lemma SamplePlus()
    ensures PlusToSpace("mail") == "mail"
  {
  }

  lemma SampleScopes()
    ensures SAMPLE_CLIENT.ValidScopes(["mail"]) == ["mail"]
    ensures AllowedScopes(SAMPLE_ASKED, SAMPLE_CLIENT, ["mail"]) == ["mail"]
  {
    SampleTokens();
    hide Tokens;
    assert ["mail"][..0] == [];
    assert SAMPLE_CLIENT.MayHave("mail");
  }

  lemma SampleSkips()
    ensures SAMPLE_DB.Keyed()
    ensures SkipsPage(SAMPLE_CONFIG, Init(SAMPLE_DB), SAMPLE_ASKED, "code", "")
    ensures Query(SAMPLE_ASKED.req) == SAMPLE_ASKED.req
    ensures ConsentAccepts(SAMPLE_ASKED, SAMPLE_CLIENT.ValidScopes(Tokens(SAMPLE_ASKED.req.scope)))
  {
    SamplePlus();
    SampleTokens();
    SampleScopes();
    hide AllowedScopes, Tokens, PlusToSpace, Client.ValidScopes;
  }

  lemma RunExtend(cfg: Config, s: State, acts: seq<Action>, a: Action)
    ensures Run(cfg, s, acts + [a]) == Step(cfg, Run(cfg, s, acts), a)
  {
    hide Step;
    assert (acts + [a])[..|acts|] == acts;
  }

  function AuthorizeActions(rid: nat, asked: ConsentState, id: string, code: string): seq<Action> {
    [ABeginAuthorize(rid, asked.account, asked.session, asked.req, "code", "", id)] + [AReadConsent(rid, true)] + [AGenerateCode(rid, code)]
  }

  function SubmitActions(rid: nat, asked: ConsentState, id: string, code: string): seq<Action> {
    [ABeginSubmit(rid, asked.account, asked.session, asked.req, true, id)] + [AValidateSubmit(rid)] + [ASaveConsent(rid, Committed)] + [AGenerateCode(rid, code)]
  }

  /** The uninterrupted handlers are runs. */
  lemma AuthorizeIsRun(cfg: Config, s: State, rid: nat, asked: ConsentState, id: string, code: string)
    ensures Run(cfg, s, AuthorizeActions(rid, asked, id, code))
         == Authorize(cfg, s, rid, asked.account, asked.session, asked.req, "code", "", id, code)
  {
    hide Run, BeginAuthorize, ReadConsent, GenerateCode;
    var a0 := ABeginAuthorize(rid, asked.account, asked.session, asked.req, "code", "", id);
    assert Run(cfg, s, []) == s by { RunEmpty(cfg, s); }
    RunExtend(cfg, s, [], a0);
    assert [] + [a0] == [a0];
    RunExtend(cfg, s, [a0], AReadConsent(rid, true));
    RunExtend(cfg, s, [a0] + [AReadConsent(rid, true)], AGenerateCode(rid, code));
  }

  lemma RunEmpty(cfg: Config, s: State)
    ensures Run(cfg, s, []) == s
  {
  }

  lemma SubmitIsRun(cfg: Config, s: State, acts: seq<Action>, rid: nat, asked: ConsentState, id: string, code: string)
    ensures Run(cfg, s, acts + SubmitActions(rid, asked, id, code))
         == SubmitConsent(cfg, Run(cfg, s, acts), rid, asked.account, asked.session, asked.req, true, id, Committed, code)
  {
    hide Run, BeginSubmit, ValidateSubmit, SaveConsent, GenerateCode;
    var a0 := ABeginSubmit(rid, asked.account, asked.session, asked.req, true, id);
    RunExtend(cfg, s, acts, a0);
    RunExtend(cfg, s, acts + [a0], AValidateSubmit(rid));
    RunExtend(cfg, s, acts + [a0] + [AValidateSubmit(rid)], ASaveConsent(rid, Committed));
    RunExtend(cfg, s, acts + [a0] + [AValidateSubmit(rid)] + [ASaveConsent(rid, Committed)], AGenerateCode(rid, code));
    assert acts + [a0] + [AValidateSubmit(rid)] + [ASaveConsent(rid, Committed)] + [AGenerateCode(rid, code)]
        == acts + SubmitActions(rid, asked, id, code);
  }

  function Twice(): seq<Action> {
    AuthorizeActions(0, SAMPLE_ASKED, "id", "k0") + SubmitActions(0, SAMPLE_ASKED, "id", "k1")
  }

  lemma InitFresh(cfg: Config, db: Database, rid: nat, id: string, code: string)
    requires code != "" && db.Keyed()
    ensures FreshIds(Init(db), rid, id, code) && Inv(cfg, Init(db)) && Init(db).clients == db.clients
  {
    RunEmpty(cfg, Init(db));
    ReachedInv(cfg, db, []);
  }

  /** Without SubmitsShown the claim of ConsentIdIssuesOnce fails. */
  lemma ConsentIdMayIssueTwice()
    ensures var s := Reached(SAMPLE_CONFIG, SAMPLE_DB, Twice());
            && "k0" in s.issued && s.issued["k0"].origin.ticket == Direct("id")
            && "k1" in s.issued && s.issued["k1"].origin.ticket == Form("id")
  {
    hide Inv, SkipsPage, ConsentAccepts, Tokens, Client.ValidScopes, PlusToSpace, AuthorizeActions, SubmitActions, Run, Authorize,
      SubmitConsent, FreshIds, Init, Database.Keyed;
    SampleSkips();
    InitFresh(SAMPLE_CONFIG, SAMPLE_DB, 0, "id", "k0");
    InitFresh(SAMPLE_CONFIG, SAMPLE_DB, 0, "id", "k1");
    var s := Init(SAMPLE_DB);
    AuthorizeIsRun(SAMPLE_CONFIG, s, 0, SAMPLE_ASKED, "id", "k0");
    SubmitIsRun(SAMPLE_CONFIG, s, AuthorizeActions(0, SAMPLE_ASKED, "id", "k0"), 0, SAMPLE_ASKED, "id", "k1");
    UnshownFormIssuesToo(SAMPLE_CONFIG, s, 0, SAMPLE_ASKED, "id", "k0", "k1");
  }

  // ----- the handlers as they run -----

  /** What the code grant checks before it mints. */
  predicate TokenAccepted(cfg: Config, s: State, clientId: string, secretOk: bool, code: string, redirectURI: string, codeVerifier: string) {
    && TokenRefusal(s, clientId, secretOk, codeVerifier) == ""
    && code in s.codes
    && CodeAccepted(cfg, s, s.codes[code], clientId, redirectURI, VerifierParam(codeVerifier))
    && s.codes[code].account in s.active
  }

  function Token(cfg: Config, s: State, rid: nat, clientId: string, secretOk: bool, code: string, redirectURI: string,
                 codeVerifier: string, minted: bool): State
  {
    FinishToken(BeginToken(cfg, s, rid, clientId, secretOk, code, redirectURI, codeVerifier), rid, minted)
  }

  lemma AcceptedAlive(cfg: Config, s: State, ac: AuthCode, clientId: string, redirectURI: string, verifier: Option<string>)
    requires s.now > ac.expiresAt
    ensures !CodeAccepted(cfg, s, ac, clientId, redirectURI, verifier)
  {
  }

  lemma TokenBegins(cfg: Config, s: State, rid: nat, clientId: string, secretOk: bool, code: string, redirectURI: string,
                    codeVerifier: string)
    requires rid !in s.flights
    ensures var b := BeginToken(cfg, s, rid, clientId, secretOk, code, redirectURI, codeVerifier);
            var known := TokenRefusal(s, clientId, secretOk, codeVerifier) == "" && code in s.codes;
            && b.grants == s.grants && b.active == s.active
            && (known && s.now <= s.codes[code].expiresAt ==> code !in b.codes)
            && (rid in b.flights <==> known && CodeAccepted(cfg, s, s.codes[code], clientId, redirectURI, VerifierParam(codeVerifier)))
            && (rid in b.flights ==> b.flights[rid] == Redeeming(code, s.codes[code], VerifierParam(codeVerifier)))
  {
    hide TokenRefusal, VerifierParam, CodeAccepted;
    var b := BeginToken(cfg, s, rid, clientId, secretOk, code, redirectURI, codeVerifier);
    if TokenRefusal(s, clientId, secretOk, codeVerifier) != "" || code !in s.codes {
      assert b == s;
    } else if s.now > s.codes[code].expiresAt {
      assert b == s;
      AcceptedAlive(cfg, s, s.codes[code], clientId, redirectURI, VerifierParam(codeVerifier));
    } else {
      assert b.codes == s.codes - {code} && b.grants == s.grants && b.active == s.active;
      if CodeAccepted(cfg, s, s.codes[code], clientId, redirectURI, VerifierParam(codeVerifier)) {
        assert b.flights == s.flights[rid := Redeeming(code, s.codes[code], VerifierParam(codeVerifier))];
      } else {
        assert b.flights == s.flights;
      }
      hide BeginToken;
    }
  }

  /** Uninterrupted: a token exactly for an accepted code, and an authenticated client spends the code either way. */
  lemma TokenEnds(cfg: Config, s: State, rid: nat, clientId: string, secretOk: bool, code: string, redirectURI: string,
                  codeVerifier: string, minted: bool)
    requires rid !in s.flights
    ensures var s' := Token(cfg, s, rid, clientId, secretOk, code, redirectURI, codeVerifier, minted);
            && (TokenAccepted(cfg, s, clientId, secretOk, code, redirectURI, codeVerifier) && minted ==>
                  s'.grants == s.grants + [Grant(code, VerifierParam(codeVerifier), TokenFor(s.codes[code]))])
            && (!TokenAccepted(cfg, s, clientId, secretOk, code, redirectURI, codeVerifier) || !minted ==> s'.grants == s.grants)
            && (TokenRefusal(s, clientId, secretOk, codeVerifier) == "" && code in s.codes && s.now <= s.codes[code].expiresAt ==>
                  code !in s'.codes)
  {
    hide BeginToken, TokenRefusal, CodeAccepted, TokenFor, VerifierParam;
    TokenBegins(cfg, s, rid, clientId, secretOk, code, redirectURI, codeVerifier);
    var b := BeginToken(cfg, s, rid, clientId, secretOk, code, redirectURI, codeVerifier);
    assert rid in b.flights ==> b.flights[rid] == Redeeming(code, s.codes[code], VerifierParam(codeVerifier));
  }

  class Service {
    const cfg: Config
    var st: State

    ghost predicate Valid()
      reads this
    {
      Inv(cfg, st)
    }

    constructor (cfg: Config, db: Database)
      requires db.Keyed()
      ensures Valid() && this.cfg == cfg && st == Init(db)
    {
      this.cfg := cfg;
      st := Init(db);
      new;
      RunEmpty(cfg, st);
      ReachedInv(cfg, db, []);
    }

    /** GET /oauth2/authorize, uninterrupted; says whether a code went out instead of the page. */
    method HandleAuthorize(rid: nat, account: string, session: string, query: AuthRequest,
                           rt: string, rm: string, consentId: string, code: string) returns (issued: bool)
      requires Valid() && FreshIds(st, rid, consentId, code)
      modifies this
      ensures Valid() && st == Authorize(cfg, old(st), rid, account, session, query, rt, rm, consentId, code)
      ensures issued <==> SkipsPage(cfg, old(st), ConsentState(account, session, Query(query)), rt, rm)
      ensures issued <==> code in st.issued
    {
      hide Inv, BeginAuthorize, ReadConsent, GenerateCode, SkipsPage, PlusToSpace, Tokens, Client.MayHave, FreshIds;
      AuthorizeIssues(cfg, st, rid, account, session, query, rt, rm, consentId, code);
      BeginAuthorizeKeeps(cfg, st, rid, account, session, query, rt, rm, consentId);
      st := BeginAuthorize(cfg, st, rid, account, session, query, rt, rm, consentId);
      ReadConsentKeeps(cfg, st, rid, true);
      st := ReadConsent(st, rid, true);
      GenerateCodeKeeps(cfg, st, rid, code);
      st := GenerateCode(cfg, st, rid, code);
      issued := code in st.issued;
    }

    /** POST /oauth2/authorize, uninterrupted; exactly a form that succeeds ends in a code, of its own. */
    method HandleSubmit(rid: nat, asked: ConsentState, approved: bool, consentId: string, c: Commit, code: string)
      returns (issued: bool)
      requires Valid() && rid !in st.flights && Redemption(code) !in st.place && code != ""
      modifies this
      ensures Valid()
      ensures st == SubmitConsent(cfg, old(st), rid, asked.account, asked.session, asked.req, approved, consentId, c, code)
      ensures issued <==> code in st.issued
      ensures issued <==> FormSucceeds(cfg, old(st), asked, consentId) && approved && c.Committed?
      ensures issued ==> st.issued[code].origin.ticket == Form(consentId)
    {
      hide Inv, BeginSubmit, ValidateSubmit, SaveConsent, GenerateCode, FormSucceeds, FormMatches;
      SubmitIssues(cfg, st, rid, asked, approved, consentId, c, code);
      BeginSubmitKeeps(cfg, st, rid, asked.account, asked.session, asked.req, approved, consentId);
      st := BeginSubmit(st, rid, asked.account, asked.session, asked.req, approved, consentId);
      ValidateSubmitKeeps(cfg, st, rid);
      st := ValidateSubmit(cfg, st, rid);
      SaveConsentKeeps(cfg, st, rid, c);
      st := SaveConsent(st, rid, c);
      GenerateCodeKeeps(cfg, st, rid, code);
      st := GenerateCode(cfg, st, rid, code);
      issued := code in st.issued;
    }

    /** POST /oauth2/token for a code, uninterrupted. */
    method HandleToken(rid: nat, clientId: string, secretOk: bool, code: string, redirectURI: string,
                       codeVerifier: string, minted: bool) returns (token: Option<AccessToken>)
      requires Valid() && rid !in st.flights
      modifies this
      ensures Valid() && st == Token(cfg, old(st), rid, clientId, secretOk, code, redirectURI, codeVerifier, minted)
      ensures token.Some? <==> TokenAccepted(cfg, old(st), clientId, secretOk, code, redirectURI, codeVerifier) && minted
      ensures token.Some? ==> st.grants == old(st).grants + [Grant(code, VerifierParam(codeVerifier), token.value)]
    {
      hide Inv, TokenFor, TokenAccepted, BeginToken, FinishToken;
      TokenEnds(cfg, st, rid, clientId, secretOk, code, redirectURI, codeVerifier, minted);
      BeginTokenKeeps(cfg, st, rid, clientId, secretOk, code, redirectURI, codeVerifier);
      ghost var grants := st.grants;
      var n := |st.grants|;
      st := BeginToken(cfg, st, rid, clientId, secretOk, code, redirectURI, codeVerifier);
      FinishTokenKeeps(cfg, st, rid, minted);
      st := FinishToken(st, rid, minted);
      token := if |st.grants| == n then None else Some(st.grants[|st.grants| - 1].token);
    }
  }
}
