/**
 Registered clients (internal/oauth2/service/client_service.go): the two
 writers of a client's scopes keep the admin capability in step with them, so
 a registered scope is always one the client may have. An update reads and
 writes in separate statements; those of different requests interleave.
 */
module ClientRegistry {
  import opened Common
  import opened OAuthClient
  import DeviceGrant
  import TextLib = Text

  // ----- the checks of a scope list -----

  const MAX_SCOPES := 30
  const MAX_SCOPE_LENGTH := 256

  /** strings.TrimSpace leaves nothing. */
  predicate Blank(s: string) {
    forall i | 0 <= i < |s| :: TextLib.IsSpace(s[i])
  }

  predicate ScopesOk(scopes: seq<string>) {
    |scopes| <= MAX_SCOPES && forall s | s in scopes :: !Blank(s) && |s| <= MAX_SCOPE_LENGTH
  }

  predicate HasAdminScope(scopes: seq<string>) {
    exists s :: s in scopes && IsAdminScope(s)
  }

  method ValidateScopes(scopes: seq<string>) returns (ok: bool)
    ensures ok <==> ScopesOk(scopes)
  {
    if |scopes| > MAX_SCOPES { return false; }
    for i := 0 to |scopes|
      invariant forall j | 0 <= j < i :: !Blank(scopes[j]) && |scopes[j]| <= MAX_SCOPE_LENGTH
    {
      if Blank(scopes[i]) { return false; }
      if |scopes[i]| > MAX_SCOPE_LENGTH { return false; }
    }
    return true;
  }

  method ValidateUserManagedScopes(scopes: seq<string>) returns (ok: bool)
    ensures ok <==> !HasAdminScope(scopes)
  {
    for i := 0 to |scopes|
      invariant forall j | 0 <= j < i :: !IsAdminScope(scopes[j])
    {
      if IsAdminScope(scopes[i]) { return false; }
    }
    return true;
  }

  // ----- the capability -----

  type Metadata = map<string, MetaValue>

  function Sync(metadata: Metadata, scopes: seq<string>): (m: Metadata)
    ensures (CAPABILITY_KEY in m && m[CAPABILITY_KEY] == Text(CAPABILITY_ADMIN)) <==> HasAdminScope(scopes)
    ensures m - {CAPABILITY_KEY} == metadata - {CAPABILITY_KEY}
  {
    if HasAdminScope(scopes) then metadata[CAPABILITY_KEY := Text(CAPABILITY_ADMIN)] else metadata - {CAPABILITY_KEY}
  }

  /** syncAdminCapability; a nil map is the empty one. */
  method SyncAdminCapability(metadata: Metadata, scopes: seq<string>) returns (m: Metadata)
    ensures m == Sync(metadata, scopes)
  {
    var hasAdminScope := false;
    for i := 0 to |scopes|
      invariant !hasAdminScope && forall j | 0 <= j < i :: !IsAdminScope(scopes[j])
    {
      if IsAdminScope(scopes[i]) {
        hasAdminScope := true;
        break;
      }
    }
    m := metadata;
    if hasAdminScope {
      m := m[CAPABILITY_KEY := Text(CAPABILITY_ADMIN)];
    } else {
      m := m - {CAPABILITY_KEY};
    }
  }

  // ----- the two writers -----

  /** wellFormed: the name, description, URI and grant type checks pass. */
  datatype RegisterRequest = RegisterRequest(
    account: string,
    wellFormed: bool,
    redirectURIs: seq<string>,
    grantTypes: seq<string>,
    scopes: seq<string>,
    confidential: bool,
    metadata: Metadata,
    allowReserved: bool)

  /** A field that is None stays as it is. */
  datatype UpdateRequest = UpdateRequest(
    wellFormed: bool,
    redirectURIs: Option<seq<string>>,
    grantTypes: Option<seq<string>>,
    scopes: Option<seq<string>>,
    allowReserved: bool)

  datatype RegistryError = Malformed | ScopesInvalid | ScopeReserved | AccountRequired | NotFound | AccessDenied

  function ScopesAsked(req: RegisterRequest): seq<string> {
    if req.scopes == [] then ["openid"] else req.scopes
  }

  function Registered(req: RegisterRequest, clientId: string): Result<Client, RegistryError> {
    var scopes := ScopesAsked(req);
    if !req.wellFormed then Err(Malformed)
    else if !ScopesOk(scopes) then Err(ScopesInvalid)
    else if !req.allowReserved && HasAdminScope(scopes) then Err(ScopeReserved)
    else if req.account == "" then Err(AccountRequired)
    else Ok(Client(clientId, req.redirectURIs, if req.grantTypes == [] then ["authorization_code"] else req.grantTypes,
                   scopes, req.confidential, Sync(req.metadata, scopes)))
  }

  method RegisterClient(req: RegisterRequest, clientId: string) returns (r: Result<Client, RegistryError>)
    ensures r == Registered(req, clientId)
  {
    if !req.wellFormed { return Err(Malformed); }
    var grantTypes := req.grantTypes;
    if |grantTypes| == 0 { grantTypes := ["authorization_code"]; }
    var scopes := req.scopes;
    if |scopes| == 0 { scopes := ["openid"]; }
    var ok := ValidateScopes(scopes);
    if !ok { return Err(ScopesInvalid); }
    if !req.allowReserved {
      ok := ValidateUserManagedScopes(scopes);
      if !ok { return Err(ScopeReserved); }
    }
    var metadata := SyncAdminCapability(req.metadata, scopes);
    if req.account == "" { return Err(AccountRequired); }
    return Ok(Client(clientId, req.redirectURIs, grantTypes, scopes, req.confidential, metadata));
  }

  function Or<T>(o: Option<T>, t: T): T {
    if o.Some? then o.value else t
  }

  function Updated(c: Client, req: UpdateRequest): Result<Client, RegistryError> {
    var c' := c.(redirectURIs := Or(req.redirectURIs, c.redirectURIs), grantTypes := Or(req.grantTypes, c.grantTypes));
    if req.scopes.None? then Ok(c')
    else if !ScopesOk(req.scopes.value) then Err(ScopesInvalid)
    else if !req.allowReserved && HasAdminScope(req.scopes.value) then Err(ScopeReserved)
    else Ok(c'.(scopes := req.scopes.value, metadata := Sync(c.metadata, req.scopes.value)))
  }

  method ApplyUpdate(c: Client, req: UpdateRequest) returns (r: Result<Client, RegistryError>)
    ensures r == Updated(c, req)
  {
    var c' := c;
    if req.redirectURIs.Some? { c' := c'.(redirectURIs := req.redirectURIs.value); }
    if req.grantTypes.Some? { c' := c'.(grantTypes := req.grantTypes.value); }
    if req.scopes.Some? {
      var ok := ValidateScopes(req.scopes.value);
      if !ok { return Err(ScopesInvalid); }
      if !req.allowReserved {
        ok := ValidateUserManagedScopes(req.scopes.value);
        if !ok { return Err(ScopeReserved); }
      }
      var metadata := SyncAdminCapability(c'.metadata, req.scopes.value);
      c' := c'.(scopes := req.scopes.value, metadata := metadata);
    }
    return Ok(c');
  }

  // ----- runs -----

  /** A live row of oauth2_clients. */
  datatype Row = Row(id: string, account: string, client: Client, updatedAt: int)

  /** An update between its SELECT and its UPDATE. */
  datatype Draft = Draft(id: string, client: Client, expected: int)

  datatype State = State(rows: map<string, Row>, drafts: map<nat, Draft>)

  /** stored: the insert took effect; clientId and id are drawn at random and are new. */
  datatype Action =
    | Register(req: RegisterRequest, clientId: string, id: string, now: int, stored: bool)
    | ReadForUpdate(rid: nat, account: string, clientId: string, update: UpdateRequest)
    | WriteUpdate(rid: nat, now: int)
    | Delete(account: string, clientId: string)
    | DeleteAll(account: string)

  function Init(): State {
    State(map[], map[])
  }

  function Step(s: State, a: Action): State {
    match a
    case Register(req, clientId, id, now, stored) =>
      var r := Registered(req, clientId);
      if r.Ok? && stored && clientId !in s.rows then s.(rows := s.rows[clientId := Row(id, req.account, r.value, now)]) else s
    case ReadForUpdate(rid, account, clientId, update) =>
      if rid in s.drafts || !update.wellFormed || clientId !in s.rows || s.rows[clientId].account != account then s
      else
        var row := s.rows[clientId];
        var r := Updated(row.client, update);
        if r.Err? then s else s.(drafts := s.drafts[rid := Draft(row.id, r.value, row.updatedAt)])
    case WriteUpdate(rid, now) =>
      if rid !in s.drafts then s
      else
        var d := s.drafts[rid];
        var s' := s.(drafts := s.drafts - {rid});
        var key := d.client.clientId;
        if key in s.rows && s.rows[key].id == d.id && s.rows[key].updatedAt == d.expected
        then s'.(rows := s.rows[key := s.rows[key].(client := d.client, updatedAt := now)])
        else s'
    case Delete(account, clientId) =>
      if clientId in s.rows && s.rows[clientId].account == account then s.(rows := s.rows - {clientId}) else s
    case DeleteAll(account) =>
      s.(rows := map k | k in s.rows && s.rows[k].account != account :: s.rows[k])
  }

  function Run(acts: seq<Action>): State {
    if acts == [] then Init() else Step(Run(acts[..|acts| - 1]), acts[|acts| - 1])
  }

  /** The capability is there exactly for the clients with an admin scope. */
  predicate InStep(c: Client) {
    c.HasAdminCapability() <==> HasAdminScope(c.scopes)
  }

  ghost predicate Inv(s: State) {
    && (forall k | k in s.rows :: s.rows[k].client.clientId == k && InStep(s.rows[k].client))
    && (forall rid | rid in s.drafts :: InStep(s.drafts[rid].client))
  }

  lemma RegisteredInStep(req: RegisterRequest, clientId: string)
    requires Registered(req, clientId).Ok?
    ensures var c := Registered(req, clientId).value; c.clientId == clientId && InStep(c)
  {
    hide ScopesOk, HasAdminScope;
  }

  lemma UpdatedInStep(c: Client, req: UpdateRequest)
    requires InStep(c) && Updated(c, req).Ok?
    ensures var c' := Updated(c, req).value; c'.clientId == c.clientId && InStep(c')
  {
    hide ScopesOk, HasAdminScope;
  }

  lemma StepKeeps(s: State, a: Action)
    requires Inv(s)
    ensures Inv(Step(s, a))
  {
    hide Registered, Updated, InStep;
    if a.Register? && Registered(a.req, a.clientId).Ok? {
      RegisteredInStep(a.req, a.clientId);
    } else if a.ReadForUpdate? && a.clientId in s.rows && Updated(s.rows[a.clientId].client, a.update).Ok? {
      UpdatedInStep(s.rows[a.clientId].client, a.update);
    }
  }

  lemma {:induction false} RunKeeps(acts: seq<Action>)
    ensures Inv(Run(acts))
  {
    hide Step, InStep;
    if acts != [] {
      RunKeeps(acts[..|acts| - 1]);
      StepKeeps(Run(acts[..|acts| - 1]), acts[|acts| - 1]);
    }
  }

  // ----- what a registered client may have -----

  lemma InStepMayHave(c: Client, x: string)
    requires InStep(c)
    ensures c.MayHave(x) <==> x in c.scopes
  {
  }

  /**
   In every run, whatever updates interleave: a registered scope is one the
   client may have, so ValidateScope drops exactly the unregistered scopes, and
   every item of a device code's list is a scope the client may have.  What the
   readers of a token find in the joined list is the matter of ScopeClaims.
   */
  lemma RegisteredScopesGranted(acts: seq<Action>, clientId: string, asked: seq<string>, requested: string)
    requires clientId in Run(acts).rows
    ensures var c := Run(acts).rows[clientId].client;
            && c.ValidScopes(asked) == Keep(s => s in c.scopes, asked)
            && (forall x | x in DeviceGrant.GrantedScopes(c, requested) ::
                  c.MayHave(x) && (Tokens(requested) != [] ==> x in Tokens(requested)))
  {
    hide Run, Tokens, Inv, InStep, Client.MayHave, DeviceGrant.GrantedScopes;
    RunKeeps(acts);
    var c := Run(acts).rows[clientId].client;
    InvAt(Run(acts), clientId);
    forall x: string ensures c.MayHave(x) <==> x in c.scopes { InStepMayHave(c, x); }
    KeepSame(c, asked);
    GrantedByDevice(c, requested);
  }

  lemma InvAt(s: State, clientId: string)
    requires Inv(s) && clientId in s.rows
    ensures InStep(s.rows[clientId].client)
  {
  }

  lemma {:induction false} KeepSame(c: Client, asked: seq<string>)
    requires forall x :: c.MayHave(x) <==> x in c.scopes
    ensures c.ValidScopes(asked) == Keep(s => s in c.scopes, asked)
  {
    hide Client.MayHave;
    if asked != [] { KeepSame(c, asked[..|asked| - 1]); }
  }

  lemma GrantedByDevice(c: Client, requested: string)
    requires forall x :: c.MayHave(x) <==> x in c.scopes
    ensures forall x | x in DeviceGrant.GrantedScopes(c, requested) ::
              c.MayHave(x) && (Tokens(requested) != [] ==> x in Tokens(requested))
  {
    hide Tokens, Client.MayHave;
  }

  predicate Registers(s: State, c: Client) {
    c.clientId in s.rows && s.rows[c.clientId].client == c
  }

  /** Some moment of the registry's run held this client. */
  ghost predicate WasRegistered(acts: seq<Action>, c: Client) {
    exists n :: 0 <= n <= |acts| && Registers(Run(acts[..n]), c)
  }

  /** An action by which an administrator may give a client admin scopes. */
  predicate Allows(a: Action, clientId: string) {
    || (a.Register? && a.clientId == clientId && a.req.allowReserved)
    || (a.ReadForUpdate? && a.clientId == clientId && a.update.allowReserved)
  }

  predicate Allowed(acts: seq<Action>, c: Client) {
    HasAdminScope(c.scopes) ==> exists n :: 0 <= n < |acts| && Allows(acts[n], c.clientId)
  }

  ghost predicate AllAllowed(acts: seq<Action>, s: State) {
    && (forall k | k in s.rows :: Allowed(acts, s.rows[k].client))
    && (forall rid | rid in s.drafts :: Allowed(acts, s.drafts[rid].client))
  }

  lemma AllowedLater(acts: seq<Action>, a: Action, c: Client)
    requires Allowed(acts, c)
    ensures Allowed(acts + [a], c)
  {
    if HasAdminScope(c.scopes) {
      var n :| 0 <= n < |acts| && Allows(acts[n], c.clientId);
      assert (acts + [a])[n] == acts[n];
    }
  }

  /** A register or an update gives an admin scope only to a client that had one, or when the request allows it. */
  lemma RegisteredAllowed(acts: seq<Action>, a: Action)
    requires a.Register? && Registered(a.req, a.clientId).Ok?
    ensures Allowed(acts + [a], Registered(a.req, a.clientId).value)
  {
    hide ScopesOk, HasAdminScope;
    assert (acts + [a])[|acts|] == a;
  }

  lemma UpdatedAllowed(acts: seq<Action>, a: Action, c: Client)
    requires a.ReadForUpdate? && c.clientId == a.clientId && Updated(c, a.update).Ok? && Allowed(acts, c)
    ensures Allowed(acts + [a], Updated(c, a.update).value)
  {
    hide ScopesOk, HasAdminScope;
    AllowedLater(acts, a, c);
    assert (acts + [a])[|acts|] == a;
  }

  lemma StepAllows(acts: seq<Action>, s: State, a: Action)
    requires Inv(s) && AllAllowed(acts, s)
    ensures AllAllowed(acts + [a], Step(s, a))
  {
    hide Registered, Updated, InStep, Allowed;
    forall c | Allowed(acts, c) ensures Allowed(acts + [a], c) { AllowedLater(acts, a, c); }
    if a.Register? && Registered(a.req, a.clientId).Ok? {
      RegisteredAllowed(acts, a);
    } else if a.ReadForUpdate? && a.clientId in s.rows && Updated(s.rows[a.clientId].client, a.update).Ok? {
      UpdatedAllowed(acts, a, s.rows[a.clientId].client);
    }
  }

  lemma {:induction false} RunAllows(acts: seq<Action>)
    ensures AllAllowed(acts, Run(acts))
  {
    hide Step, Inv, Allowed;
    if acts != [] {
      var last := |acts| - 1;
      RunAllows(acts[..last]);
      RunKeeps(acts[..last]);
      StepAllows(acts[..last], Run(acts[..last]), acts[last]);
      assert acts[..last] + [acts[last]] == acts;
    }
  }

  /** No client has an admin scope, nor the capability, unless an administrator registered or updated it. */
  lemma AdminScopeWasAllowed(acts: seq<Action>, clientId: string)
    requires clientId in Run(acts).rows
    requires var c := Run(acts).rows[clientId].client; HasAdminScope(c.scopes) || c.HasAdminCapability()
    ensures exists n :: 0 <= n < |acts| && Allows(acts[n], clientId)
  {
    hide Run, HasAdminScope, Allows;
    RunKeeps(acts);
    RunAllows(acts);
    assert Allowed(acts, Run(acts).rows[clientId].client);
  }

  // ----- the writer without callers -----

  /** UpdateClient, which nothing calls: the client as given replaces the stored one. */
  function Replaced(s: State, c: Client, now: int): State {
    if c.clientId in s.rows
    then s.(rows := s.rows[c.clientId := s.rows[c.clientId].(client := c, updatedAt := now)])
    else s
  }

  /** It would keep the rows in step exactly with a client that is itself in step. */
  lemma ReplacedExact(acts: seq<Action>, c: Client, now: int)
    ensures Inv(Replaced(Run(acts), c, now)) <==> c.clientId !in Run(acts).rows || InStep(c)
  {
    hide Run, InStep;
    RunKeeps(acts);
    var s' := Replaced(Run(acts), c, now);
    assert c.clientId in Run(acts).rows ==> c.clientId in s'.rows && s'.rows[c.clientId].client == c;
  }
}
