/**
 The scope claim of a token is a joined string, and its readers split it again:
 at spaces in the OAuth2 controllers, at any white space in hasScope of
 internal/auth/middleware/auth_middleware.go.  Registration checks items, so
 an item that holds a separator is read as scopes nobody checked.
 */
module ScopeClaims {
  import opened Common
  import opened OAuthClient
  import opened ClientRegistry
  import DeviceGrant
  import OAuthHistory
  import OAuthProtocol
  import TextLib = Text

  method HasScope(scopeClaim: string, required: string) returns (ok: bool)
    ensures ok <==> required in Fields(scopeClaim)
  {
    var fields := Fields(scopeClaim);
    for i := 0 to |fields|
      invariant forall j | 0 <= j < i :: fields[j] != required
    {
      if fields[i] == required { return true; }
    }
    return false;
  }

  // ----- one client -----

  /** The claim of a device token. */
  function DeviceScope(c: Client, requested: string): string {
    TextLib.Join(DeviceGrant.GrantedScopes(c, requested), ' ')
  }

  /** The claim of a code's token or a client-credentials token, before any consent narrows it. */
  function RequestedScope(c: Client, requested: string): string {
    TextLib.Join(c.ValidScopes(Tokens(requested)), ' ')
  }

  /** Every word of every registered scope is itself registered: what registration would have to check. */
  predicate Closed(p: char -> bool, c: Client) {
    forall s, x | s in c.scopes && x in Words(p, s) :: x in c.scopes
  }

  lemma ReadOfJoin(p: char -> bool, items: seq<string>, c: Client)
    requires p(' ')
    ensures (forall x | x in Words(p, TextLib.Join(items, ' ')) :: c.MayHave(x)) <==> (forall s, x | s in items && x in Words(p, s) :: c.MayHave(x))
  {
    hide Words, TextLib.Join, Client.MayHave;
    forall x ensures x in Words(p, TextLib.Join(items, ' ')) <==> PieceOf(p, items, x) { WordsOfJoin(p, items, x); }
  }

  lemma NoTokens()
    ensures Tokens("") == []
  {
    TokensOfJoin([]);
  }

  lemma TokenItself(x: string)
    requires IsToken(x)
    ensures Tokens(x) == [x]
  {
    TokensOfJoin([x]);
  }

  /** The registered scopes decide what the words of the granted ones may be. */
  lemma DeviceWordsExact(p: char -> bool, c: Client, requested: string)
    requires InStep(c) && p(' ')
    ensures (forall x | x in Words(p, DeviceScope(c, requested)) :: c.MayHave(x))
       <==> (forall s, x | s in DeviceGrant.GrantedScopes(c, requested) && x in Words(p, s) :: x in c.scopes)
  {
    hide Words, TextLib.Join, InStep, Client.MayHave, DeviceGrant.GrantedScopes;
    forall x ensures c.MayHave(x) <==> x in c.scopes { InStepMayHave(c, x); }
    ReadOfJoin(p, DeviceGrant.GrantedScopes(c, requested), c);
  }

  /**
   Split at spaces, a device claim names only scopes the client may have exactly
   if a scope parameter was given, or no registered scope has an unregistered word.
   */
  lemma DeviceClaimExact(c: Client, requested: string)
    requires InStep(c)
    ensures (forall x | x in Tokens(DeviceScope(c, requested)) :: c.MayHave(x)) <==> Tokens(requested) != [] || Closed(IsBlank, c)
  {
    hide Words, TextLib.Join, InStep, Client.MayHave;
    TokensAreWords(DeviceScope(c, requested));
    DeviceWordsExact(IsBlank, c, requested);
    if Tokens(requested) != [] {
      hide Tokens;
      forall s | s in DeviceGrant.GrantedScopes(c, requested) ensures s in c.scopes && Words(IsBlank, s) == [s] {
        InStepMayHave(c, s);
        TokenItself(s);
        TokensAreWords(s);
      }
    }
  }

  /** Split at white space, every device claim does exactly if no registered scope has an unregistered word. */
  lemma DeviceFieldsExact(c: Client)
    requires InStep(c)
    ensures (forall requested :: DeviceFieldsOk(c, requested)) <==> Closed(TextLib.IsSpace, c)
  {
    hide Words, TextLib.Join, InStep, Client.MayHave, Tokens;
    forall requested
      ensures DeviceFieldsOk(c, requested) <==>
                (forall s, x | s in DeviceGrant.GrantedScopes(c, requested) && x in Words(TextLib.IsSpace, s) :: x in c.scopes)
      ensures forall s | s in DeviceGrant.GrantedScopes(c, requested) :: s in c.scopes
    {
      DeviceWordsExact(TextLib.IsSpace, c, requested);
      forall s | s in DeviceGrant.GrantedScopes(c, requested) ensures s in c.scopes { InStepMayHave(c, s); }
    }
    NoTokens();
    assert DeviceGrant.GrantedScopes(c, "") == c.scopes;
    assert DeviceFieldsOk(c, "") <==> Closed(TextLib.IsSpace, c);
  }

  predicate DeviceFieldsOk(c: Client, requested: string) {
    forall x | x in Fields(DeviceScope(c, requested)) :: c.MayHave(x)
  }

  predicate RequestFieldsOk(c: Client, requested: string) {
    forall x | x in Fields(RequestedScope(c, requested)) :: c.MayHave(x)
  }

  /** Only scopes without spaces can be requested; those must have no other unpermitted word. */
  predicate RequestableClosed(c: Client) {
    forall s, x | s in c.scopes && IsToken(s) && c.MayHave(s) && x in Fields(s) :: c.MayHave(x)
  }

  /** The same where scopes are requested: split at spaces every claim is fine, at white space exactly under that condition. */
  lemma RequestClaimExact(c: Client)
    ensures forall requested, x | x in Tokens(RequestedScope(c, requested)) :: c.MayHave(x) && x in Tokens(requested)
    ensures (forall requested :: RequestFieldsOk(c, requested)) <==> RequestableClosed(c)
  {
    hide Words, TextLib.Join, Tokens, Client.MayHave;
    forall requested, x | x in Tokens(RequestedScope(c, requested)) ensures c.MayHave(x) && x in Tokens(requested) {
      TokensOfJoin(c.ValidScopes(Tokens(requested)));
    }
    forall requested
      ensures RequestFieldsOk(c, requested) <==>
                (forall s, x | s in c.ValidScopes(Tokens(requested)) && x in Fields(s) :: c.MayHave(x))
    {
      ReadOfJoin(TextLib.IsSpace, c.ValidScopes(Tokens(requested)), c);
    }
    if RequestableClosed(c) {
      forall requested ensures RequestFieldsOk(c, requested) { RequestedAreTokens(c, requested); }
    } else {
      var s, x :| s in c.scopes && IsToken(s) && c.MayHave(s) && x in Fields(s) && !c.MayHave(x);
      TokenItself(s);
      assert s in c.ValidScopes(Tokens(s));
      assert !RequestFieldsOk(c, s);
    }
  }

  lemma RequestedAreTokens(c: Client, requested: string)
    ensures forall s | s in c.ValidScopes(Tokens(requested)) :: IsToken(s) && c.MayHave(s) && s in c.scopes
  {
    hide Tokens;
  }

  /** Registering no scope that holds white space is enough for all of them. */
  lemma NoSeparators(c: Client)
    requires forall s, i | s in c.scopes && 0 <= i < |s| :: !TextLib.IsSpace(s[i])
    ensures Closed(IsBlank, c) && Closed(TextLib.IsSpace, c) && RequestableClosed(c)
  {
    hide Words, Client.MayHave;
    forall s | s in c.scopes ensures Words(IsBlank, s) == Words(TextLib.IsSpace, s) == if s == "" then [] else [s] {
      if s == "" {
        NoWords(IsBlank);
        NoWords(TextLib.IsSpace);
      } else {
        OneWord(IsBlank, s);
        OneWord(TextLib.IsSpace, s);
      }
    }
  }

  // ----- two inputs -----

  const DEVICE_CODE := "urn:ietf:params:oauth:grant-type:device_code"

  /** A registration of one scope without leave for reserved ones. */
  function Plain(scope: string): RegisterRequest {
    RegisterRequest("a", true, [], [DEVICE_CODE], [scope], false, map[], false)
  }

  function PlainClient(scope: string): Client {
    Client("c", [], [DEVICE_CODE], [scope], false, map[])
  }

  lemma PlainRegistered(scope: string)
    requires !Blank(scope) && |scope| <= MAX_SCOPE_LENGTH && !IsAdminScope(scope)
    ensures Registered(Plain(scope), "c") == Ok(PlainClient(scope))
    ensures InStep(PlainClient(scope)) && !PlainClient(scope).HasAdminCapability()
  {
    assert forall s | s in [scope] :: s == scope;
    var none: Metadata := map[];
    assert none - {CAPABILITY_KEY} == none;
  }

  lemma SpacedWords()
    ensures Tokens("openid admin") == ["openid", "admin"]
  {
    var parts := ["openid", "admin"];
    assert parts[1..] == ["admin"];
    assert TextLib.Join(parts, ' ') == "openid admin";
    TokensOfJoin(parts);
  }

  lemma TabbedWords()
    ensures "admin" in Fields("openid\tadmin") && IsToken("openid\tadmin")
  {
    hide Words, Tokens;
    var a, b := "openid", "admin";
    WordsConcat(TextLib.IsSpace, a, '\t', b);
    OneWord(TextLib.IsSpace, b);
    assert a + ['\t'] + b == "openid\tadmin";
  }

  /** Without a scope parameter an item with a space is read as its words. */
  lemma SpacedScope()
    ensures var c := PlainClient("openid admin");
            && Registered(Plain("openid admin"), "c") == Ok(c)
            && "admin" in Tokens(DeviceScope(c, "")) && !c.MayHave("admin")
  {
    NotBlank("openid admin");
    PlainRegistered("openid admin");
    SpacedWords();
    NoTokens();
    hide Tokens;
    assert TextLib.Join(["openid admin"], ' ') == "openid admin";
  }

  lemma NotBlank(s: string)
    requires s != "" && !TextLib.IsSpace(s[0])
    ensures !Blank(s)
  {
  }

  /** An item with a tab is granted as asked, at either endpoint, and hasScope reads its words. */
  lemma TabbedScope()
    ensures var c := PlainClient("openid\tadmin");
            && Registered(Plain("openid\tadmin"), "c") == Ok(c)
            && "admin" in Fields(DeviceScope(c, "openid\tadmin")) && "admin" in Fields(RequestedScope(c, "openid\tadmin"))
            && !c.MayHave("admin")
  {
    var scope := "openid\tadmin";
    NotBlank(scope);
    PlainRegistered(scope);
    TabbedWords();
    TokenItself(scope);
    hide Tokens, Fields;
    var c := PlainClient(scope);
    assert c.MayHave(scope);
    assert c.ValidScopes([scope]) == [scope] by { assert [scope][..0] == []; }
    assert TextLib.Join([scope], ' ') == scope;
  }

  // ----- runs -----

  /**
   Device tokens of a run whose clients come from a registry's run: each item of
   the list is a scope the client may have; the claim itself, split at spaces or
   at white space, is exactly under the conditions above.
   */
  lemma DeviceTokenScopes(registry: seq<Action>, cfg: DeviceGrant.Config, now: int, acts: seq<DeviceGrant.Action>, i: nat)
    requires forall n | 0 <= n < |acts| && acts[n].ACreate? :: WasRegistered(registry, acts[n].client)
    requires i < |DeviceGrant.Run(cfg, now, acts).minted|
    ensures var s := DeviceGrant.Run(cfg, now, acts);
            var t := s.minted[i];
            && t.hash in s.book
            && var o := s.book[t.hash].origin;
               && t.scope == DeviceScope(o.client, o.requested)
               && (forall x | x in DeviceGrant.GrantedScopes(o.client, o.requested) :: o.client.MayHave(x))
               && ((forall x | x in Tokens(t.scope) :: o.client.MayHave(x)) <==> Tokens(o.requested) != [] || Closed(IsBlank, o.client))
               && ((forall x | x in Fields(t.scope) :: o.client.MayHave(x)) <==>
                   (forall s, x | s in DeviceGrant.GrantedScopes(o.client, o.requested) && x in Fields(s) :: x in o.client.scopes))
  {
    hide DeviceGrant.Run, Run, DeviceGrant.GrantedScopes, Client.MayHave, TextLib.Join, DeviceGrant.WasApproved, InStep, Words, Tokens;
    DeviceGrant.TokenBoundToApproval(cfg, now, acts, i);
    var s := DeviceGrant.Run(cfg, now, acts);
    var o := s.book[s.minted[i].hash].origin;
    var n :| 0 <= n < |acts| && DeviceGrant.Creates(acts[n], s.minted[i].hash, o);
    var k :| 0 <= k <= |registry| && Registers(Run(registry[..k]), o.client);
    RegisteredScopesGranted(registry[..k], o.client.clientId, [], o.requested);
    RegisteredInStepRun(registry[..k], o.client.clientId);
    DeviceClaimExact(o.client, o.requested);
    DeviceWordsExact(TextLib.IsSpace, o.client, o.requested);
  }

  lemma RegisteredInStepRun(acts: seq<Action>, clientId: string)
    requires clientId in Run(acts).rows
    ensures InStep(Run(acts).rows[clientId].client)
  {
    hide Run, InStep;
    RunKeeps(acts);
    InvAt(Run(acts), clientId);
  }

  /**
   Tokens of the code flow: split at spaces the claim is the code's scope list,
   inside request, client and consent; split at white space it is exactly if the
   words of those scopes are.
   */
  lemma CodeTokenScopes(cfg: OAuthProtocol.Config, db: OAuthProtocol.Database, acts: seq<OAuthProtocol.Action>, i: nat)
    requires db.Keyed() && i < |OAuthProtocol.Reached(cfg, db, acts).grants|
    ensures var s := OAuthProtocol.Reached(cfg, db, acts);
            var g := s.grants[i];
            && g.code in s.issued
            && var o := s.issued[g.code].origin;
               var scopes := OAuthProtocol.AllowedScopes(o.asked, o.client, o.consented);
               && Tokens(g.token.scope) == scopes
               && (forall x | x in scopes :: x in Tokens(o.asked.req.scope) && o.client.MayHave(x) && x in o.consented)
               && ((forall x | x in Fields(g.token.scope) :: o.client.MayHave(x)) <==>
                   (forall s, x | s in scopes && x in Fields(s) :: o.client.MayHave(x)))
  {
    hide OAuthProtocol.Reached, OAuthHistory.IssuedAt, OAuthHistory.RedeemedAt, OAuthProtocol.AllowedScopes, TextLib.Join, Tokens, Client.MayHave, Words;
    OAuthHistory.TokenComesFromRun(cfg, db, acts, i);
    var s := OAuthProtocol.Reached(cfg, db, acts);
    var o := s.issued[s.grants[i].code].origin;
    var scopes := OAuthProtocol.AllowedScopes(o.asked, o.client, o.consented);
    forall x ensures x in scopes <==> x in Tokens(o.asked.req.scope) && o.client.MayHave(x) && x in o.consented {
      OAuthHistory.AllowedMember(o.asked, o.client, o.consented, x);
    }
    assert forall x | x in scopes :: IsToken(x);
    TokensOfJoin(scopes);
    ReadOfJoin(TextLib.IsSpace, scopes, o.client);
  }

  /** A run of a registry and of the device grant in which a token is read as naming a scope its client may not have. */
  lemma SpacedRun(cfg: DeviceGrant.Config)
    ensures var registry := [Register(Plain("openid admin"), "c", "id", 0, true)];
            var acts := DeviceGrant.ServedActs(PlainClient("openid admin"), "", "h", "user");
            var s := DeviceGrant.Run(cfg, 0, acts);
            && WasRegistered(registry, PlainClient("openid admin"))
            && |s.minted| == 1 && "admin" in Tokens(s.minted[0].scope) && !PlainClient("openid admin").MayHave("admin")
  {
    hide Run, Tokens, DeviceGrant.Run, TextLib.Join, DeviceGrant.GrantedScopes, Registered, WasRegistered, Client.MayHave, DeviceGrant.ServedActs;
    SpacedScope();
    SpacedRegistered();
    NoTokens();
    DeviceGrant.Served(cfg, PlainClient("openid admin"), "", "h", "user");
  }

  lemma SpacedRegistered()
    requires Registered(Plain("openid admin"), "c") == Ok(PlainClient("openid admin"))
    ensures WasRegistered([Register(Plain("openid admin"), "c", "id", 0, true)], PlainClient("openid admin"))
  {
    hide Registered;
    var a := Register(Plain("openid admin"), "c", "id", 0, true);
    var acts := [a];
    assert acts[..0] == [] && acts[..1] == acts;
    assert Run([]) == Init();
    assert Step(Init(), a).rows == map["c" := Row("id", "a", PlainClient("openid admin"), 0)];
    assert Registers(Run(acts[..1]), PlainClient("openid admin"));
  }
}
