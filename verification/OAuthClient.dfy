/**
 Scopes and registered clients: splitScope and intersectScopes of
 internal/oauth2/controller/oauth2_controller.go and the queries of
 internal/oauth2/domain/client.go.
 */
module OAuthClient {
  import Text

  // ----- scope strings -----

  predicate IsToken(s: string) {
    s != "" && ' ' !in s
  }

  function NonEmpty(parts: seq<string>): (r: seq<string>)
    ensures forall s :: s in r <==> s in parts && s != ""
  {
    if parts == [] then []
    else NonEmpty(parts[..|parts| - 1]) + if parts[|parts| - 1] != "" then [parts[|parts| - 1]] else []
  }

  /** The scope tokens of a space-delimited scope string. */
  function Tokens(scope: string): (r: seq<string>)
    ensures forall s | s in r :: IsToken(s)
  {
    NonEmpty(Text.SplitOn(scope, ' '))
  }

  lemma {:induction false} NonEmptyKeepsAll(parts: seq<string>)
    requires forall i | 0 <= i < |parts| :: parts[i] != ""
    ensures NonEmpty(parts) == parts
  {
    if parts != [] { NonEmptyKeepsAll(parts[..|parts| - 1]); }
  }

  /** splitScope undoes the space-join of scope tokens. */
  lemma TokensOfJoin(scopes: seq<string>)
    requires forall s | s in scopes :: IsToken(s)
    ensures Tokens(Text.Join(scopes, ' ')) == scopes
  {
    if scopes == [] {
      assert Text.SplitOn("", ' ') == [""];
      assert NonEmpty([""]) == NonEmpty([""][..0]);
    } else {
      assert forall i | 0 <= i < |scopes| :: scopes[i] in scopes && IsToken(scopes[i]);
      Text.SplitJoin(scopes, ' ');
      NonEmptyKeepsAll(scopes);
    }
  }

  method SplitScope(scope: string) returns (result: seq<string>)
    ensures result == Tokens(scope)
  {
    result := [];
    if scope == "" {
      TokensOfJoin([]);
      return;
    }
    var parts := Text.SplitOn(scope, ' ');
    for i := 0 to |parts|
      invariant result == NonEmpty(parts[..i])
    {
      assert parts[..i + 1][..i] == parts[..i];
      if parts[i] != "" { result := result + [parts[i]]; }
    }
    assert parts[..|parts|] == parts;
  }

  // ----- the words of a joined list -----

  /** What a reader that separates at the characters of p finds. */
  function Words(p: char -> bool, s: string): seq<string> {
    NonEmpty(Text.SplitWhere(p, s))
  }

  predicate IsBlank(c: char) {
    c == ' '
  }

  /** strings.Fields. */
  function Fields(s: string): seq<string> {
    Words(Text.IsSpace, s)
  }

  lemma TokensAreWords(s: string)
    ensures Tokens(s) == Words(IsBlank, s)
  {
    Text.SplitOnIsWhere(s, ' ', IsBlank);
  }

  /** x is a word of some item. */
  predicate PieceOf(p: char -> bool, parts: seq<string>, x: string) {
    exists s :: s in parts && x in Words(p, s)
  }

  lemma {:induction false} NonEmptyConcat(a: seq<string>, b: seq<string>)
    ensures NonEmpty(a + b) == NonEmpty(a) + NonEmpty(b)
  {
    if b == [] {
      assert a + b == a;
    } else {
      NonEmptyConcat(a, b[..|b| - 1]);
      assert (a + b)[..|a + b| - 1] == a + b[..|b| - 1];
    }
  }

  lemma NoWords(p: char -> bool)
    ensures Words(p, "") == []
  {
    assert NonEmpty([""]) == NonEmpty([""][..0]);
  }

  lemma OneWord(p: char -> bool, s: string)
    requires s != "" && forall i | 0 <= i < |s| :: !p(s[i])
    ensures Words(p, s) == [s]
  {
    Text.SplitWherePiece(p, s);
    NonEmptyKeepsAll([s]);
  }

  /** Reading a joined list finds the words of its items, not the items. */
  lemma {:induction false} WordsOfJoin(p: char -> bool, parts: seq<string>, x: string)
    requires p(' ')
    ensures x in Words(p, Text.Join(parts, ' ')) <==> PieceOf(p, parts, x)
  {
    hide Words;
    if parts == [] {
      NoWords(p);
    } else if |parts| == 1 {
      assert parts[0] in parts;
    } else {
      WordsOfJoin(p, parts[1..], x);
      WordsConcat(p, parts[0], ' ', Text.Join(parts[1..], ' '));
      assert forall s :: s in parts <==> s == parts[0] || s in parts[1..];
    }
  }

  lemma WordsConcat(p: char -> bool, a: string, c: char, b: string)
    requires p(c)
    ensures Words(p, a + [c] + b) == Words(p, a) + Words(p, b)
  {
    Text.SplitWhereConcat(p, a, c, b);
    NonEmptyConcat(Text.SplitWhere(p, a), Text.SplitWhere(p, b));
  }

  // ----- keeping part of a scope list -----

  function Keep(p: string -> bool, scopes: seq<string>): (r: seq<string>)
    ensures forall s :: s in r <==> s in scopes && p(s)
    ensures forall s :: multiset(r)[s] == if p(s) then multiset(scopes)[s] else 0
  {
    if scopes == [] then []
    else
      var last := scopes[|scopes| - 1];
      assert scopes == scopes[..|scopes| - 1] + [last];
      Keep(p, scopes[..|scopes| - 1]) + if p(last) then [last] else []
  }

  method IntersectScopes(requested: seq<string>, allowed: seq<string>) returns (result: seq<string>)
    ensures result == Keep(s => s in allowed, requested)
  {
    result := [];
    for i := 0 to |requested|
      invariant result == Keep(s => s in allowed, requested[..i])
    {
      assert requested[..i + 1][..i] == requested[..i];
      if requested[i] in allowed { result := result + [requested[i]]; }
    }
    assert requested[..|requested|] == requested;
  }

  // ----- clients -----

  datatype MetaValue = Text(s: string) | NotText

  const CAPABILITY_KEY := "capability"
  const CAPABILITY_ADMIN := "admin"
  const SCOPE_ADMIN := "admin"
  const ADMIN_SCOPE_PREFIX := "admin:"

  predicate IsAdminScope(scope: string) {
    scope == SCOPE_ADMIN || ADMIN_SCOPE_PREFIX <= scope
  }

  datatype Client = Client(
    clientId: string,
    redirectURIs: seq<string>,
    grantTypes: seq<string>,
    scopes: seq<string>,
    confidential: bool,
    metadata: map<string, MetaValue>)
  {
    predicate HasAdminCapability() {
      CAPABILITY_KEY in metadata && metadata[CAPABILITY_KEY] == Text(CAPABILITY_ADMIN)
    }

    predicate HasGrantType(gt: string) {
      gt in grantTypes
    }

    /** Registered for the client, and not an admin scope a plain client may not have. */
    predicate MayHave(scope: string) {
      scope in scopes && (IsAdminScope(scope) ==> HasAdminCapability())
    }

    function ValidScopes(requested: seq<string>): (r: seq<string>)
      ensures forall s :: s in r <==> s in requested && MayHave(s)
    {
      Keep(s => this.MayHave(s), requested)
    }

    method ValidateScope(requested: seq<string>) returns (valid: seq<string>)
      ensures valid == ValidScopes(requested)
    {
      valid := [];
      for i := 0 to |requested|
        invariant valid == ValidScopes(requested[..i])
      {
        assert requested[..i + 1][..i] == requested[..i];
        if IsAdminScope(requested[i]) && !HasAdminCapability() { continue; }
        if requested[i] in scopes { valid := valid + [requested[i]]; }
      }
      assert requested[..|requested|] == requested;
    }

    /** Every registered URI is compared, also after a match. */
    method ValidateRedirectURI(schemeOk: string -> bool, uri: string) returns (ok: bool)
      ensures ok <==> schemeOk(uri) && uri in redirectURIs
    {
      if !schemeOk(uri) { return false; }
      var found := 0;
      for i := 0 to |redirectURIs|
        invariant found == if uri in redirectURIs[..i] then 1 else 0
      {
        if uri == redirectURIs[i] { found := 1; }
      }
      return found == 1;
    }
  }
}
