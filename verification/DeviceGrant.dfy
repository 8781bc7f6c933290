/**
 The device authorization grant: the status machine of
 internal/oauth2/domain/device_code.go, the Redis scripts of
 internal/oauth2/service/device_code_service.go, and the polling handler of
 internal/oauth2/controller/oauth2_device.go.

 A poll is five steps (snapshot, rate check, account check, claim, mint) that
 interleave with other polls and with the user's decision.
 */
module DeviceGrant {
  import opened Common
  import opened OAuthClient
  import Text

  datatype Status = Pending | Authorized | Denied | Used

  datatype Code = Code(clientId: string, scopes: seq<string>, status: Status, account: string, expiresAt: int)

  // ----- the record and its transitions -----

  datatype Refusal = NotFound | AccountRequired | AlreadyAuthorized | AlreadyDenied | AlreadyUsed | NotAuthorized

  /** The moves of a device code; a used or denied code never moves again. */
  predicate Moves(c: Code, c': Code) {
    && c'.clientId == c.clientId && c'.scopes == c.scopes && c'.expiresAt == c.expiresAt
    && (c' == c
        || (c.status.Pending? && c'.status.Authorized?)
        || (c.status.Pending? && c'.status.Denied? && c'.account == c.account)
        || (c.status.Authorized? && c'.status.Used? && c'.account == c.account))
  }

  class DeviceCode {
    var code: Code

    constructor (c: Code)
      ensures code == c
    {
      code := c;
    }

    method Authorize(account: string) returns (err: Option<Refusal>)
      modifies this
      ensures Moves(old(code), code)
      ensures err.None? <==> account != "" && old(code).status.Pending?
      ensures err.None? ==> code.status.Authorized? && code.account == account
      ensures err.Some? ==> code == old(code)
    {
      if account == "" { return Some(AccountRequired); }
      if code.status == Authorized { return Some(AlreadyAuthorized); }
      if code.status == Denied { return Some(AlreadyDenied); }
      if code.status == Used { return Some(AlreadyUsed); }
      code := code.(status := Authorized, account := account);
      return None;
    }

    method Deny() returns (err: Option<Refusal>)
      modifies this
      ensures Moves(old(code), code)
      ensures err.None? <==> old(code).status.Pending?
      ensures err.None? ==> code.status.Denied?
      ensures err.Some? ==> code == old(code)
    {
      if code.status == Authorized { return Some(AlreadyAuthorized); }
      if code.status == Denied { return Some(AlreadyDenied); }
      if code.status == Used { return Some(AlreadyUsed); }
      code := code.(status := Denied);
      return None;
    }

    method MarkUsed() returns (err: Option<Refusal>)
      modifies this
      ensures Moves(old(code), code)
      ensures err.None? <==> old(code).status.Authorized?
      ensures err.None? ==> code.status.Used? && code.account == old(code).account
      ensures err.Some? ==> code == old(code)
    {
      if code.status == Used { return Some(AlreadyUsed); }
      if code.status != Authorized { return Some(NotAuthorized); }
      code := code.(status := Used);
      return None;
    }
  }

  // ----- the store -----

  /** A value under an expiry; None never expires. */
  datatype Stored<T> = Stored(value: T, expireAt: Option<int>)

  datatype Flight =
    | Snapped(hash: string, caller: string, snap: Code)
    | Paced(hash: string, caller: string, snap: Code)
    | Vetted(hash: string, caller: string, vetted: string)
    | Claimed(hash: string, caller: string, vetted: string, code: Code)

  /** The one claim of a code: with a request, turned into a token, or wasted. */
  datatype Claim = By(rid: nat) | Minted(index: nat) | Wasted

  datatype Origin = Origin(client: Client, requested: string)

  /** A code's two Redis keys, and its history: who approved it, its claim, the instant of its last admitted poll. */
  datatype Entry = Entry(
    code: Stored<Code>, poll: Option<Stored<int>>,
    origin: Origin, approved: Option<string>, claim: Option<Claim>, lastPoll: Option<int>)

  /** rid is the poll it was minted for. */
  datatype Token = Token(rid: nat, hash: string, caller: string, account: string, clientId: string, scope: string, vetted: string)

  datatype State = State(now: int, active: set<string>, book: map<string, Entry>, flights: map<nat, Flight>, minted: seq<Token>)

  datatype Config = Config(expiryMs: nat, intervalSec: nat)

  function Init(now: int): State {
    State(now, {}, map[], map[], [])
  }

  predicate Alive(now: int, expireAt: Option<int>) {
    expireAt.Some? ==> now <= expireAt.value
  }

  predicate Here(s: State, hash: string) {
    hash in s.book && Alive(s.now, s.book[hash].code.expireAt)
  }

  /** SET ... PX pttl, or a plain SET when PTTL is not positive. */
  function Kept(now: int, expireAt: Option<int>): Option<int> {
    if expireAt.Some? && expireAt.value - now > 0 then expireAt else None
  }

  /** SET ... EX ttl with TTL's rounding to seconds, or 60 s when that is not positive. */
  function KeptSeconds(now: int, expireAt: Option<int>): Option<int> {
    var ttl := if expireAt.Some? then (expireAt.value - now + 500) / 1000 else -1;
    Some(now + 1000 * if ttl > 0 then ttl else 60)
  }

  // ----- the scripts, on one code -----

  /** Without a scope parameter the client gets all it is registered for. */
  function GrantedScopes(client: Client, requested: string): seq<string> {
    if Tokens(requested) == [] then client.scopes else client.ValidScopes(Tokens(requested))
  }

  function Created(cfg: Config, now: int, client: Client, requested: string): Entry {
    Entry(Stored(Code(client.clientId, GrantedScopes(client, requested), Pending, "", now + cfg.expiryMs),
                 Some(now + cfg.expiryMs / 1000 * 1000)),
          None, Origin(client, requested), None, None, None)
  }

  function Approve(now: int, e: Entry, account: string): Entry {
    e.(code := Stored(e.code.value.(status := Authorized, account := account), Kept(now, e.code.expireAt)),
       approved := Some(account))
  }

  function Refuse(now: int, e: Entry): Entry {
    e.(code := Stored(e.code.value.(status := Denied), Kept(now, e.code.expireAt)))
  }

  function Epoch(now: int): int { now / 1000 }

  predicate TooSoon(cfg: Config, now: int, e: Entry) {
    && e.poll.Some? && Alive(now, e.poll.value.expireAt)
    && e.poll.value.value > 0 && Epoch(now) - e.poll.value.value < cfg.intervalSec
  }

  /** Both keys are rewritten under what is left of the code's expiry. */
  function Polled(now: int, e: Entry): Entry {
    var left := Kept(now, e.code.expireAt);
    e.(code := Stored(e.code.value, left), poll := Some(Stored(Epoch(now), left)), lastPoll := Some(now))
  }

  function TakenBy(now: int, e: Entry, rid: nat): Entry {
    e.(code := Stored(e.code.value.(status := Used), KeptSeconds(now, e.code.expireAt)), claim := Some(By(rid)))
  }

  // ----- steps -----

  function Create(cfg: Config, s: State, client: Client, requested: string, hash: string): State {
    if hash in s.book || client.clientId == "" || (GrantedScopes(client, requested) == [] && Tokens(requested) != []) then s
    else s.(book := s.book[hash := Created(cfg, s.now, client, requested)])
  }

  function Authorize(s: State, hash: string, account: string): State {
    if !Here(s, hash) || !s.book[hash].code.value.status.Pending? || account == "" then s
    else s.(book := s.book[hash := Approve(s.now, s.book[hash], account)])
  }

  function Deny(s: State, hash: string): State {
    if !Here(s, hash) || !s.book[hash].code.value.status.Pending? then s
    else s.(book := s.book[hash := Refuse(s.now, s.book[hash])])
  }

  /** GetDeviceCode and the checks on what it returned. */
  function Snap(s: State, rid: nat, caller: string, hash: string): State {
    if rid in s.flights || caller == "" || !Here(s, hash) then s
    else
      var c := s.book[hash].code.value;
      if c.clientId != caller || s.now > c.expiresAt then s
      else s.(flights := s.flights[rid := Snapped(hash, caller, c)])
  }

  function EndFlight(s: State, rid: nat): State {
    s.(flights := s.flights - {rid})
  }

  function Pace(cfg: Config, s: State, rid: nat): State {
    if rid !in s.flights || !s.flights[rid].Snapped? then s
    else
      var f := s.flights[rid];
      if !Here(s, f.hash) || TooSoon(cfg, s.now, s.book[f.hash]) then EndFlight(s, rid)
      else s.(book := s.book[f.hash := Polled(s.now, s.book[f.hash])],
              flights := s.flights[rid := Paced(f.hash, f.caller, f.snap)])
  }

  /** The switch on the snapshot's status, and the account check. */
  function Vet(s: State, rid: nat): State {
    if rid !in s.flights || !s.flights[rid].Paced? then s
    else
      var f := s.flights[rid];
      if !f.snap.status.Authorized? || f.snap.account !in s.active then EndFlight(s, rid)
      else s.(flights := s.flights[rid := Vetted(f.hash, f.caller, f.snap.account)])
  }

  predicate Claimable(s: State, hash: string, caller: string) {
    && Here(s, hash) && s.book[hash].code.value.status.Authorized? && s.book[hash].code.value.clientId == caller
  }

  function ClaimCode(s: State, rid: nat): State {
    if rid !in s.flights || !s.flights[rid].Vetted? then s
    else
      var f := s.flights[rid];
      if !Claimable(s, f.hash, f.caller) then EndFlight(s, rid)
      else
        var e := TakenBy(s.now, s.book[f.hash], rid);
        s.(book := s.book[f.hash := e], flights := s.flights[rid := Claimed(f.hash, f.caller, f.vetted, e.code.value)])
  }

  function TokenOf(rid: nat, f: Flight): Token
    requires f.Claimed?
  {
    Token(rid, f.hash, f.caller, f.code.account, f.code.clientId, Text.Join(f.code.scopes, ' '), f.vetted)
  }

  function Mint(s: State, rid: nat, signed: bool): State {
    if rid !in s.flights || !s.flights[rid].Claimed? || s.flights[rid].hash !in s.book then s
    else
      var f := s.flights[rid];
      var e := s.book[f.hash];
      if !signed then EndFlight(s, rid).(book := s.book[f.hash := e.(claim := Some(Wasted))])
      else EndFlight(s, rid).(book := s.book[f.hash := e.(claim := Some(Minted(|s.minted|)))], minted := s.minted + [TokenOf(rid, f)])
  }

  datatype Action =
    | ATick(ms: nat)
    | ASetActive(active: set<string>)
    | ACreate(client: Client, requested: string, hash: string)
    | AAuthorize(hash: string, account: string)
    | ADeny(hash: string)
    | ASnap(rid: nat, caller: string, hash: string)
    | APace(rid: nat)
    | AVet(rid: nat)
    | AClaim(rid: nat)
    | AMint(rid: nat, signed: bool)

  function Step(cfg: Config, s: State, a: Action): State {
    match a
    case ATick(ms) => s.(now := s.now + ms)
    case ASetActive(active) => s.(active := active)
    case ACreate(client, requested, hash) => Create(cfg, s, client, requested, hash)
    case AAuthorize(hash, account) => Authorize(s, hash, account)
    case ADeny(hash) => Deny(s, hash)
    case ASnap(rid, caller, hash) => Snap(s, rid, caller, hash)
    case APace(rid) => Pace(cfg, s, rid)
    case AVet(rid) => Vet(s, rid)
    case AClaim(rid) => ClaimCode(s, rid)
    case AMint(rid, signed) => Mint(s, rid, signed)
  }

  function Run(cfg: Config, now: int, acts: seq<Action>): State {
    if acts == [] then Init(now) else Step(cfg, Run(cfg, now, acts[..|acts| - 1]), acts[|acts| - 1])
  }

  lemma RunNext(cfg: Config, now: int, acts: seq<Action>, a: Action)
    ensures Run(cfg, now, acts + [a]) == Step(cfg, Run(cfg, now, acts), a)
  {
    hide Step;
    assert (acts + [a])[..|acts|] == acts;
  }

  // ----- invariant -----

  /** c is this code as some moment saw it. */
  ghost predicate Of(e: Entry, c: Code) {
    && c.clientId == e.origin.client.clientId
    && c.scopes == GrantedScopes(e.origin.client, e.origin.requested)
    && (c.status.Authorized? || c.status.Used? ==> e.approved == Some(c.account))
  }

  ghost predicate EntryOk(e: Entry) {
    && Of(e, e.code.value)
    && (e.approved.Some? ==> !e.code.value.status.Pending?)
    && (e.claim.Some? ==> e.code.value.status.Used?)
    && (e.lastPoll.Some? && e.code.expireAt.Some? && !e.code.value.status.Used? ==>
          e.poll == Some(Stored(Epoch(e.lastPoll.value), e.code.expireAt)))
  }

  ghost predicate FlightOk(book: map<string, Entry>, rid: nat, f: Flight) {
    && f.hash in book
    && var e := book[f.hash];
       match f
       case Snapped(_, caller, snap) => Of(e, snap) && snap.clientId == caller
       case Paced(_, caller, snap) => Of(e, snap) && snap.clientId == caller
       case Vetted(_, caller, vetted) => e.approved == Some(vetted)
       case Claimed(_, caller, vetted, c) =>
         Of(e, c) && c.status.Used? && c.clientId == caller && vetted == c.account && e.claim == Some(By(rid))
  }

  ghost predicate TokenOk(book: map<string, Entry>, i: nat, t: Token) {
    && t.hash in book
    && var e := book[t.hash];
       && e.claim == Some(Minted(i))
       && e.approved == Some(t.account) && t.vetted == t.account
       && t.clientId == e.origin.client.clientId == t.caller
       && t.scope == Text.Join(GrantedScopes(e.origin.client, e.origin.requested), ' ')
  }

  ghost predicate BookOk(book: map<string, Entry>) {
    forall h | h in book :: EntryOk(book[h])
  }

  ghost predicate FlightsOk(book: map<string, Entry>, flights: map<nat, Flight>) {
    forall rid | rid in flights :: FlightOk(book, rid, flights[rid])
  }

  ghost predicate TokensOk(book: map<string, Entry>, minted: seq<Token>) {
    forall i | 0 <= i < |minted| :: TokenOk(book, i, minted[i])
  }

  ghost predicate Inv(s: State) {
    BookOk(s.book) && FlightsOk(s.book, s.flights) && TokensOk(s.book, s.minted)
  }

  // ----- one code evolves -----

  /** What a code's entry may become: its history only grows, its claim only leaves the request that has it. */
  ghost predicate Evolves(e: Entry, e': Entry, rid: nat) {
    && EntryOk(e') && Moves(e.code.value, e'.code.value)
    && e'.origin == e.origin
    && (e.approved.Some? ==> e'.approved == e.approved)
    && (e.claim.Some? && e.claim != Some(By(rid)) ==> e'.claim == e.claim)
  }

  lemma ScriptsEvolve(now: int, e: Entry, account: string, rid: nat)
    requires EntryOk(e)
    ensures e.code.value.status.Pending? ==> Evolves(e, Approve(now, e, account), rid) && Evolves(e, Refuse(now, e), rid)
    ensures Evolves(e, Polled(now, e), rid)
    ensures e.code.value.status.Authorized? ==> Evolves(e, TakenBy(now, e, rid), rid)
  {
    hide GrantedScopes, KeptSeconds;
  }

  /** A token or a request on another code, or a request other than rid on this one, does not notice. */
  lemma EvolvesSpares(book: map<string, Entry>, hash: string, e': Entry, rid: nat, flights: map<nat, Flight>, minted: seq<Token>)
    requires hash in book && Evolves(book[hash], e', rid) && BookOk(book) && FlightsOk(book, flights) && TokensOk(book, minted)
    ensures var book' := book[hash := e'];
            && BookOk(book')
            && (forall r | r in flights && r != rid :: FlightOk(book', r, flights[r]))
            && TokensOk(book', minted)
  {
    hide GrantedScopes, Text.Join, Moves, EntryOk;
    var book' := book[hash := e'];
    assert BookOk(book') by { hide FlightsOk, TokensOk; }
    forall r | r in flights && r != rid ensures FlightOk(book', r, flights[r]) {
      assert FlightOk(book, r, flights[r]);
    }
    assert TokensOk(book', minted) by {
      hide FlightsOk;
      forall i | 0 <= i < |minted| ensures TokenOk(book', i, minted[i]) {
        assert TokenOk(book, i, minted[i]);
      }
    }
  }

  lemma CreateKeeps(cfg: Config, s: State, client: Client, requested: string, hash: string)
    requires Inv(s)
    ensures Inv(Create(cfg, s, client, requested, hash))
  {
    hide GrantedScopes, Tokens, Text.Join;
    if hash !in s.book {
      var e := Created(cfg, s.now, client, requested);
      var book' := s.book[hash := e];
      assert EntryOk(e);
      hide EntryOk;
      assert BookOk(book');
      forall r | r in s.flights ensures FlightOk(book', r, s.flights[r]) { assert FlightOk(s.book, r, s.flights[r]); }
      forall i | 0 <= i < |s.minted| ensures TokenOk(book', i, s.minted[i]) { assert TokenOk(s.book, i, s.minted[i]); }
    }
  }

  lemma FlightKeeps(s: State, rid: nat, f: Flight)
    requires Inv(s) && FlightOk(s.book, rid, f)
    ensures Inv(s.(flights := s.flights[rid := f]))
  {
    hide FlightOk, TokenOk, EntryOk;
  }

  lemma EndKeeps(s: State, rid: nat)
    requires Inv(s)
    ensures Inv(EndFlight(s, rid))
  {
    hide FlightOk, TokenOk, EntryOk;
  }

  /** An entry evolves; the request that did it goes on or ends. */
  lemma EvolveKeeps(s: State, hash: string, e': Entry, rid: nat, flights: map<nat, Flight>)
    requires Inv(s) && hash in s.book && Evolves(s.book[hash], e', rid)
    requires forall r | r in flights && r != rid :: r in s.flights && flights[r] == s.flights[r]
    requires rid in flights ==> FlightOk(s.book[hash := e'], rid, flights[rid])
    ensures Inv(s.(book := s.book[hash := e'], flights := flights))
  {
    EvolvesSpares(s.book, hash, e', rid, s.flights, s.minted);
    hide FlightOk, TokenOk, EntryOk, Evolves;
  }

  /** A decision touches no request; a number no request has stands for its author. */
  lemma DecisionKeeps(s: State, hash: string, e': Entry)
    requires Inv(s) && hash in s.book
    requires forall rid: nat :: Evolves(s.book[hash], e', rid)
    ensures Inv(s.(book := s.book[hash := e']))
  {
    hide FlightOk, TokenOk, EntryOk;
    forall r | r in s.flights ensures FlightOk(s.book[hash := e'], r, s.flights[r]) {
      EvolvesSpares(s.book, hash, e', r + 1, s.flights, s.minted);
    }
    EvolvesSpares(s.book, hash, e', 0, s.flights, s.minted);
  }

  lemma DecideKeeps(s: State, hash: string, account: string)
    requires Inv(s)
    ensures Inv(Authorize(s, hash, account)) && Inv(Deny(s, hash))
  {
    hide Approve, Refuse, EntryOk;
    if Here(s, hash) && s.book[hash].code.value.status.Pending? {
      var e := s.book[hash];
      assert EntryOk(e);
      hide Evolves, Inv;
      forall rid: nat ensures Evolves(e, Approve(s.now, e, account), rid) && Evolves(e, Refuse(s.now, e), rid) {
        ScriptsEvolve(s.now, e, account, rid);
      }
      DecisionKeeps(s, hash, Approve(s.now, e, account));
      DecisionKeeps(s, hash, Refuse(s.now, e));
    }
  }

  lemma SnapKeeps(s: State, rid: nat, caller: string, hash: string)
    requires Inv(s)
    ensures Inv(Snap(s, rid, caller, hash))
  {
    if Here(s, hash) && s.book[hash].code.value.clientId == caller {
      assert EntryOk(s.book[hash]);
      hide Inv, Of;
      FlightKeeps(s, rid, Snapped(hash, caller, s.book[hash].code.value));
    }
  }

  lemma RequestOk(s: State, rid: nat)
    requires Inv(s) && rid in s.flights
    ensures FlightOk(s.book, rid, s.flights[rid]) && s.flights[rid].hash in s.book && EntryOk(s.book[s.flights[rid].hash])
  {
    hide TokensOk, EntryOk;
    assert FlightOk(s.book, rid, s.flights[rid]);
  }

  lemma PaceKeeps(cfg: Config, s: State, rid: nat)
    requires Inv(s)
    ensures Inv(Pace(cfg, s, rid))
  {
    hide Inv, TooSoon, Polled, EntryOk;
    if rid in s.flights && s.flights[rid].Snapped? {
      RequestOk(s, rid);
      EndKeeps(s, rid);
      var f := s.flights[rid];
      var e' := Polled(s.now, s.book[f.hash]);
      ScriptsEvolve(s.now, s.book[f.hash], "", rid);
      var g := Paced(f.hash, f.caller, f.snap);
      assert FlightOk(s.book[f.hash := e'], rid, g) by { hide GrantedScopes, Moves; }
      hide FlightOk, Evolves;
      EvolveKeeps(s, f.hash, e', rid, s.flights[rid := g]);
    }
  }

  lemma VetKeeps(s: State, rid: nat)
    requires Inv(s)
    ensures Inv(Vet(s, rid))
  {
    hide Inv, EntryOk;
    if rid in s.flights && s.flights[rid].Paced? {
      RequestOk(s, rid);
      EndKeeps(s, rid);
      var f := s.flights[rid];
      if f.snap.status.Authorized? { FlightKeeps(s, rid, Vetted(f.hash, f.caller, f.snap.account)); }
    }
  }

  lemma ClaimedFlightOk(s: State, rid: nat)
    requires rid in s.flights && s.flights[rid].Vetted? && FlightOk(s.book, rid, s.flights[rid])
    requires Claimable(s, s.flights[rid].hash, s.flights[rid].caller) && EntryOk(s.book[s.flights[rid].hash])
    ensures var f := s.flights[rid];
            var e := TakenBy(s.now, s.book[f.hash], rid);
            FlightOk(s.book[f.hash := e], rid, Claimed(f.hash, f.caller, f.vetted, e.code.value))
  {
    hide GrantedScopes, KeptSeconds;
  }

  lemma ClaimKeeps(s: State, rid: nat)
    requires Inv(s)
    ensures Inv(ClaimCode(s, rid))
  {
    hide Inv, TakenBy, EntryOk, FlightOk;
    if rid in s.flights && s.flights[rid].Vetted? {
      RequestOk(s, rid);
      EndKeeps(s, rid);
      var f := s.flights[rid];
      if Claimable(s, f.hash, f.caller) {
        var e' := TakenBy(s.now, s.book[f.hash], rid);
        ScriptsEvolve(s.now, s.book[f.hash], "", rid);
        ClaimedFlightOk(s, rid);
        hide Evolves;
        EvolveKeeps(s, f.hash, e', rid, s.flights[rid := Claimed(f.hash, f.caller, f.vetted, e'.code.value)]);
      }
    }
  }

  lemma SettleEvolves(e: Entry, rid: nat, c: Claim)
    requires EntryOk(e) && e.claim == Some(By(rid))
    ensures Evolves(e, e.(claim := Some(c)), rid)
  {
    hide GrantedScopes;
  }

  lemma MintKeeps(s: State, rid: nat, signed: bool)
    requires Inv(s)
    ensures Inv(Mint(s, rid, signed))
  {
    hide Inv, EntryOk, TokenOf;
    if rid in s.flights && s.flights[rid].Claimed? {
      RequestOk(s, rid);
      var f := s.flights[rid];
      var e := s.book[f.hash];
      var flights := s.flights - {rid};
      SettleEvolves(e, rid, Wasted);
      EvolveKeeps(s, f.hash, e.(claim := Some(Wasted)), rid, flights);
      SettleEvolves(e, rid, Minted(|s.minted|));
      var e' := e.(claim := Some(Minted(|s.minted|)));
      EvolveKeeps(s, f.hash, e', rid, flights);
      AddToken(s.(book := s.book[f.hash := e'], flights := flights), s.book, rid, f);
    }
  }

  lemma AddToken(s: State, before: map<string, Entry>, rid: nat, f: Flight)
    requires Inv(s) && f.Claimed? && FlightOk(before, rid, f)
    requires f.hash in s.book && s.book[f.hash] == before[f.hash].(claim := Some(Minted(|s.minted|)))
    ensures Inv(s.(minted := s.minted + [TokenOf(rid, f)]))
  {
    hide EntryOk, GrantedScopes, Text.Join;
    assert TokenOk(s.book, |s.minted|, TokenOf(rid, f));
    hide FlightOk, TokenOk;
  }

  lemma StepKeeps(cfg: Config, s: State, a: Action)
    requires Inv(s)
    ensures Inv(Step(cfg, s, a))
  {
    hide Create, Authorize, Deny, Snap, Pace, Vet, ClaimCode, Mint, BookOk, FlightsOk, TokensOk;
    match a
    case ATick(ms) =>
    case ASetActive(active) =>
    case ACreate(client, requested, hash) => CreateKeeps(cfg, s, client, requested, hash);
    case AAuthorize(hash, account) => DecideKeeps(s, hash, account);
    case ADeny(hash) => DecideKeeps(s, hash, "");
    case ASnap(rid, caller, hash) => SnapKeeps(s, rid, caller, hash);
    case APace(rid) => PaceKeeps(cfg, s, rid);
    case AVet(rid) => VetKeeps(s, rid);
    case AClaim(rid) => ClaimKeeps(s, rid);
    case AMint(rid, signed) => MintKeeps(s, rid, signed);
  }

  lemma {:induction false} RunKeeps(cfg: Config, now: int, acts: seq<Action>)
    ensures Inv(Run(cfg, now, acts))
  {
    if acts != [] {
      hide Inv, Step;
      RunKeeps(cfg, now, acts[..|acts| - 1]);
      StepKeeps(cfg, Run(cfg, now, acts[..|acts| - 1]), acts[|acts| - 1]);
    }
  }

  // ----- what every run guarantees -----

  /** At most one poll of a code reaches token issuance. */
  lemma CodeMintedOnce(cfg: Config, now: int, acts: seq<Action>, i: nat, j: nat)
    requires i < |Run(cfg, now, acts).minted| && j < |Run(cfg, now, acts).minted|
    requires Run(cfg, now, acts).minted[i].hash == Run(cfg, now, acts).minted[j].hash
    ensures i == j
  {
    hide Run, BookOk, FlightsOk, GrantedScopes, Text.Join;
    RunKeeps(cfg, now, acts);
    var s := Run(cfg, now, acts);
    assert TokenOk(s.book, i, s.minted[i]) && TokenOk(s.book, j, s.minted[j]);
  }

  // Where a code's records come from; the numbers are positions in the run.

  predicate Creates(a: Action, hash: string, origin: Origin) {
    a.ACreate? && a.hash == hash && a.client == origin.client && a.requested == origin.requested
  }

  predicate Approves(a: Action, hash: string, account: string) {
    a.AAuthorize? && a.hash == hash && a.account == account
  }

  /** The account check of this poll, on its own snapshot of the code, passes. */
  predicate Vets(s: State, a: Action, rid: nat, f: Flight) {
    && a == AVet(rid) && f.Vetted?
    && rid in s.flights && s.flights[rid].Paced? && s.flights[rid].hash == f.hash && s.flights[rid].caller == f.caller
    && s.flights[rid].snap.status.Authorized? && s.flights[rid].snap.account == f.vetted && f.vetted in s.active
  }

  /** The atomic claim of this poll finds the code authorized. */
  predicate Claims(s: State, a: Action, rid: nat, f: Flight) {
    a == AClaim(rid) && f.Vetted? && rid in s.flights && s.flights[rid] == f && Claimable(s, f.hash, f.caller)
  }

  ghost predicate WasCreated(acts: seq<Action>, hash: string, origin: Origin) {
    exists n :: 0 <= n < |acts| && Creates(acts[n], hash, origin)
  }

  ghost predicate WasApproved(acts: seq<Action>, hash: string, account: string) {
    exists n :: 0 <= n < |acts| && Approves(acts[n], hash, account)
  }

  predicate Holds(s: State, rid: nat, f: Flight) {
    rid in s.flights && s.flights[rid] == f
  }

  /** The poll was vetted at step n and has been waiting since. */
  ghost predicate VettedAt(cfg: Config, now: int, acts: seq<Action>, n: nat, rid: nat, f: Flight) {
    && n < |acts| && Vets(Run(cfg, now, acts[..n]), acts[n], rid, f)
    && forall k | n < k <= |acts| :: Holds(Run(cfg, now, acts[..k]), rid, f)
  }

  ghost predicate WasVetted(cfg: Config, now: int, acts: seq<Action>, rid: nat, f: Flight) {
    exists n: nat :: VettedAt(cfg, now, acts, n, rid, f)
  }

  /** The poll claimed the code at step n, as it had been vetted. */
  ghost predicate ClaimedAt(cfg: Config, now: int, acts: seq<Action>, n: nat, rid: nat, f: Flight) {
    n < |acts| && Claims(Run(cfg, now, acts[..n]), acts[n], rid, f) && WasVetted(cfg, now, acts[..n], rid, f)
  }

  ghost predicate WasClaimed(cfg: Config, now: int, acts: seq<Action>, rid: nat, f: Flight) {
    exists n: nat :: ClaimedAt(cfg, now, acts, n, rid, f)
  }

  ghost predicate EntryTraced(acts: seq<Action>, hash: string, e: Entry) {
    WasCreated(acts, hash, e.origin) && (e.approved.Some? ==> WasApproved(acts, hash, e.approved.value))
  }

  ghost predicate BookTraced(acts: seq<Action>, book: map<string, Entry>) {
    forall h | h in book :: EntryTraced(acts, h, book[h])
  }

  ghost predicate FlightTraced(cfg: Config, now: int, acts: seq<Action>, rid: nat, f: Flight) {
    && (f.Vetted? ==> WasVetted(cfg, now, acts, rid, f))
    && (f.Claimed? ==> WasClaimed(cfg, now, acts, rid, Vetted(f.hash, f.caller, f.vetted)))
  }

  ghost predicate TokenTraced(cfg: Config, now: int, acts: seq<Action>, t: Token) {
    WasClaimed(cfg, now, acts, t.rid, Vetted(t.hash, t.caller, t.vetted))
  }

  ghost predicate PollsTraced(cfg: Config, now: int, acts: seq<Action>, s: State) {
    && (forall rid | rid in s.flights :: FlightTraced(cfg, now, acts, rid, s.flights[rid]))
    && (forall i | 0 <= i < |s.minted| :: TokenTraced(cfg, now, acts, s.minted[i]))
  }

  lemma EntryTracedLater(acts: seq<Action>, a: Action, hash: string, e: Entry)
    requires WasCreated(acts, hash, e.origin) || Creates(a, hash, e.origin)
    requires e.approved.Some? ==> WasApproved(acts, hash, e.approved.value) || Approves(a, hash, e.approved.value)
    ensures EntryTraced(acts + [a], hash, e)
  {
    hide Creates, Approves;
    var h := acts + [a];
    assert h[|acts|] == a && forall n | 0 <= n < |acts| :: h[n] == acts[n];
    if !Creates(a, hash, e.origin) {
      var n :| 0 <= n < |acts| && Creates(acts[n], hash, e.origin);
      assert Creates(h[n], hash, e.origin);
    }
    if e.approved.Some? && !Approves(a, hash, e.approved.value) {
      var n :| 0 <= n < |acts| && Approves(acts[n], hash, e.approved.value);
      assert Approves(h[n], hash, e.approved.value);
    }
  }

  lemma Prefixes(acts: seq<Action>, a: Action)
    ensures forall n | 0 <= n <= |acts| :: (acts + [a])[..n] == acts[..n]
    ensures forall n | 0 <= n < |acts| :: (acts + [a])[n] == acts[n]
    ensures (acts + [a])[|acts|] == a && acts[..|acts|] == acts && (acts + [a])[..|acts| + 1] == acts + [a]
  {
  }

  /** A vetted poll that is still there was vetted then, or is by this action. */
  lemma VettedLater(cfg: Config, now: int, acts: seq<Action>, a: Action, rid: nat, f: Flight)
    requires (WasVetted(cfg, now, acts, rid, f)) || Vets(Run(cfg, now, acts), a, rid, f)
    requires Holds(Run(cfg, now, acts + [a]), rid, f)
    ensures WasVetted(cfg, now, acts + [a], rid, f)
  {
    hide Vets, Holds, Run;
    Prefixes(acts, a);
    var h := acts + [a];
    if WasVetted(cfg, now, acts, rid, f) {
      var n: nat :| VettedAt(cfg, now, acts, n, rid, f);
      forall k | n < k <= |h| ensures Holds(Run(cfg, now, h[..k]), rid, f) {
        if k <= |acts| { assert h[..k] == acts[..k]; }
      }
      assert VettedAt(cfg, now, h, n, rid, f);
    } else {
      assert VettedAt(cfg, now, h, |acts|, rid, f);
    }
  }

  lemma ClaimedLater(cfg: Config, now: int, acts: seq<Action>, a: Action, rid: nat, f: Flight)
    requires WasClaimed(cfg, now, acts, rid, f) || (Claims(Run(cfg, now, acts), a, rid, f) && WasVetted(cfg, now, acts, rid, f))
    ensures WasClaimed(cfg, now, acts + [a], rid, f)
  {
    hide Claims, WasVetted, Run;
    Prefixes(acts, a);
    var h := acts + [a];
    if WasClaimed(cfg, now, acts, rid, f) {
      var n: nat :| ClaimedAt(cfg, now, acts, n, rid, f);
      assert ClaimedAt(cfg, now, h, n, rid, f);
    } else {
      assert ClaimedAt(cfg, now, h, |acts|, rid, f);
    }
  }

  /** A step leaves a code's origin alone, and only AAuthorize approves it. */
  lemma StepHistory(cfg: Config, s: State, a: Action, hash: string)
    requires hash in Step(cfg, s, a).book
    ensures var e' := Step(cfg, s, a).book[hash];
            && (hash !in s.book ==> Creates(a, hash, e'.origin) && e'.approved.None?)
            && (hash in s.book ==>
                  && e'.origin == s.book[hash].origin
                  && (e'.approved == s.book[hash].approved || (e'.approved.Some? && Approves(a, hash, e'.approved.value))))
  {
    hide GrantedScopes, Kept, KeptSeconds, TooSoon, Tokens, TokenOf;
  }

  lemma StepBookTraced(cfg: Config, s: State, acts: seq<Action>, a: Action)
    requires BookTraced(acts, s.book)
    ensures BookTraced(acts + [a], Step(cfg, s, a).book)
  {
    hide Step, Creates, Approves;
    forall h | h in Step(cfg, s, a).book ensures EntryTraced(acts + [a], h, Step(cfg, s, a).book[h]) {
      StepHistory(cfg, s, a, h);
      EntryTracedLater(acts, a, h, Step(cfg, s, a).book[h]);
    }
  }

  /** Where a step's vetted and claimed polls and its tokens come from. */
  lemma StepPolls(cfg: Config, s: State, a: Action)
    ensures var s' := Step(cfg, s, a);
            && (forall rid | rid in s'.flights && s'.flights[rid].Vetted? ::
                  Holds(s, rid, s'.flights[rid]) || Vets(s, a, rid, s'.flights[rid]))
            && (forall rid | rid in s'.flights && s'.flights[rid].Claimed? ::
                  Holds(s, rid, s'.flights[rid]) || Claims(s, a, rid, Vetted(s'.flights[rid].hash, s'.flights[rid].caller, s'.flights[rid].vetted)))
            && (forall i | 0 <= i < |s'.minted| ::
                  || (i < |s.minted| && s'.minted[i] == s.minted[i])
                  || (s'.minted[i].rid in s.flights && s.flights[s'.minted[i].rid].Claimed?
                      && s'.minted[i] == TokenOf(s'.minted[i].rid, s.flights[s'.minted[i].rid])))
  {
    hide GrantedScopes, Kept, KeptSeconds, TooSoon, Tokens, Text.Join, Polled, TakenBy, Approve, Refuse, Created;
  }

  lemma StepPollsTraced(cfg: Config, now: int, acts: seq<Action>, a: Action)
    requires PollsTraced(cfg, now, acts, Run(cfg, now, acts))
    ensures PollsTraced(cfg, now, acts + [a], Step(cfg, Run(cfg, now, acts), a))
  {
    hide Step, Vets, Claims, WasVetted, WasClaimed, Run, Text.Join;
    var s := Run(cfg, now, acts);
    var s' := Step(cfg, s, a);
    StepPolls(cfg, s, a);
    RunNext(cfg, now, acts, a);
    forall rid | rid in s'.flights ensures FlightTraced(cfg, now, acts + [a], rid, s'.flights[rid]) {
      var f := s'.flights[rid];
      if f.Vetted? {
        VettedLater(cfg, now, acts, a, rid, f);
      } else if f.Claimed? {
        if Holds(s, rid, f) { assert FlightTraced(cfg, now, acts, rid, f); } else { ClaimerVetted(cfg, now, acts, s, a, rid, f); }
        ClaimedLater(cfg, now, acts, a, rid, Vetted(f.hash, f.caller, f.vetted));
      }
    }
    forall i | 0 <= i < |s'.minted| ensures TokenTraced(cfg, now, acts + [a], s'.minted[i]) {
      var t := s'.minted[i];
      if !(i < |s.minted| && t == s.minted[i]) { assert FlightTraced(cfg, now, acts, t.rid, s.flights[t.rid]); }
      ClaimedLater(cfg, now, acts, a, t.rid, Vetted(t.hash, t.caller, t.vetted));
    }
  }

  lemma ClaimerVetted(cfg: Config, now: int, acts: seq<Action>, s: State, a: Action, rid: nat, f: Flight)
    requires PollsTraced(cfg, now, acts, s) && f.Claimed? && Claims(s, a, rid, Vetted(f.hash, f.caller, f.vetted))
    ensures WasVetted(cfg, now, acts, rid, Vetted(f.hash, f.caller, f.vetted))
  {
    hide WasVetted, WasClaimed;
    assert FlightTraced(cfg, now, acts, rid, s.flights[rid]);
  }

  lemma {:induction false} RunHistory(cfg: Config, now: int, acts: seq<Action>)
    ensures BookTraced(acts, Run(cfg, now, acts).book) && PollsTraced(cfg, now, acts, Run(cfg, now, acts))
  {
    if acts != [] {
      hide Step, EntryTraced, PollsTraced;
      var last := |acts| - 1;
      RunHistory(cfg, now, acts[..last]);
      StepBookTraced(cfg, Run(cfg, now, acts[..last]), acts[..last], acts[last]);
      StepPollsTraced(cfg, now, acts[..last], acts[last]);
      assert acts[..last] + [acts[last]] == acts;
    }
  }

  /**
   However polls interleave: the account of a token approved its code by an
   AAuthorize of the run; the poll that got the token found that account in its
   own snapshot of the code, active at its own account check, and claimed the
   code after it; only the client that an ACreate made the code for gets the
   token, with the scopes that client and its request determined.
   */
  lemma TokenBoundToApproval(cfg: Config, now: int, acts: seq<Action>, i: nat)
    requires i < |Run(cfg, now, acts).minted|
    ensures var s := Run(cfg, now, acts);
            var t := s.minted[i];
            && t.hash in s.book
            && s.book[t.hash].approved == Some(t.account) && WasApproved(acts, t.hash, t.account)
            && t.vetted == t.account && WasClaimed(cfg, now, acts, t.rid, Vetted(t.hash, t.caller, t.account))
            && var o := s.book[t.hash].origin;
               && WasCreated(acts, t.hash, o)
               && t.clientId == t.caller == o.client.clientId
               && t.scope == Text.Join(GrantedScopes(o.client, o.requested), ' ')
  {
    hide Run, BookOk, FlightsOk, GrantedScopes, Text.Join, WasApproved, WasClaimed, WasCreated;
    RunKeeps(cfg, now, acts);
    RunHistory(cfg, now, acts);
    var s := Run(cfg, now, acts);
    var t := s.minted[i];
    assert TokenOk(s.book, i, t);
    assert EntryTraced(acts, t.hash, s.book[t.hash]);
    assert TokenTraced(cfg, now, acts, t);
  }

  /** One step moves a code along pending, authorized, used or pending, denied, or not at all. */
  lemma StepMoves(cfg: Config, s: State, a: Action, hash: string)
    requires Inv(s) && hash in s.book
    ensures var s' := Step(cfg, s, a);
            && hash in s'.book && Moves(s.book[hash].code.value, s'.book[hash].code.value)
            && s'.book[hash].origin == s.book[hash].origin
            && (s.book[hash].approved.Some? ==> s'.book[hash].approved == s.book[hash].approved)
  {
    hide FlightsOk, TokensOk, GrantedScopes, Kept, KeptSeconds, TooSoon, Tokens, TokenOf;
    assert EntryOk(s.book[hash]);
    hide BookOk;
  }

  /** Whatever happens later, an approved code keeps its account, its client and its scopes. */
  lemma {:induction false} ApprovalIsFinal(cfg: Config, now: int, acts: seq<Action>, later: seq<Action>, hash: string)
    requires hash in Run(cfg, now, acts).book && Run(cfg, now, acts).book[hash].approved.Some?
    ensures var e := Run(cfg, now, acts).book[hash];
            var s' := Run(cfg, now, acts + later);
            && hash in s'.book
            && s'.book[hash].approved == e.approved && s'.book[hash].origin == e.origin
            && s'.book[hash].code.value.account == e.code.value.account
            && s'.book[hash].code.value.clientId == e.code.value.clientId
            && s'.book[hash].code.value.scopes == e.code.value.scopes
  {
    hide Step, Moves, Of;
    RunKeeps(cfg, now, acts);
    if later == [] {
      assert acts + later == acts;
    } else {
      var last := |later| - 1;
      ApprovalIsFinal(cfg, now, acts, later[..last], hash);
      assert (acts + later)[..|acts| + last] == acts + later[..last];
      RunKeeps(cfg, now, acts + later[..last]);
      var s := Run(cfg, now, acts + later[..last]);
      assert Run(cfg, now, acts + later) == Step(cfg, s, later[last]);
      hide Run, Inv;
      StepMoves(cfg, s, later[last], hash);
      ApprovedNotPending(s, hash);
      MovesKeep(s.book[hash].code.value, Step(cfg, s, later[last]).book[hash].code.value);
    }
  }

  lemma ApprovedNotPending(s: State, hash: string)
    requires Inv(s) && hash in s.book && s.book[hash].approved.Some?
    ensures !s.book[hash].code.value.status.Pending?
  {
    assert EntryOk(s.book[hash]);
  }

  lemma MovesKeep(c: Code, c': Code)
    requires Moves(c, c') && !c.status.Pending?
    ensures c'.account == c.account && c'.clientId == c.clientId && c'.scopes == c.scopes
  {
  }

  /**
   Section 3.5 of RFC 8628: while a code is unused and its keys have an expiry,
   a poll is admitted exactly when the whole seconds of the clock have advanced
   by the interval since the one admitted before.  In time that is more than the
   interval less a second, and surely after the whole interval.
   */
  lemma PollsSpaced(cfg: Config, now: int, acts: seq<Action>, rid: nat)
    requires var s := Run(cfg, now, acts);
             && rid in s.flights && s.flights[rid].Snapped?
             && s.flights[rid].hash in s.book
             && s.book[s.flights[rid].hash].lastPoll.Some? && Epoch(s.book[s.flights[rid].hash].lastPoll.value) > 0
             && s.book[s.flights[rid].hash].code.expireAt.Some?
             && !s.book[s.flights[rid].hash].code.value.status.Used?
    ensures var s := Run(cfg, now, acts);
            var h := s.flights[rid].hash;
            var s' := Pace(cfg, s, rid);
            var admitted := rid in s'.flights && s'.flights[rid].Paced?;
            && (admitted <==> Here(s, h) && Epoch(s.now) - Epoch(s.book[h].lastPoll.value) >= cfg.intervalSec)
            && (admitted ==> s.now - s.book[h].lastPoll.value > 1000 * (cfg.intervalSec - 1))
            && (Here(s, h) && s.now - s.book[h].lastPoll.value >= 1000 * cfg.intervalSec ==> admitted)
  {
    hide Run, FlightsOk, TokensOk, GrantedScopes, Epoch;
    RunKeeps(cfg, now, acts);
    var s := Run(cfg, now, acts);
    var h := s.flights[rid].hash;
    assert EntryOk(s.book[h]);
    EpochDistance(s.book[h].lastPoll.value, s.now, cfg.intervalSec);
  }

  lemma EpochDistance(last: int, now: int, interval: nat)
    ensures Epoch(now) - Epoch(last) >= interval ==> now - last > 1000 * (interval - 1)
    ensures now - last >= 1000 * interval ==> Epoch(now) - Epoch(last) >= interval
  {
  }

  /** The bound is sharp: a millisecond more than the interval less a second is enough after a poll late in its second. */
  lemma SecondsTruncate(last: int, interval: nat)
    requires last % 1000 == 999
    ensures Epoch(last + 1000 * (interval - 1) + 1) - Epoch(last) >= interval
  {
  }

  /**
   With a scope parameter a device code only carries requested scopes the
   client may have; without one, it carries only such scopes exactly when the
   client is registered for no admin scope it may not have.
   */
  lemma DeviceScopesExact(client: Client, requested: string)
    ensures Tokens(requested) != [] ==>
              forall x | x in GrantedScopes(client, requested) :: x in Tokens(requested) && client.MayHave(x)
    ensures Tokens(requested) == [] ==>
              ((forall x | x in GrantedScopes(client, requested) :: client.MayHave(x)) <==>
               client.HasAdminCapability() || forall x | x in client.scopes :: !IsAdminScope(x))
  {
    hide Tokens;
    if client.HasAdminCapability() {
      assert forall x | x in client.scopes :: client.MayHave(x);
    } else {
      assert forall x | x in client.scopes :: client.MayHave(x) <==> !IsAdminScope(x);
    }
  }

  // ----- a run that ends in a token -----

  /** Create, approve, and one poll from start to end. */
  function ServedActs(client: Client, requested: string, hash: string, account: string): seq<Action> {
    [ACreate(client, requested, hash)] + [AAuthorize(hash, account)] + [ASetActive({account})] + [ASnap(0, client.clientId, hash)]
    + [APace(0)] + [AVet(0)] + [AClaim(0)] + [AMint(0, true)]
  }

  function Approved(cfg: Config, client: Client, requested: string, account: string): Entry {
    Approve(0, Created(cfg, 0, client, requested), account)
  }

  function Snapshot(cfg: Config, client: Client, requested: string, hash: string, account: string): State {
    var e := Approved(cfg, client, requested, account);
    State(0, {account}, map[hash := e], map[0 := Snapped(hash, client.clientId, e.code.value)], [])
  }

  /** Created, approved and snapped. */
  lemma SnapsApproved(cfg: Config, client: Client, requested: string, hash: string, account: string)
    requires client.clientId != "" && account != "" && (GrantedScopes(client, requested) != [] || Tokens(requested) == [])
    ensures Snap(Authorize(Create(cfg, Init(0), client, requested, hash), hash, account).(active := {account}), 0, client.clientId, hash)
         == Snapshot(cfg, client, requested, hash, account)
  {
    hide GrantedScopes, Tokens;
    var e := Created(cfg, 0, client, requested);
    var s1 := Create(cfg, Init(0), client, requested, hash);
    assert s1 == State(0, {}, map[hash := e], map[], []);
    hide Create;
    var s2 := Authorize(s1, hash, account);
    assert s2 == State(0, {}, map[hash := Approved(cfg, client, requested, account)], map[], []);
    hide Authorize;
  }

  /** Paced, vetted, claimed and minted. */
  lemma SnapshotMints(cfg: Config, client: Client, requested: string, hash: string, account: string)
    requires client.clientId != "" && account != ""
    ensures var s := Mint(ClaimCode(Vet(Pace(cfg, Snapshot(cfg, client, requested, hash, account), 0), 0), 0), 0, true);
            && |s.minted| == 1 && s.minted[0].account == account && s.minted[0].clientId == client.clientId
            && s.minted[0].scope == Text.Join(GrantedScopes(client, requested), ' ')
  {
    hide GrantedScopes, Text.Join;
    var e := Approved(cfg, client, requested, account);
    var p := Polled(0, e);
    var s1 := Pace(cfg, Snapshot(cfg, client, requested, hash, account), 0);
    assert s1 == State(0, {account}, map[hash := p], map[0 := Paced(hash, client.clientId, e.code.value)], []);
    hide Pace;
    var s2 := Vet(s1, 0);
    assert s2 == s1.(flights := map[0 := Vetted(hash, client.clientId, account)]);
    hide Vet;
    var t := TakenBy(0, p, 0);
    var s3 := ClaimCode(s2, 0);
    assert s3 == s2.(book := map[hash := t], flights := map[0 := Claimed(hash, client.clientId, account, t.code.value)]);
    hide ClaimCode;
  }

  /** Uninterrupted, the grant ends in a token with the joined list of granted scopes. */
  lemma Served(cfg: Config, client: Client, requested: string, hash: string, account: string)
    requires client.clientId != "" && account != "" && (GrantedScopes(client, requested) != [] || Tokens(requested) == [])
    ensures var s := Run(cfg, 0, ServedActs(client, requested, hash, account));
            && |s.minted| == 1 && s.minted[0].account == account && s.minted[0].clientId == client.clientId
            && s.minted[0].scope == Text.Join(GrantedScopes(client, requested), ' ')
  {
    hide GrantedScopes, Tokens, Text.Join, Create, Authorize, Snap, Pace, Vet, ClaimCode, Mint, Snapshot, Run;
    var first := [] + [ACreate(client, requested, hash)] + [AAuthorize(hash, account)] + [ASetActive({account})] + [ASnap(0, client.clientId, hash)];
    RunFour(cfg, 0, [], ACreate(client, requested, hash), AAuthorize(hash, account), ASetActive({account}), ASnap(0, client.clientId, hash));
    RunNone(cfg, 0);
    assert ActsOpened(cfg, client, requested, hash, account) by { SnapsApproved(cfg, client, requested, hash, account); }
    RunFour(cfg, 0, first, APace(0), AVet(0), AClaim(0), AMint(0, true));
    assert ServedActs(client, requested, hash, account) == first + [APace(0)] + [AVet(0)] + [AClaim(0)] + [AMint(0, true)];
    SnapshotMints(cfg, client, requested, hash, account);
  }

  ghost predicate ActsOpened(cfg: Config, client: Client, requested: string, hash: string, account: string) {
    Step(cfg, Step(cfg, Step(cfg, Step(cfg, Init(0), ACreate(client, requested, hash)), AAuthorize(hash, account)), ASetActive({account})),
         ASnap(0, client.clientId, hash))
    == Snapshot(cfg, client, requested, hash, account)
  }

  lemma RunNone(cfg: Config, now: int)
    ensures Run(cfg, now, []) == Init(now)
  {
  }

  lemma RunFour(cfg: Config, now: int, acts: seq<Action>, a: Action, b: Action, c: Action, d: Action)
    ensures Run(cfg, now, acts + [a] + [b] + [c] + [d]) == Step(cfg, Step(cfg, Step(cfg, Step(cfg, Run(cfg, now, acts), a), b), c), d)
  {
    hide Step, Run;
    RunNext(cfg, now, acts, a);
    RunNext(cfg, now, acts + [a], b);
    RunNext(cfg, now, acts + [a] + [b], c);
    RunNext(cfg, now, acts + [a] + [b] + [c], d);
  }
}
