/**
 Login and MFA (internal/auth/service/auth_login.go and auth_login_helpers.go)
 behind their counters of internal/cache/redis_client.go.

 A request is several steps: one per counter, then the check of the password or
 code, at an instant of its own.  Steps of different requests interleave.
 */
module LoginLimits {
  import opened Common
  import opened AttemptWindows

  datatype Config = Config(maxPerIp: nat, maxPerUser: nat, maxMfa: nat, windowSec: nat, mfaWindowSec: nat,
                           contains: (string, string) -> bool, allowlist: seq<string>)

  /** A request between two steps; pass is its place among its address's passes, own among its account's. */
  datatype Flight =
    | Named(ip: string, user: string)
    | AtPassword(ip: string, pass: Option<nat>)
    | AtToken(ip: string, pass: Option<nat>)
    | AtCode(ip: string, pass: Option<nat>, account: string, own: nat)

  datatype State = State(
    now: int,
    ips: map<string, Entry>,
    users: map<(string, string), Counter>,
    mfas: map<string, Entry>,
    flights: map<nat, Flight>)

  function Init(now: int): State {
    State(now, map[], map[], map[], map[])
  }

  /** The script on a counter map: the new map, and whether the caller goes on. */
  function Count<K>(now: int, m: map<K, Counter>, k: K, limit: nat, windowSec: nat, call: Call): (map<K, Counter>, bool) {
    if call.Lost? then (m, false)
    else
      var (c, n) := CheckAndIncr(now, if k in m then Some(m[k]) else None, limit, windowSec);
      (if c.Some? then m[k := c.value] else m, Granted(call, n, limit))
  }

  // ----- checkIPRateLimit -----

  function Allowlisted(cfg: Config, ip: string): bool {
    exists i | 0 <= i < |cfg.allowlist| :: cfg.contains(cfg.allowlist[i], ip)
  }

  /** The loop over the configured networks. */
  method IsAllowlisted(cfg: Config, ip: string) returns (yes: bool)
    ensures yes <==> Allowlisted(cfg, ip)
  {
    for i := 0 to |cfg.allowlist|
      invariant forall j | 0 <= j < i :: !cfg.contains(cfg.allowlist[j], ip)
    {
      if cfg.contains(cfg.allowlist[i], ip) { return true; }
    }
    return false;
  }

  function EntryAt(m: map<string, Entry>, k: string): Entry {
    if k in m then m[k] else EMPTY
  }

  function End(s: State, rid: nat): State {
    s.(flights := s.flights - {rid})
  }

  /** The address's counter; an allowlisted address is let through without one. */
  function PassIp(cfg: Config, s: State, ip: string, call: Call): (State, Option<Option<nat>>) {
    if Allowlisted(cfg, ip) then (s, Some(None))
    else
      var e := EntryAt(s.ips, ip);
      var (e', admitted) := Admit(s.now, e, cfg.maxPerIp, cfg.windowSec, call);
      (s.(ips := s.ips[ip := e']), if admitted then Some(Some(|e.passes|)) else None)
  }

  /** A check, on the record of its address. */
  function MarkIp(s: State, ip: string, pass: Option<nat>): State {
    if pass.None? then s else s.(ips := s.ips[ip := Mark(EntryAt(s.ips, ip), pass.value, s.now)])
  }

  // ----- the steps -----

  /** The counter of address and user name. */
  function CountUser(cfg: Config, s: State, rid: nat, ip: string, user: string, call: Call): State {
    if rid in s.flights then s
    else
      var (users, goesOn) := Count(s.now, s.users, (ip, user), cfg.maxPerUser, cfg.windowSec, call);
      if goesOn then s.(users := users, flights := s.flights[rid := Named(ip, user)]) else s.(users := users)
  }

  function CountIp(cfg: Config, s: State, rid: nat, call: Call): State {
    if rid !in s.flights || !s.flights[rid].Named? then s
    else
      var ip := s.flights[rid].ip;
      var (s', pass) := PassIp(cfg, s, ip, call);
      if pass.None? then End(s', rid) else s'.(flights := s.flights[rid := AtPassword(ip, pass.value)])
  }

  /**
   The password is compared with the account's, or a dummy hash is computed;
   malformed input and a failed lookup end the request without either.
   */
  function Password(s: State, rid: nat, checked: bool): State {
    if rid !in s.flights || !s.flights[rid].AtPassword? then s
    else
      var f := s.flights[rid];
      if checked then End(MarkIp(s, f.ip, f.pass), rid) else End(s, rid)
  }

  /** VerifyMFALogin begins with the address. */
  function MfaIp(cfg: Config, s: State, rid: nat, ip: string, call: Call): State {
    if rid in s.flights then s
    else
      var (s', pass) := PassIp(cfg, s, ip, call);
      if pass.None? then s' else s'.(flights := s.flights[rid := AtToken(ip, pass.value)])
  }

  /** The MFA token names the account, whose counter is next. */
  function MfaAccount(cfg: Config, s: State, rid: nat, tokenOk: bool, account: string, call: Call): State {
    if rid !in s.flights || !s.flights[rid].AtToken? then s
    else if !tokenOk then End(s, rid)
    else
      var f := s.flights[rid];
      var e := EntryAt(s.mfas, account);
      var (e', admitted) := Admit(s.now, e, cfg.maxMfa, cfg.mfaWindowSec, call);
      var s' := s.(mfas := s.mfas[account := e']);
      if admitted then s'.(flights := s.flights[rid := AtCode(f.ip, f.pass, account, |e.passes|)]) else End(s', rid)
  }

  /** The code is verified. */
  function Code(s: State, rid: nat): State {
    if rid !in s.flights || !s.flights[rid].AtCode? then s
    else
      var f := s.flights[rid];
      var s' := MarkIp(s, f.ip, f.pass);
      End(s'.(mfas := s.mfas[f.account := Mark(EntryAt(s.mfas, f.account), f.own, s.now)]), rid)
  }

  /** CompletePasskeyMFALogin counts on the account only; what it then looks at is a flag, not a code. */
  function Passkey(cfg: Config, s: State, account: string, call: Call): State {
    s.(mfas := s.mfas[account := Admit(s.now, EntryAt(s.mfas, account), cfg.maxMfa, cfg.mfaWindowSec, call).0])
  }

  /** AClearUser: a login that succeeds clears counters of users, not of addresses. */
  datatype Action =
    | Tick(ms: nat)
    | ACountUser(rid: nat, ip: string, user: string, call: Call)
    | ACountIp(rid: nat, call: Call)
    | APassword(rid: nat, checked: bool)
    | AMfaIp(rid: nat, ip: string, call: Call)
    | AMfaAccount(rid: nat, tokenOk: bool, account: string, call: Call)
    | ACode(rid: nat)
    | APasskey(account: string, call: Call)
    | AClearUser(keys: set<(string, string)>)

  function Step(cfg: Config, s: State, a: Action): State {
    match a
    case Tick(ms) => s.(now := s.now + ms)
    case ACountUser(rid, ip, user, call) => CountUser(cfg, s, rid, ip, user, call)
    case ACountIp(rid, call) => CountIp(cfg, s, rid, call)
    case APassword(rid, checked) => Password(s, rid, checked)
    case AMfaIp(rid, ip, call) => MfaIp(cfg, s, rid, ip, call)
    case AMfaAccount(rid, tokenOk, account, call) => MfaAccount(cfg, s, rid, tokenOk, account, call)
    case ACode(rid) => Code(s, rid)
    case APasskey(account, call) => Passkey(cfg, s, account, call)
    case AClearUser(keys) => s.(users := s.users - keys)
  }

  function Run(cfg: Config, now: int, acts: seq<Action>): State {
    if acts == [] then Init(now) else Step(cfg, Run(cfg, now, acts[..|acts| - 1]), acts[|acts| - 1])
  }

  // ----- one address, one account -----

  function IpGate(s: State, ip: string): Gate {
    Gate(s.now, EntryAt(s.ips, ip))
  }

  function MfaGate(s: State, account: string): Gate {
    Gate(s.now, EntryAt(s.mfas, account))
  }

  /** What a step is to the counter of an address. */
  function IpPart(s: State, a: Action, ip: string): seq<AttemptWindows.Action> {
    match a
    case Tick(ms) => [AttemptWindows.Tick(ms)]
    case ACountIp(rid, call) => if rid in s.flights && s.flights[rid].Named? && s.flights[rid].ip == ip then [AAdmit(call)] else []
    case AMfaIp(rid, i, call) => if rid !in s.flights && i == ip then [AAdmit(call)] else []
    case APassword(rid, checked) =>
      if checked && rid in s.flights && s.flights[rid].AtPassword? && s.flights[rid].ip == ip && s.flights[rid].pass.Some?
      then [ACheck(s.flights[rid].pass.value)] else []
    case ACode(rid) =>
      if rid in s.flights && s.flights[rid].AtCode? && s.flights[rid].ip == ip && s.flights[rid].pass.Some?
      then [ACheck(s.flights[rid].pass.value)] else []
    case _ => []
  }

  /** What a step is to the counter of an account. */
  function MfaPart(s: State, a: Action, account: string): seq<AttemptWindows.Action> {
    match a
    case Tick(ms) => [AttemptWindows.Tick(ms)]
    case AMfaAccount(rid, tokenOk, acc, call) =>
      if rid in s.flights && s.flights[rid].AtToken? && tokenOk && acc == account then [AAdmit(call)] else []
    case APasskey(acc, call) => if acc == account then [AAdmit(call)] else []
    case ACode(rid) =>
      if rid in s.flights && s.flights[rid].AtCode? && s.flights[rid].account == account then [ACheck(s.flights[rid].own)] else []
    case _ => []
  }

  lemma NoSteps(limit: nat, windowSec: nat, g: Gate)
    ensures Steps(limit, windowSec, g, []) == g
  {
  }

  lemma OneStep(limit: nat, windowSec: nat, g: Gate, a: AttemptWindows.Action)
    ensures Steps(limit, windowSec, g, [a]) == AttemptWindows.Step(limit, windowSec, g, a)
  {
    hide AttemptWindows.Step;
    NoSteps(limit, windowSec, g);
    StepsNext(limit, windowSec, g, [], a);
    assert [] + [a] == [a];
  }

  lemma StepIsIpPart(cfg: Config, s: State, a: Action, ip: string)
    requires !Allowlisted(cfg, ip)
    ensures IpGate(Step(cfg, s, a), ip) == Steps(cfg.maxPerIp, cfg.windowSec, IpGate(s, ip), IpPart(s, a, ip))
  {
    hide Allowlisted, Count, Admit, Mark, Steps;
    NoSteps(cfg.maxPerIp, cfg.windowSec, IpGate(s, ip));
    if IpPart(s, a, ip) != [] { OneStep(cfg.maxPerIp, cfg.windowSec, IpGate(s, ip), IpPart(s, a, ip)[0]); }
  }

  lemma StepIsMfaPart(cfg: Config, s: State, a: Action, account: string)
    ensures MfaGate(Step(cfg, s, a), account) == Steps(cfg.maxMfa, cfg.mfaWindowSec, MfaGate(s, account), MfaPart(s, a, account))
  {
    hide Allowlisted, Count, Admit, Mark, Steps;
    NoSteps(cfg.maxMfa, cfg.mfaWindowSec, MfaGate(s, account));
    if MfaPart(s, a, account) != [] { OneStep(cfg.maxMfa, cfg.mfaWindowSec, MfaGate(s, account), MfaPart(s, a, account)[0]); }
  }

  lemma {:induction false} StepsConcat(limit: nat, windowSec: nat, g: Gate, acts: seq<AttemptWindows.Action>, more: seq<AttemptWindows.Action>)
    ensures Steps(limit, windowSec, g, acts + more) == Steps(limit, windowSec, Steps(limit, windowSec, g, acts), more)
  {
    hide AttemptWindows.Step;
    if more == [] {
      assert acts + more == acts;
    } else {
      var last := |more| - 1;
      StepsConcat(limit, windowSec, g, acts, more[..last]);
      assert (acts + more)[..|acts| + last] == acts + more[..last];
    }
  }

  /** In every run the record of an address is a run of its counter, and so is that of an account. */
  lemma {:induction false} IpRuns(cfg: Config, now: int, acts: seq<Action>, ip: string) returns (part: seq<AttemptWindows.Action>)
    requires !Allowlisted(cfg, ip)
    ensures IpGate(Run(cfg, now, acts), ip) == Steps(cfg.maxPerIp, cfg.windowSec, Gate(now, EMPTY), part)
  {
    hide Step, Steps, IpPart, Allowlisted;
    if acts == [] {
      part := [];
      NoSteps(cfg.maxPerIp, cfg.windowSec, Gate(now, EMPTY));
    } else {
      var s := Run(cfg, now, acts[..|acts| - 1]);
      var before := IpRuns(cfg, now, acts[..|acts| - 1], ip);
      part := before + IpPart(s, acts[|acts| - 1], ip);
      StepIsIpPart(cfg, s, acts[|acts| - 1], ip);
      StepsConcat(cfg.maxPerIp, cfg.windowSec, Gate(now, EMPTY), before, IpPart(s, acts[|acts| - 1], ip));
    }
  }

  lemma {:induction false} MfaRuns(cfg: Config, now: int, acts: seq<Action>, account: string) returns (part: seq<AttemptWindows.Action>)
    ensures MfaGate(Run(cfg, now, acts), account) == Steps(cfg.maxMfa, cfg.mfaWindowSec, Gate(now, EMPTY), part)
  {
    hide Step, Steps, MfaPart;
    if acts == [] {
      part := [];
      NoSteps(cfg.maxMfa, cfg.mfaWindowSec, Gate(now, EMPTY));
    } else {
      var s := Run(cfg, now, acts[..|acts| - 1]);
      var before := MfaRuns(cfg, now, acts[..|acts| - 1], account);
      part := before + MfaPart(s, acts[|acts| - 1], account);
      StepIsMfaPart(cfg, s, acts[|acts| - 1], account);
      StepsConcat(cfg.maxMfa, cfg.mfaWindowSec, Gate(now, EMPTY), before, MfaPart(s, acts[|acts| - 1], account));
    }
  }

  // ----- the bounds -----

  /** What one counter allows of the checks behind it, when they come within d of their passes. */
  ghost predicate ChecksWithin(limit: nat, windowMs: nat, d: nat, passes: seq<Pass>) {
    && (forall a :: CheckedInWindow(passes, a) <= PerWindow(limit))
    && (forall lo, hi | lo <= hi :: Checks(passes, lo, hi) <= Most(PerWindow(limit), windowMs, hi - lo + d))
  }

  lemma GateChecks(limit: nat, windowSec: nat, now: int, acts: seq<AttemptWindows.Action>, d: nat)
    requires Prompt(d, Steps(limit, windowSec, Gate(now, EMPTY), acts).e.passes)
    ensures ChecksWithin(limit, 1000 * windowSec, d, Steps(limit, windowSec, Gate(now, EMPTY), acts).e.passes)
  {
    hide Steps, EntryOk, Prompt, Most;
    StepsOk(limit, windowSec, now, acts);
    var g := Steps(limit, windowSec, Gate(now, EMPTY), acts);
    ChecksBound(limit, windowSec, g.now, g.e, d, 0, 0);
    forall lo, hi | lo <= hi ensures Checks(g.e.passes, lo, hi) <= Most(PerWindow(limit), 1000 * windowSec, hi - lo + d) {
      ChecksBound(limit, windowSec, g.now, g.e, d, lo, hi);
    }
  }

  /**
   However requests interleave, whatever user counters are cleared and whatever
   Redis calls fail: from an address that is not allowlisted at most maxPerIp - 1
   attempts of one counter window lead to a password or MFA code check; and if
   every check follows its pass within d, an interval sees at most as many checks
   as an interval longer by d can let through.
   */
  lemma AttemptsBounded(cfg: Config, now: int, acts: seq<Action>, ip: string, d: nat)
    requires !Allowlisted(cfg, ip) && Prompt(d, EntryAt(Run(cfg, now, acts).ips, ip).passes)
    ensures ChecksWithin(cfg.maxPerIp, 1000 * cfg.windowSec, d, EntryAt(Run(cfg, now, acts).ips, ip).passes)
  {
    hide Run, Allowlisted, ChecksWithin, Prompt, Steps;
    var part := IpRuns(cfg, now, acts, ip);
    GateChecks(cfg.maxPerIp, cfg.windowSec, now, part, d);
  }

  /** From whatever addresses, allowlisted ones too, MFA codes of an account are bounded by its own counter. */
  lemma MfaCodesBounded(cfg: Config, now: int, acts: seq<Action>, account: string, d: nat)
    requires Prompt(d, EntryAt(Run(cfg, now, acts).mfas, account).passes)
    ensures ChecksWithin(cfg.maxMfa, 1000 * cfg.mfaWindowSec, d, EntryAt(Run(cfg, now, acts).mfas, account).passes)
  {
    hide Run, ChecksWithin, Prompt, Steps;
    var part := MfaRuns(cfg, now, acts, account);
    GateChecks(cfg.maxMfa, cfg.mfaWindowSec, now, part, d);
  }

  // ----- every check is recorded as its own -----

  predicate Open(e: Entry, i: nat) {
    i < |e.passes| && e.passes[i].checkedAt.None?
  }

  predicate HasIpPass(f: Flight, ip: string) {
    !f.Named? && f.ip == ip && f.pass.Some?
  }

  predicate HasOwn(f: Flight, account: string) {
    f.AtCode? && f.account == account
  }

  /** The passes that requests hold at an address are unchecked, and no two hold the same. */
  ghost predicate IpOwned(flights: map<nat, Flight>, ip: string, e: Entry) {
    && (forall rid | rid in flights && HasIpPass(flights[rid], ip) :: Open(e, flights[rid].pass.value))
    && (forall p, q | p in flights && q in flights && p != q && HasIpPass(flights[p], ip) && HasIpPass(flights[q], ip) ::
          flights[p].pass != flights[q].pass)
  }

  ghost predicate MfaOwned(flights: map<nat, Flight>, account: string, e: Entry) {
    && (forall rid | rid in flights && HasOwn(flights[rid], account) :: Open(e, flights[rid].own))
    && (forall p, q | p in flights && q in flights && p != q && HasOwn(flights[p], account) && HasOwn(flights[q], account) ::
          flights[p].own != flights[q].own)
  }

  ghost predicate Owned(s: State) {
    && (forall ip :: IpOwned(s.flights, ip, EntryAt(s.ips, ip)))
    && (forall account :: MfaOwned(s.flights, account, EntryAt(s.mfas, account)))
  }

  lemma AdmitOpens(now: int, e: Entry, limit: nat, windowSec: nat, call: Call)
    ensures var (e', admitted) := Admit(now, e, limit, windowSec, call);
            && (forall i: nat | Open(e, i) :: Open(e', i))
            && (admitted ==> Open(e', |e.passes|)) && (forall i: nat | Open(e, i) :: i < |e.passes|)
  {
  }

  lemma MarkSpares(e: Entry, i: nat, now: int)
    ensures forall j: nat | Open(e, j) && j != i :: Open(Mark(e, i, now), j)
  {
  }

  /** One request moves: what its step does to the passes of an address. */
  ghost predicate IpMove(flights: map<nat, Flight>, e: Entry, flights': map<nat, Flight>, e': Entry, ip: string, rid: nat) {
    && (forall r | r != rid :: r in flights' <==> r in flights)
    && (forall r | r in flights' && r != rid :: flights'[r] == flights[r])
    && (forall r | r in flights && r != rid && HasIpPass(flights[r], ip) :: Open(e', flights[r].pass.value))
    && (rid in flights' && HasIpPass(flights'[rid], ip) ==> TakesOpen(flights, e, flights'[rid].pass.value, e', ip, rid))
  }

  /** An unchecked pass, new or its own already. */
  ghost predicate TakesOpen(flights: map<nat, Flight>, e: Entry, pass: nat, e': Entry, ip: string, rid: nat) {
    && Open(e', pass)
    && ((rid in flights && HasIpPass(flights[rid], ip) && flights[rid].pass == Some(pass)) || !Open(e, pass))
  }

  /** It gives its pass up, keeps it, or takes one nobody holds; the passes of others stay open. */
  lemma IpOwnedAfter(flights: map<nat, Flight>, ip: string, e: Entry, flights': map<nat, Flight>, e': Entry, rid: nat)
    requires IpOwned(flights, ip, e) && IpMove(flights, e, flights', e', ip, rid)
    ensures IpOwned(flights', ip, e')
  {
    hide Open;
  }

  ghost predicate MfaMove(flights: map<nat, Flight>, e: Entry, flights': map<nat, Flight>, e': Entry, account: string, rid: nat) {
    && (forall r | r != rid :: r in flights' <==> r in flights)
    && (forall r | r in flights' && r != rid :: flights'[r] == flights[r])
    && (forall r | r in flights && r != rid && HasOwn(flights[r], account) :: Open(e', flights[r].own))
    && (rid in flights' && HasOwn(flights'[rid], account) ==> Open(e', flights'[rid].own))
    && (rid in flights' && HasOwn(flights'[rid], account) && !(rid in flights && flights[rid] == flights'[rid]) ==> !Open(e, flights'[rid].own))
  }

  lemma MfaOwnedAfter(flights: map<nat, Flight>, account: string, e: Entry, flights': map<nat, Flight>, e': Entry, rid: nat)
    requires MfaOwned(flights, account, e) && MfaMove(flights, e, flights', e', account, rid)
    ensures MfaOwned(flights', account, e')
  {
    hide Open;
  }

  lemma PassIpOwned(cfg: Config, s: State, ip: string, i: string, call: Call)
    ensures var (s', pass) := PassIp(cfg, s, i, call);
            && s'.flights == s.flights && s'.mfas == s.mfas
            && (forall j: nat | Open(EntryAt(s.ips, ip), j) :: Open(EntryAt(s'.ips, ip), j))
            && (pass.Some? && pass.value.Some? && i == ip ==>
                  Open(EntryAt(s'.ips, ip), pass.value.value) && !Open(EntryAt(s.ips, ip), pass.value.value))
  {
    hide Allowlisted, Admit;
    AdmitOpens(s.now, EntryAt(s.ips, i), cfg.maxPerIp, cfg.windowSec, call);
  }

  lemma MarkIpSpares(s: State, ip: string, i: string, pass: Option<nat>)
    ensures var s' := MarkIp(s, i, pass);
            && s'.flights == s.flights && s'.mfas == s.mfas
            && (forall j: nat | Open(EntryAt(s.ips, ip), j) && !(i == ip && pass == Some(j)) :: Open(EntryAt(s'.ips, ip), j))
  {
    hide Mark;
    if pass.Some? { MarkSpares(EntryAt(s.ips, i), pass.value, s.now); }
  }

  lemma StepIpOwned(cfg: Config, s: State, a: Action, ip: string)
    requires IpOwned(s.flights, ip, EntryAt(s.ips, ip))
    ensures var s' := Step(cfg, s, a); IpOwned(s'.flights, ip, EntryAt(s'.ips, ip))
  {
    hide Count, Admit, Mark, Open, PassIp, MarkIp, IpOwned, IpMove, Allowlisted, EntryAt;
    var s' := Step(cfg, s, a);
    var e := EntryAt(s.ips, ip);
    if a.Tick? || a.APasskey? || a.AClearUser? {
      assert s'.flights == s.flights && s'.ips == s.ips;
    } else {
      IpMoved(cfg, s, a, ip);
      IpOwnedAfter(s.flights, ip, e, s'.flights, EntryAt(s'.ips, ip), a.rid);
    }
  }

  lemma PassIpMoves(cfg: Config, s: State, a: Action, ip: string)
    requires a.ACountIp? || a.AMfaIp?
    requires IpOwned(s.flights, ip, EntryAt(s.ips, ip))
    ensures var s' := Step(cfg, s, a); IpMove(s.flights, EntryAt(s.ips, ip), s'.flights, EntryAt(s'.ips, ip), ip, a.rid)
  {
    hide Count, Admit, Mark, Open, PassIp, MarkIp, Allowlisted, EntryAt;
    match a
    case ACountIp(rid, call) =>
      if rid in s.flights && s.flights[rid].Named? {
        var i := s.flights[rid].ip;
        var (t, pass) := PassIp(cfg, s, i, call);
        PassIpOwned(cfg, s, ip, i, call);
        assert Step(cfg, s, a) == if pass.None? then End(t, rid) else t.(flights := s.flights[rid := AtPassword(i, pass.value)]);
      }
    case AMfaIp(rid, i, call) =>
      if rid !in s.flights {
        var (t, pass) := PassIp(cfg, s, i, call);
        PassIpOwned(cfg, s, ip, i, call);
        assert Step(cfg, s, a) == if pass.None? then t else t.(flights := s.flights[rid := AtToken(i, pass.value)]);
      }
  }

  lemma CheckMoves(cfg: Config, s: State, a: Action, ip: string)
    requires a.APassword? || a.ACode?
    requires IpOwned(s.flights, ip, EntryAt(s.ips, ip))
    ensures var s' := Step(cfg, s, a); IpMove(s.flights, EntryAt(s.ips, ip), s'.flights, EntryAt(s'.ips, ip), ip, a.rid)
  {
    hide Mark, Open, MarkIp, EntryAt;
    if a.rid in s.flights && (if a.APassword? then s.flights[a.rid].AtPassword? else s.flights[a.rid].AtCode?) {
      MarkIpSpares(s, ip, s.flights[a.rid].ip, s.flights[a.rid].pass);
    }
  }

  lemma IpMoved(cfg: Config, s: State, a: Action, ip: string)
    requires !a.Tick? && !a.APasskey? && !a.AClearUser? && IpOwned(s.flights, ip, EntryAt(s.ips, ip))
    ensures var s' := Step(cfg, s, a); IpMove(s.flights, EntryAt(s.ips, ip), s'.flights, EntryAt(s'.ips, ip), ip, a.rid)
  {
    if a.ACountIp? || a.AMfaIp? {
      hide *;
      PassIpMoves(cfg, s, a, ip);
    } else if a.APassword? || a.ACode? {
      hide *;
      CheckMoves(cfg, s, a, ip);
    } else {
      hide Count, Admit, Open, EntryAt;
    }
  }

  lemma StepMfaOwned(cfg: Config, s: State, a: Action, account: string)
    requires MfaOwned(s.flights, account, EntryAt(s.mfas, account))
    ensures var s' := Step(cfg, s, a); MfaOwned(s'.flights, account, EntryAt(s'.mfas, account))
  {
    hide Count, Admit, Mark, Open, PassIp, MarkIp, MfaOwned, MfaMove, Allowlisted;
    var s' := Step(cfg, s, a);
    var e := EntryAt(s.mfas, account);
    if a.Tick? || a.AClearUser? {
      assert s'.flights == s.flights && s'.mfas == s.mfas;
    } else if a.APasskey? {
      AdmitOpens(s.now, EntryAt(s.mfas, a.account), cfg.maxMfa, cfg.mfaWindowSec, a.call);
      PasskeyOwned(s.flights, account, e, EntryAt(s'.mfas, account));
    } else {
      MfaMoved(cfg, s, a, account);
      MfaOwnedAfter(s.flights, account, e, s'.flights, EntryAt(s'.mfas, account), a.rid);
    }
  }

  lemma PasskeyOwned(flights: map<nat, Flight>, account: string, e: Entry, e': Entry)
    requires MfaOwned(flights, account, e) && forall i: nat | Open(e, i) :: Open(e', i)
    ensures MfaOwned(flights, account, e')
  {
    hide Open;
  }

  lemma OwnMoves(cfg: Config, s: State, a: Action, account: string)
    requires a.AMfaAccount? || a.ACode?
    requires MfaOwned(s.flights, account, EntryAt(s.mfas, account))
    ensures var s' := Step(cfg, s, a); MfaMove(s.flights, EntryAt(s.mfas, account), s'.flights, EntryAt(s'.mfas, account), account, a.rid)
  {
    hide Count, Admit, Mark, Open, PassIp, MarkIp, Allowlisted;
    match a
    case AMfaAccount(rid, _, acc, call) => AdmitOpens(s.now, EntryAt(s.mfas, acc), cfg.maxMfa, cfg.mfaWindowSec, call);
    case ACode(rid) =>
      if rid in s.flights && s.flights[rid].AtCode? {
        var f := s.flights[rid];
        MarkIpSpares(s, "", f.ip, f.pass);
        MarkSpares(EntryAt(s.mfas, f.account), f.own, s.now);
      }
  }

  /** The other steps take no pass of an account, and hold none. */
  lemma OthersMove(cfg: Config, s: State, a: Action, account: string)
    requires a.ACountUser? || a.ACountIp? || a.APassword? || a.AMfaIp?
    ensures var s' := Step(cfg, s, a);
            && s'.mfas == s.mfas
            && (forall r | r != a.rid :: r in s'.flights <==> r in s.flights)
            && (forall r | r in s'.flights && (r != a.rid || s'.flights[r].AtCode?) :: r in s.flights && s'.flights[r] == s.flights[r])
  {
    hide Count, Admit, Mark, Open, Allowlisted, EntryAt, HasOwn;
    match a
    case ACountIp(rid, call) => if rid in s.flights && s.flights[rid].Named? { PassIpOwned(cfg, s, "", s.flights[rid].ip, call); }
    case AMfaIp(rid, i, call) => PassIpOwned(cfg, s, "", i, call);
    case APassword(rid, _) => if rid in s.flights && s.flights[rid].AtPassword? { MarkIpSpares(s, "", s.flights[rid].ip, s.flights[rid].pass); }
    case _ =>
  }

  lemma MfaMoved(cfg: Config, s: State, a: Action, account: string)
    requires !a.Tick? && !a.APasskey? && !a.AClearUser? && MfaOwned(s.flights, account, EntryAt(s.mfas, account))
    ensures var s' := Step(cfg, s, a); MfaMove(s.flights, EntryAt(s.mfas, account), s'.flights, EntryAt(s'.mfas, account), account, a.rid)
  {
    hide Step, Open;
    if a.AMfaAccount? || a.ACode? { OwnMoves(cfg, s, a, account); } else { OthersMove(cfg, s, a, account); }
  }

  lemma {:induction false} RunOwned(cfg: Config, now: int, acts: seq<Action>)
    ensures Owned(Run(cfg, now, acts))
  {
    if acts != [] {
      hide Step, IpOwned, MfaOwned;
      var s := Run(cfg, now, acts[..|acts| - 1]);
      var a := acts[|acts| - 1];
      RunOwned(cfg, now, acts[..|acts| - 1]);
      forall ip ensures IpOwned(Step(cfg, s, a).flights, ip, EntryAt(Step(cfg, s, a).ips, ip)) { StepIpOwned(cfg, s, a, ip); }
      forall account ensures MfaOwned(Step(cfg, s, a).flights, account, EntryAt(Step(cfg, s, a).mfas, account)) {
        StepMfaOwned(cfg, s, a, account);
      }
    }
  }

  /** So each password or code check of a run is recorded, once, at its own instant, on the pass that let it through. */
  lemma ChecksRecorded(cfg: Config, now: int, acts: seq<Action>, rid: nat)
    requires rid in Run(cfg, now, acts).flights
    ensures var s := Run(cfg, now, acts);
            var f := s.flights[rid];
            && (f.AtPassword? && f.pass.Some? ==>
                  && Open(EntryAt(s.ips, f.ip), f.pass.value)
                  && EntryAt(Password(s, rid, true).ips, f.ip) == Mark(EntryAt(s.ips, f.ip), f.pass.value, s.now))
            && (f.AtCode? ==>
                  && (f.pass.Some? ==> Open(EntryAt(s.ips, f.ip), f.pass.value)
                                       && EntryAt(Code(s, rid).ips, f.ip) == Mark(EntryAt(s.ips, f.ip), f.pass.value, s.now))
                  && Open(EntryAt(s.mfas, f.account), f.own)
                  && EntryAt(Code(s, rid).mfas, f.account) == Mark(EntryAt(s.mfas, f.account), f.own, s.now))
  {
    hide Run, Open, Mark;
    RunOwned(cfg, now, acts);
    var s := Run(cfg, now, acts);
    var f := s.flights[rid];
    if !f.Named? { assert IpOwned(s.flights, f.ip, EntryAt(s.ips, f.ip)); }
    if f.AtCode? { assert MfaOwned(s.flights, f.account, EntryAt(s.mfas, f.account)); }
  }

  // ----- every run of a counter is a run of the service -----

  lemma RunNext(cfg: Config, now: int, acts: seq<Action>, a: Action)
    ensures Run(cfg, now, acts + [a]) == Step(cfg, Run(cfg, now, acts), a)
  {
    hide Step;
    assert (acts + [a])[..|acts|] == acts;
  }

  /** The requests under way are those with an unchecked pass at this address, each under the number of its pass. */
  ghost predicate AllAtPassword(s: State, ip: string) {
    && (forall rid: nat :: rid in s.flights <==> Open(EntryAt(s.ips, ip), rid))
    && (forall rid | rid in s.flights :: s.flights[rid] == AtPassword(ip, Some(rid)))
  }

  lemma AdmitAppends(now: int, e: Entry, limit: nat, windowSec: nat, call: Call)
    ensures var (e', admitted) := Admit(now, e, limit, windowSec, call);
            !Open(e, |e.passes|) && forall i: nat :: Open(e', i) <==> Open(e, i) || (admitted && i == |e.passes|)
  {
  }

  lemma MarkCloses(e: Entry, i: nat, now: int)
    ensures forall j: nat :: Open(Mark(e, i, now), j) <==> Open(e, j) && j != i
  {
  }

  /** A user name whose counter was just cleared is let through. */
  lemma FreshUser(cfg: Config, s: State, ip: string, rid: nat)
    requires cfg.maxPerUser >= 2 && rid !in s.flights
    ensures var s' := Step(cfg, Step(cfg, s, AClearUser({(ip, "")})), ACountUser(rid, ip, "", Done));
            s'.now == s.now && s'.ips == s.ips && s'.flights == s.flights[rid := Named(ip, "")]
  {
  }

  lemma NamedStep(cfg: Config, s: State, m: State, ip: string, rid: nat, call: Call)
    requires !Allowlisted(cfg, ip) && AllAtPassword(s, ip) && rid == |EntryAt(s.ips, ip).passes|
    requires m.now == s.now && m.ips == s.ips && m.flights == s.flights[rid := Named(ip, "")]
    ensures var s' := Step(cfg, m, ACountIp(rid, call));
            && IpGate(s', ip) == Gate(s.now, Admit(s.now, EntryAt(s.ips, ip), cfg.maxPerIp, cfg.windowSec, call).0)
            && AllAtPassword(s', ip)
  {
    hide Allowlisted, Admit, Open;
    AdmitAppends(s.now, EntryAt(s.ips, ip), cfg.maxPerIp, cfg.windowSec, call);
  }

  /** A login under such a name. */
  lemma Attempt(cfg: Config, now: int, acts: seq<Action>, ip: string, call: Call) returns (all: seq<Action>)
    requires !Allowlisted(cfg, ip) && cfg.maxPerUser >= 2 && AllAtPassword(Run(cfg, now, acts), ip)
    ensures var s, s' := Run(cfg, now, acts), Run(cfg, now, all);
            && IpGate(s', ip) == Gate(s.now, Admit(s.now, EntryAt(s.ips, ip), cfg.maxPerIp, cfg.windowSec, call).0)
            && AllAtPassword(s', ip)
  {
    hide Run, Step, Allowlisted, Admit;
    var s := Run(cfg, now, acts);
    var rid := |EntryAt(s.ips, ip).passes|;
    var clear, count, pass := AClearUser({(ip, "")}), ACountUser(rid, ip, "", Done), ACountIp(rid, call);
    RunNext(cfg, now, acts, clear);
    RunNext(cfg, now, acts + [clear], count);
    RunNext(cfg, now, acts + [clear] + [count], pass);
    all := acts + [clear] + [count] + [pass];
    FreshUser(cfg, s, ip, rid);
    NamedStep(cfg, s, Run(cfg, now, acts + [clear] + [count]), ip, rid, call);
  }

  lemma Check(cfg: Config, now: int, acts: seq<Action>, ip: string, i: nat) returns (all: seq<Action>)
    requires AllAtPassword(Run(cfg, now, acts), ip)
    ensures var s, s' := Run(cfg, now, acts), Run(cfg, now, all);
            IpGate(s', ip) == Gate(s.now, Mark(EntryAt(s.ips, ip), i, s.now)) && AllAtPassword(s', ip)
  {
    hide Run;
    var s := Run(cfg, now, acts);
    MarkCloses(EntryAt(s.ips, ip), i, s.now);
    if Open(EntryAt(s.ips, ip), i) {
      all := acts + [APassword(i, true)];
      RunNext(cfg, now, acts, APassword(i, true));
      hide Mark;
    } else {
      all := acts;
    }
  }

  lemma {:induction false} IpRealised(cfg: Config, ip: string, now: int, part: seq<AttemptWindows.Action>) returns (acts: seq<Action>)
    requires !Allowlisted(cfg, ip) && cfg.maxPerUser >= 2
    ensures IpGate(Run(cfg, now, acts), ip) == Steps(cfg.maxPerIp, cfg.windowSec, Gate(now, EMPTY), part)
    ensures AllAtPassword(Run(cfg, now, acts), ip)
  {
    hide Admit, Mark, Allowlisted;
    if part == [] {
      acts := [];
    } else {
      var before := IpRealised(cfg, ip, now, part[..|part| - 1]);
      match part[|part| - 1]
      case Tick(ms) =>
        acts := before + [Action.Tick(ms)];
        RunNext(cfg, now, before, Action.Tick(ms));
      case AAdmit(call) => acts := Attempt(cfg, now, before, ip, call);
      case ACheck(i) => acts := Check(cfg, now, before, ip, i);
    }
  }

  /** The requests under way are those with an unchecked pass of this account; n bounds the addresses used so far. */
  ghost predicate AllAtCode(s: State, account: string, n: nat) {
    && (forall rid: nat :: rid in s.flights <==> Open(EntryAt(s.mfas, account), rid))
    && (forall rid | rid in s.flights :: HasOwn(s.flights[rid], account) && s.flights[rid].own == rid && |s.flights[rid].ip| < n)
    && (forall ip | ip in s.ips :: |ip| < n)
  }

  /** An address not seen before is let through. */
  lemma FreshIp(cfg: Config, s: State, account: string, n: nat, rid: nat) returns (ip: string)
    requires cfg.maxPerIp >= 2 && AllAtCode(s, account, n) && rid !in s.flights
    ensures var s' := Step(cfg, s, AMfaIp(rid, ip, Done));
            && s'.now == s.now && s'.mfas == s.mfas
            && rid in s'.flights && s'.flights[rid].AtToken? && |s'.flights[rid].ip| == n
            && s'.flights == s.flights[rid := s'.flights[rid]]
            && forall i | i in s'.ips :: |i| < n + 1
  {
    hide Allowlisted;
    ip := seq(n, _ => 'a');
    assert EntryAt(s.ips, ip) == EMPTY;
  }

  /** From such an address, with a right token. */
  lemma CodeAttempt(cfg: Config, now: int, acts: seq<Action>, account: string, n: nat, call: Call) returns (all: seq<Action>)
    requires cfg.maxPerIp >= 2 && AllAtCode(Run(cfg, now, acts), account, n)
    ensures var s, s' := Run(cfg, now, acts), Run(cfg, now, all);
            && MfaGate(s', account) == Gate(s.now, Admit(s.now, EntryAt(s.mfas, account), cfg.maxMfa, cfg.mfaWindowSec, call).0)
            && AllAtCode(s', account, n + 1)
  {
    hide Run, Step, Admit;
    var s := Run(cfg, now, acts);
    var rid := |EntryAt(s.mfas, account).passes|;
    var ip := FreshIp(cfg, s, account, n, rid);
    var first, second := AMfaIp(rid, ip, Done), AMfaAccount(rid, true, account, call);
    RunNext(cfg, now, acts, first);
    RunNext(cfg, now, acts + [first], second);
    all := acts + [first] + [second];
    TokenStep(cfg, s, Step(cfg, s, first), account, n, rid, call);
  }

  lemma TokenStep(cfg: Config, s: State, m: State, account: string, n: nat, rid: nat, call: Call)
    requires AllAtCode(s, account, n) && rid == |EntryAt(s.mfas, account).passes|
    requires && m.now == s.now && m.mfas == s.mfas && (forall i | i in m.ips :: |i| < n + 1)
             && rid in m.flights && m.flights[rid].AtToken? && |m.flights[rid].ip| == n && m.flights == s.flights[rid := m.flights[rid]]
    ensures var s' := Step(cfg, m, AMfaAccount(rid, true, account, call));
            && MfaGate(s', account) == Gate(s.now, Admit(s.now, EntryAt(s.mfas, account), cfg.maxMfa, cfg.mfaWindowSec, call).0)
            && AllAtCode(s', account, n + 1)
  {
    hide Allowlisted, Admit, Open;
    AdmitAppends(s.now, EntryAt(s.mfas, account), cfg.maxMfa, cfg.mfaWindowSec, call);
  }

  lemma CodeCheck(cfg: Config, now: int, acts: seq<Action>, account: string, n: nat, i: nat) returns (all: seq<Action>)
    requires AllAtCode(Run(cfg, now, acts), account, n)
    ensures var s, s' := Run(cfg, now, acts), Run(cfg, now, all);
            MfaGate(s', account) == Gate(s.now, Mark(EntryAt(s.mfas, account), i, s.now)) && AllAtCode(s', account, n)
  {
    hide Run;
    var s := Run(cfg, now, acts);
    MarkCloses(EntryAt(s.mfas, account), i, s.now);
    if Open(EntryAt(s.mfas, account), i) {
      all := acts + [ACode(i)];
      RunNext(cfg, now, acts, ACode(i));
      hide Mark;
    } else {
      all := acts;
    }
  }

  lemma {:induction false} MfaRealised(cfg: Config, account: string, now: int, part: seq<AttemptWindows.Action>)
    returns (acts: seq<Action>, n: nat)
    requires cfg.maxPerIp >= 2
    ensures MfaGate(Run(cfg, now, acts), account) == Steps(cfg.maxMfa, cfg.mfaWindowSec, Gate(now, EMPTY), part)
    ensures AllAtCode(Run(cfg, now, acts), account, n)
  {
    hide Admit, Mark, Allowlisted;
    if part == [] {
      acts, n := [], 0;
    } else {
      var before;
      before, n := MfaRealised(cfg, account, now, part[..|part| - 1]);
      match part[|part| - 1]
      case Tick(ms) =>
        acts := before + [Action.Tick(ms)];
        RunNext(cfg, now, before, Action.Tick(ms));
      case AAdmit(call) =>
        acts := CodeAttempt(cfg, now, before, account, n, call);
        n := n + 1;
      case ACheck(i) => acts := CodeCheck(cfg, now, before, account, n, i);
    }
  }

  // ----- the bound is exact -----

  function IpPasses(cfg: Config, now: int, acts: seq<Action>, ip: string): seq<Pass> {
    EntryAt(Run(cfg, now, acts).ips, ip).passes
  }

  function MfaPasses(cfg: Config, now: int, acts: seq<Action>, account: string): seq<Pass> {
    EntryAt(Run(cfg, now, acts).mfas, account).passes
  }

  /** In every run whose checks follow within d of their passes, [lo, hi] sees at most b checks for the address. */
  ghost predicate IntervalBound(cfg: Config, ip: string, d: nat, lo: int, hi: int, b: int) {
    forall now, acts | Prompt(d, IpPasses(cfg, now, acts, ip)) :: Checks(IpPasses(cfg, now, acts, ip), lo, hi) <= b
  }

  ghost predicate MfaIntervalBound(cfg: Config, account: string, d: nat, lo: int, hi: int, b: int) {
    forall now, acts | Prompt(d, MfaPasses(cfg, now, acts, account)) :: Checks(MfaPasses(cfg, now, acts, account), lo, hi) <= b
  }

  /** So b bounds an interval if and only if it is at least what an interval longer by d can let through. */
  lemma IntervalExact(cfg: Config, ip: string, d: nat, lo: int, hi: int, b: int)
    requires lo <= hi && !Allowlisted(cfg, ip) && cfg.maxPerUser >= 2
    ensures IntervalBound(cfg, ip, d, lo, hi, b) <==> b >= Most(PerWindow(cfg.maxPerIp), 1000 * cfg.windowSec, hi - lo + d)
  {
    hide Run, Allowlisted, Prompt, Steps, Checks, Most;
    if b >= Most(PerWindow(cfg.maxPerIp), 1000 * cfg.windowSec, hi - lo + d) {
      forall now, acts | Prompt(d, IpPasses(cfg, now, acts, ip)) ensures Checks(IpPasses(cfg, now, acts, ip), lo, hi) <= b {
        AttemptsBounded(cfg, now, acts, ip, d);
      }
    } else {
      var now, part := MostReached(cfg.maxPerIp, cfg.windowSec, d, lo, hi);
      var acts := IpRealised(cfg, ip, now, part);
      assert Prompt(d, IpPasses(cfg, now, acts, ip)) && Checks(IpPasses(cfg, now, acts, ip), lo, hi) > b;
    }
  }

  lemma MfaIntervalExact(cfg: Config, account: string, d: nat, lo: int, hi: int, b: int)
    requires lo <= hi && cfg.maxPerIp >= 2
    ensures MfaIntervalBound(cfg, account, d, lo, hi, b) <==> b >= Most(PerWindow(cfg.maxMfa), 1000 * cfg.mfaWindowSec, hi - lo + d)
  {
    hide Run, Allowlisted, Prompt, Steps, Checks, Most;
    if b >= Most(PerWindow(cfg.maxMfa), 1000 * cfg.mfaWindowSec, hi - lo + d) {
      forall now, acts | Prompt(d, MfaPasses(cfg, now, acts, account)) ensures Checks(MfaPasses(cfg, now, acts, account), lo, hi) <= b {
        MfaCodesBounded(cfg, now, acts, account, d);
      }
    } else {
      var now, part := MostReached(cfg.maxMfa, cfg.mfaWindowSec, d, lo, hi);
      var acts, _ := MfaRealised(cfg, account, now, part);
      assert Prompt(d, MfaPasses(cfg, now, acts, account)) && Checks(MfaPasses(cfg, now, acts, account), lo, hi) > b;
    }
  }

  /**
   In an interval of one window's length, fewer than two shares when checks are
   made at the instant of their passes; two full shares when a millisecond may
   lie between; one less than three shares from two milliseconds on.
   */
  lemma WindowLongExact(cfg: Config, ip: string, d: nat, lo: int, b: int)
    requires !Allowlisted(cfg, ip) && cfg.maxPerUser >= 2 && cfg.maxPerIp >= 2
    requires cfg.windowSec >= 1 && d <= 1000 * cfg.windowSec + 1
    ensures var share := cfg.maxPerIp - 1;
            IntervalBound(cfg, ip, d, lo, lo + 1000 * cfg.windowSec, b) <==>
              b >= if d == 0 then 2 * share - 1 else if d == 1 then 2 * share else 3 * share - 1
  {
    hide IntervalBound, Most, Allowlisted;
    IntervalExact(cfg, ip, d, lo, lo + 1000 * cfg.windowSec, b);
    MostOfWindow(cfg.maxPerIp - 1, 1000 * cfg.windowSec, d);
  }

  // ----- the counters as the service holds them -----

  class Counters<K(==)> {
    var now: int
    var counts: map<K, nat>
    var expires: map<K, int>

    ghost predicate Valid()
      reads this
    {
      counts.Keys == expires.Keys
    }

    /** A key's counter, in terms of when its window began. */
    ghost function At(k: K, windowSec: nat): Option<Counter>
      requires Valid()
      reads this
    {
      if k in counts.Keys then
        assert k in expires.Keys;
        Some(Counter(counts[k], expires[k] - 1000 * windowSec))
      else None
    }

    constructor (now: int)
      ensures Valid() && this.now == now && counts == map[]
    {
      this.now := now;
      counts, expires := map[], map[];
    }

    /** checkAndIncrLuaScript against CheckAndIncr. */
    method Bump(k: K, limit: nat, windowSec: nat) returns (n: nat)
      requires Valid() && (k in counts ==> counts[k] >= 1)
      modifies this
      ensures Valid() && now == old(now)
      ensures (At(k, windowSec), n) == CheckAndIncr(now, old(At(k, windowSec)), limit, windowSec)
      ensures forall j | j != k :: j in counts <==> j in old(counts)
      ensures forall j | j in counts && j != k :: counts[j] == old(counts)[j] && expires[j] == old(expires)[j]
    {
      var current := if k in counts.Keys && now <= expires[k] then counts[k] else 0;
      if current >= limit { return current; }
      n := current + 1;
      counts := counts[k := n];
      if n == 1 { expires := expires[k := now + 1000 * windowSec]; }
    }
  }
}
