/**
 Verification codes (internal/auth/service/verification_service.go): SendCode
 with its cooldown and the verify-and-increment script, for one identifier,
 with a working store.  A SendCode is one step, from its look at the cooldown to
 the delivery; the script is one in Redis too.  `sends` and `checks` are history.
 */
module VerificationCode {
  import opened Common

  datatype Config = Config(maxAttempts: nat, ttlMs: nat, cooldownMs: nat)

  datatype Code = Code(hash: string, attempts: nat, account: string, expireAt: int, send: nat)

  /** A hash comparison: when, and against the code of which send. */
  datatype Check = Check(at: int, send: nat)

  datatype State = State(
    now: int,
    code: Option<Code>,
    cooldownUntil: Option<int>,
    sends: seq<int>,
    checks: seq<Check>,
    successes: seq<nat>)

  datatype Verdict = NotFound | Exhausted | Correct(account: string) | Mismatch | ScriptError

  function Init(now: int): State {
    State(now, None, None, [], [], [])
  }

  predicate Alive(s: State) {
    s.code.Some? && s.now <= s.code.value.expireAt
  }

  predicate CoolingDown(s: State) {
    s.cooldownUntil.Some? && s.now <= s.cooldownUntil.value
  }

  /** `delivered` is false for a failed delivery or an unknown type: the code is taken back, the cooldown stays. */
  function Send(cfg: Config, s: State, hash: string, account: string, delivered: bool): State {
    if CoolingDown(s) then s
    else s.(code := if delivered then Some(Code(hash, 0, account, s.now + cfg.ttlMs, |s.sends|)) else None,
            cooldownUntil := Some(s.now + cfg.cooldownMs),
            sends := s.sends + [s.now])
  }

  /** Redis TTL rounds the remaining milliseconds to seconds. */
  function TtlSeconds(pttl: int): int {
    (pttl + 500) / 1000
  }

  /** The deadline SETEX gives a code after a mismatch. */
  function NewDeadline(cfg: Config, now: int, expireAt: int): int {
    var ttl := TtlSeconds(expireAt - now);
    now + 1000 * if ttl > 0 then ttl else cfg.ttlMs / 1000
  }

  /** SETEX refuses zero seconds; then nothing is stored. */
  predicate Refused(cfg: Config, now: int, expireAt: int) {
    TtlSeconds(expireAt - now) <= 0 && cfg.ttlMs < 1000
  }

  function Verify(cfg: Config, s: State, hash: string): (State, Verdict) {
    if !Alive(s) then (s, NotFound)
    else
      var c := s.code.value;
      if c.attempts >= cfg.maxAttempts then (s, Exhausted)
      else
        var checked := s.(checks := s.checks + [Check(s.now, c.send)]);
        if c.hash == hash then (checked.(code := None, successes := s.successes + [c.send]), Correct(c.account))
        else if Refused(cfg, s.now, c.expireAt) then (checked, ScriptError)
        else (checked.(code := Some(c.(attempts := c.attempts + 1, expireAt := NewDeadline(cfg, s.now, c.expireAt)))), Mismatch)
  }

  datatype Action = Tick(ms: nat) | ASend(hash: string, account: string, delivered: bool) | AVerify(hash: string)

  function Step(cfg: Config, s: State, a: Action): State {
    match a
    case Tick(ms) => s.(now := s.now + ms)
    case ASend(hash, account, delivered) => Send(cfg, s, hash, account, delivered)
    case AVerify(hash) => Verify(cfg, s, hash).0
  }

  function Run(cfg: Config, now: int, acts: seq<Action>): State {
    if acts == [] then Init(now) else Step(cfg, Run(cfg, now, acts[..|acts| - 1]), acts[|acts| - 1])
  }

  // ----- counting -----

  function ChecksOf(checks: seq<Check>, k: int): nat {
    if checks == [] then 0
    else ChecksOf(checks[..|checks| - 1], k) + if checks[|checks| - 1].send == k then 1 else 0
  }

  function Between(checks: seq<Check>, lo: int, hi: int): nat {
    if checks == [] then 0
    else Between(checks[..|checks| - 1], lo, hi) + if lo <= checks[|checks| - 1].at <= hi then 1 else 0
  }

  /** Those against the codes of sends a..b. */
  function BetweenOf(checks: seq<Check>, lo: int, hi: int, a: int, b: int): nat {
    if checks == [] then 0
    else
      var c := checks[|checks| - 1];
      BetweenOf(checks[..|checks| - 1], lo, hi, a, b) + if lo <= c.at <= hi && a <= c.send < b then 1 else 0
  }

  // ----- invariant -----

  ghost predicate Spaced(cfg: Config, sends: seq<int>) {
    forall i | 0 <= i < |sends| - 1 :: sends[i] + cfg.cooldownMs < sends[i + 1]
  }

  ghost predicate SendsOk(cfg: Config, s: State) {
    && (forall i | 0 <= i < |s.sends| :: s.sends[i] <= s.now)
    && Spaced(cfg, s.sends)
    && (s.sends == [] <==> s.cooldownUntil.None?)
    && (s.sends != [] ==> s.cooldownUntil == Some(s.sends[|s.sends| - 1] + cfg.cooldownMs))
  }

  /** A check happens between its send and the next. */
  ghost predicate ChecksOk(s: State) {
    forall i | 0 <= i < |s.checks| ::
      && s.checks[i].send < |s.sends|
      && s.sends[s.checks[i].send] <= s.checks[i].at <= s.now
      && (s.checks[i].send + 1 < |s.sends| ==> s.checks[i].at <= s.sends[s.checks[i].send + 1])
  }

  ghost predicate CountsOk(cfg: Config, s: State) {
    && (forall k :: ChecksOf(s.checks, k) <= cfg.maxAttempts)
    && (forall k | k >= |s.sends| :: ChecksOf(s.checks, k) == 0)
    && (s.code.Some? ==> ChecksOf(s.checks, s.code.value.send) == s.code.value.attempts <= cfg.maxAttempts)
  }

  ghost predicate CodeOk(s: State) {
    && (s.code.Some? ==> s.code.value.send + 1 == |s.sends| && s.code.value.send !in s.successes)
    && (forall k | k in s.successes :: k < |s.sends|)
    && (forall i, j | 0 <= i < j < |s.successes| :: s.successes[i] != s.successes[j])
  }

  /** Below a second of lifetime the attempts are not counted reliably. */
  ghost predicate Inv(cfg: Config, s: State) {
    SendsOk(cfg, s) && ChecksOk(s) && CodeOk(s) && (cfg.ttlMs >= 1000 ==> CountsOk(cfg, s))
  }

  lemma SendKeeps(cfg: Config, s: State, hash: string, account: string, delivered: bool)
    requires Inv(cfg, s)
    ensures Inv(cfg, Send(cfg, s, hash, account, delivered))
  {
    hide ChecksOf;
  }

  lemma VerifyKeepsCounts(cfg: Config, s: State, hash: string)
    requires CountsOk(cfg, s) && CodeOk(s) && cfg.ttlMs >= 1000
    ensures CountsOk(cfg, Verify(cfg, s, hash).0)
  {
    var s' := Verify(cfg, s, hash).0;
    if s' != s {
      assert s'.checks[..|s.checks|] == s.checks;
      assert forall k :: ChecksOf(s'.checks, k) == ChecksOf(s.checks, k) + if s.code.value.send == k then 1 else 0;
      hide ChecksOf, NewDeadline;
    }
  }

  lemma VerifyKeeps(cfg: Config, s: State, hash: string)
    requires Inv(cfg, s)
    ensures Inv(cfg, Verify(cfg, s, hash).0)
  {
    hide NewDeadline, Refused;
    if cfg.ttlMs >= 1000 { VerifyKeepsCounts(cfg, s, hash); }
    var s' := Verify(cfg, s, hash).0;
    assert s'.now == s.now && s'.sends == s.sends && s'.cooldownUntil == s.cooldownUntil;
    hide CountsOk;
    assert ChecksOk(s') by { hide SendsOk; }
    assert CodeOk(s') by { hide SendsOk, ChecksOk; }
  }

  lemma TickKeeps(cfg: Config, s: State, ms: nat)
    requires Inv(cfg, s)
    ensures Inv(cfg, s.(now := s.now + ms))
  {
    hide ChecksOf;
  }

  lemma StepKeeps(cfg: Config, s: State, a: Action)
    requires Inv(cfg, s)
    ensures Inv(cfg, Step(cfg, s, a))
  {
    hide Inv, Send, Verify;
    match a
    case Tick(ms) => TickKeeps(cfg, s, ms);
    case ASend(hash, account, delivered) => SendKeeps(cfg, s, hash, account, delivered);
    case AVerify(hash) => VerifyKeeps(cfg, s, hash);
  }

  lemma InitOk(cfg: Config, now: int)
    ensures Inv(cfg, Init(now))
  {
  }

  lemma {:induction false} RunKeeps(cfg: Config, now: int, acts: seq<Action>)
    ensures Inv(cfg, Run(cfg, now, acts))
  {
    hide Inv, Step;
    if acts == [] {
      InitOk(cfg, now);
    } else {
      RunKeeps(cfg, now, acts[..|acts| - 1]);
      StepKeeps(cfg, Run(cfg, now, acts[..|acts| - 1]), acts[|acts| - 1]);
    }
  }

  // ----- the bounds -----

  lemma {:induction false} SendSpan(cfg: Config, sends: seq<int>, a: nat, n: nat)
    requires Spaced(cfg, sends) && a + n < |sends|
    ensures sends[a + n] - sends[a] >= n * (cfg.cooldownMs + 1)
  {
    if n > 0 {
      SendSpan(cfg, sends, a, n - 1);
      assert sends[a + (n - 1)] + cfg.cooldownMs < sends[a + (n - 1) + 1];
    }
  }

  lemma {:induction false} PeelSend(checks: seq<Check>, lo: int, hi: int, a: int, b: int)
    requires a <= b
    ensures BetweenOf(checks, lo, hi, a, b + 1) <= BetweenOf(checks, lo, hi, a, b) + ChecksOf(checks, b)
  {
    if checks != [] { PeelSend(checks[..|checks| - 1], lo, hi, a, b); }
  }

  lemma {:induction false} NoSends(checks: seq<Check>, lo: int, hi: int, a: int)
    ensures BetweenOf(checks, lo, hi, a, a) == 0
  {
    if checks != [] { NoSends(checks[..|checks| - 1], lo, hi, a); }
  }

  lemma {:induction false} PerSend(checks: seq<Check>, lo: int, hi: int, a: int, n: nat, max: nat)
    requires forall k :: ChecksOf(checks, k) <= max
    ensures BetweenOf(checks, lo, hi, a, a + n) <= max * n
  {
    if n == 0 {
      NoSends(checks, lo, hi, a);
    } else {
      PerSend(checks, lo, hi, a, n - 1, max);
      PeelSend(checks, lo, hi, a, a + n - 1);
      assert max * n == max * (n - 1) + max;
    }
  }

  lemma {:induction false} AllOf(checks: seq<Check>, lo: int, hi: int, a: int, b: int)
    requires forall i | 0 <= i < |checks| && lo <= checks[i].at <= hi :: a <= checks[i].send < b
    ensures Between(checks, lo, hi) == BetweenOf(checks, lo, hi, a, b)
  {
    if checks != [] { AllOf(checks[..|checks| - 1], lo, hi, a, b); }
  }

  /** How many sends there were before t. */
  function SendsBefore(sends: seq<int>, t: int): (n: nat)
    ensures n <= |sends|
    ensures n > 0 ==> sends[n - 1] < t
    ensures n < |sends| ==> sends[n] >= t
  {
    if sends == [] then 0 else if sends[|sends| - 1] < t then |sends| else SendsBefore(sends[..|sends| - 1], t)
  }

  lemma Sorted(cfg: Config, sends: seq<int>, i: nat, j: nat)
    requires Spaced(cfg, sends) && i <= j < |sends|
    ensures sends[i] <= sends[j]
  {
    SendSpan(cfg, sends, i, j - i);
    assert (j - i) * (cfg.cooldownMs + 1) >= 0;
  }

  lemma NoSign(x: int, c: nat)
    ensures x <= 0 ==> x * c <= 0
  {
  }

  lemma FitsIn(m: nat, k: nat, c: nat, length: int)
    requires m >= 1 && m * (c + 1) <= length <= k * c
    ensures m + 1 <= k
  {
    assert m * (c + 1) == m * c + m;
    assert (k - m) * c == k * c - m * c;
    NoSign(k - m, c);
  }

  /** The codes that can be checked between lo and hi: the one in force at lo, and those sent in between. */
  lemma FewSends(cfg: Config, sends: seq<int>, lo: int, hi: int, k: nat)
    requires Spaced(cfg, sends) && k >= 1 && hi - lo <= k * cfg.cooldownMs
    ensures SendsBefore(sends, hi + 1) - SendsBefore(sends, lo) <= k
  {
    var a, b := SendsBefore(sends, lo), SendsBefore(sends, hi + 1);
    if b >= a + 2 {
      ManySends(cfg, sends, a, b - a - 1, lo, hi);
      FitsIn(b - a - 1, k, cfg.cooldownMs, hi - lo);
    }
  }

  lemma ManySends(cfg: Config, sends: seq<int>, a: nat, m: nat, lo: int, hi: int)
    requires Spaced(cfg, sends) && a + m < |sends| && lo <= sends[a] && sends[a + m] <= hi
    ensures m * (cfg.cooldownMs + 1) <= hi - lo
  {
    SendSpan(cfg, sends, a, m);
  }

  lemma CheckedFrom(cfg: Config, sends: seq<int>, j: nat, at: int, lo: int)
    requires Spaced(cfg, sends) && j < |sends| && lo <= at && (j + 1 < |sends| ==> at <= sends[j + 1])
    ensures SendsBefore(sends, lo) - 1 <= j
  {
    var a := SendsBefore(sends, lo);
    hide Spaced, SendsBefore;
    if j + 1 < a { Sorted(cfg, sends, j + 1, a - 1); }
  }

  lemma CheckedUntil(cfg: Config, sends: seq<int>, j: nat, at: int, hi: int)
    requires Spaced(cfg, sends) && j < |sends| && sends[j] <= at <= hi
    ensures j < SendsBefore(sends, hi + 1)
  {
    var b := SendsBefore(sends, hi + 1);
    hide Spaced, SendsBefore;
    if b <= j { Sorted(cfg, sends, b, j); }
  }

  /** A check between lo and hi is against one of those codes. */
  lemma CheckedSends(cfg: Config, s: State, lo: int, hi: int, i: nat)
    requires SendsOk(cfg, s) && ChecksOk(s) && i < |s.checks| && lo <= s.checks[i].at <= hi
    ensures SendsBefore(s.sends, lo) - 1 <= s.checks[i].send < SendsBefore(s.sends, hi + 1)
  {
    hide SendsBefore;
    var c := s.checks[i];
    CheckedFrom(cfg, s.sends, c.send, c.at, lo);
    CheckedUntil(cfg, s.sends, c.send, c.at, hi);
  }

  lemma StateBounded(cfg: Config, s: State, lo: int, hi: int, k: nat)
    requires Inv(cfg, s) && cfg.ttlMs >= 1000 && k >= 1 && hi - lo <= k * cfg.cooldownMs
    ensures Between(s.checks, lo, hi) <= cfg.maxAttempts * (1 + k)
  {
    var a := SendsBefore(s.sends, lo) - 1;
    assert SendsBefore(s.sends, hi + 1) <= a + (1 + k) by { FewSends(cfg, s.sends, lo, hi, k); }
    forall i | 0 <= i < |s.checks| && lo <= s.checks[i].at <= hi ensures a <= s.checks[i].send < a + (1 + k) {
      hide CountsOk, CodeOk;
      CheckedSends(cfg, s, lo, hi, i);
    }
    hide SendsOk, ChecksOk, CodeOk, SendsBefore;
    AllOf(s.checks, lo, hi, a, a + (1 + k));
    PerSend(s.checks, lo, hi, a, 1 + k, cfg.maxAttempts);
  }

  /**
   Hash comparisons for one identifier in any interval of length L number at most
   maxAttempts * (1 + ceil(L / cooldown)), an instant counting as one cooldown:
   k is any positive number of cooldowns that covers the interval.
   */
  lemma ChecksBounded(cfg: Config, now: int, acts: seq<Action>, lo: int, hi: int, k: nat)
    requires cfg.ttlMs >= 1000 && k >= 1 && hi - lo <= k * cfg.cooldownMs
    ensures Between(Run(cfg, now, acts).checks, lo, hi) <= cfg.maxAttempts * (1 + k)
  {
    hide Run, Inv;
    RunKeeps(cfg, now, acts);
    StateBounded(cfg, Run(cfg, now, acts), lo, hi, k);
  }

  /** Each code that was sent succeeds at most once. */
  lemma CodeSucceedsOnce(cfg: Config, now: int, acts: seq<Action>, i: nat, j: nat)
    requires i < |Run(cfg, now, acts).successes| && j < |Run(cfg, now, acts).successes|
    requires Run(cfg, now, acts).successes[i] == Run(cfg, now, acts).successes[j]
    ensures i == j
  {
    hide Run;
    RunKeeps(cfg, now, acts);
  }

  // ----- where the bound and the deadline give way -----

  /** With a code lifetime below a second a mismatch in the last half second is not counted. */
  lemma SubSecondLifetimeUncounted(cfg: Config, s: State, hash: string)
    requires cfg.ttlMs < 1000 && Alive(s) && s.code.value.attempts < cfg.maxAttempts && s.code.value.hash != hash
    requires s.code.value.expireAt - s.now < 500
    ensures var (s', v) := Verify(cfg, s, hash); v == ScriptError && s'.code == s.code
  {
  }

  // ----- for which configurations a bound holds in every run -----

  /** In every run at most `bound` comparisons fall between lo and hi. */
  ghost predicate AlwaysBounded(cfg: Config, lo: int, hi: int, bound: int) {
    forall now, acts :: Between(Run(cfg, now, acts).checks, lo, hi) <= bound
  }

  lemma RunNext(cfg: Config, now: int, acts: seq<Action>, a: Action)
    ensures Run(cfg, now, acts + [a]) == Step(cfg, Run(cfg, now, acts), a)
  {
    hide Step;
    assert (acts + [a])[..|acts|] == acts;
  }

  lemma OneMore(checks: seq<Check>, c: Check)
    ensures forall lo, hi :: Between(checks + [c], lo, hi) == Between(checks, lo, hi) + if lo <= c.at <= hi then 1 else 0
  {
    assert (checks + [c])[..|checks|] == checks;
  }

  const RIGHT := "right"
  const WRONG := "wrong"

  /** n wrong guesses. */
  function Guesses(n: nat): seq<Action> {
    if n == 0 then [] else Guesses(n - 1) + [AVerify(WRONG)]
  }

  /** In the last half second of a code of less than a second, guesses are free. */
  lemma {:induction false} FreeGuesses(cfg: Config, now: int, acts: seq<Action>, n: nat, lo: int, hi: int)
    requires cfg.ttlMs < 1000
    requires var s := Run(cfg, now, acts);
             && Alive(s) && s.code.value.attempts < cfg.maxAttempts && s.code.value.hash != WRONG
             && s.code.value.expireAt - s.now < 500 && lo <= s.now <= hi
    ensures var s := Run(cfg, now, acts);
            var s' := Run(cfg, now, acts + Guesses(n));
            s'.now == s.now && s'.code == s.code && Between(s'.checks, lo, hi) == Between(s.checks, lo, hi) + n
  {
    hide Run, Between, TtlSeconds;
    if n == 0 {
      assert acts + Guesses(0) == acts;
    } else {
      FreeGuesses(cfg, now, acts, n - 1, lo, hi);
      var before := Run(cfg, now, acts + Guesses(n - 1));
      RunNext(cfg, now, acts + Guesses(n - 1), AVerify(WRONG));
      assert acts + Guesses(n - 1) + [AVerify(WRONG)] == acts + Guesses(n);
      SubSecondLifetimeUncounted(cfg, before, WRONG);
      assert Verify(cfg, before, WRONG).0.checks == before.checks + [Check(before.now, before.code.value.send)];
      OneMore(before.checks, Check(before.now, before.code.value.send));
    }
  }

  lemma SentAndWaited(cfg: Config, now: int, wait: nat)
    ensures var s := Run(cfg, now, [ASend(RIGHT, "", true)] + [Tick(wait)]);
            && s.now == now + wait && s.code == Some(Code(RIGHT, 0, "", now + cfg.ttlMs, 0))
            && s.cooldownUntil == Some(now + cfg.cooldownMs) && s.sends == [now] && s.checks == []
  {
    RunNext(cfg, now, [], ASend(RIGHT, "", true));
    assert [] + [ASend(RIGHT, "", true)] == [ASend(RIGHT, "", true)];
    RunNext(cfg, now, [ASend(RIGHT, "", true)], Tick(wait));
    assert Run(cfg, now, []) == Init(now);
    hide Run;
  }

  /** With a lifetime below a second no bound holds in every run, not even for an instant. */
  lemma SubSecondUnbounded(cfg: Config, lo: int, hi: int, bound: nat)
    requires cfg.ttlMs < 1000 && cfg.maxAttempts >= 1 && lo <= hi
    ensures !AlwaysBounded(cfg, lo, hi, bound)
  {
    hide Run, Between;
    var wait: nat := if cfg.ttlMs >= 500 then cfg.ttlMs - 499 else 0;
    var acts := [ASend(RIGHT, "", true)] + [Tick(wait)];
    SentAndWaited(cfg, lo - wait, wait);
    FreeGuesses(cfg, lo - wait, acts, bound + 1, lo, hi);
    assert Between(Run(cfg, lo - wait, acts + Guesses(bound + 1)).checks, lo, hi) > bound;
  }

  lemma {:induction false} NoAttempts(cfg: Config, now: int, acts: seq<Action>)
    requires cfg.maxAttempts == 0
    ensures Run(cfg, now, acts).checks == []
  {
    hide NewDeadline, Refused;
    if acts != [] { NoAttempts(cfg, now, acts[..|acts| - 1]); }
  }

  /**
   The bound of ChecksBounded holds in every run exactly for codes that live at
   least a second, or that may not be tried at all.
   */
  lemma IntervalBoundExact(cfg: Config, lo: int, hi: int, k: nat)
    requires lo <= hi && k >= 1 && hi - lo <= k * cfg.cooldownMs
    ensures AlwaysBounded(cfg, lo, hi, cfg.maxAttempts * (1 + k)) <==> cfg.ttlMs >= 1000 || cfg.maxAttempts == 0
  {
    hide Run;
    if cfg.maxAttempts == 0 {
      forall now, acts ensures Between(Run(cfg, now, acts).checks, lo, hi) <= cfg.maxAttempts * (1 + k) {
        NoAttempts(cfg, now, acts);
      }
    } else if cfg.ttlMs >= 1000 {
      forall now, acts ensures Between(Run(cfg, now, acts).checks, lo, hi) <= cfg.maxAttempts * (1 + k) {
        ChecksBounded(cfg, now, acts, lo, hi, k);
      }
    } else {
      assert cfg.maxAttempts * (1 + k) >= 0;
      SubSecondUnbounded(cfg, lo, hi, cfg.maxAttempts * (1 + k));
    }
  }

  // ----- a single instant -----

  /** A mismatch in the last half second gives the code this long. */
  function Whole(cfg: Config): nat {
    cfg.ttlMs / 1000 * 1000
  }

  /** The latest deadline a code can have after so many attempts. */
  function Latest(cfg: Config, send: int, attempts: nat): int {
    send + cfg.ttlMs + attempts * Whole(cfg)
  }

  ghost predicate CheckInTime(cfg: Config, sends: seq<int>, c: Check) {
    c.send < |sends| && cfg.maxAttempts >= 1 && c.at <= Latest(cfg, sends[c.send], cfg.maxAttempts - 1)
  }

  /** Deadlines and the times of checks stay within what the attempts before them allow. */
  ghost predicate TimesOk(cfg: Config, s: State) {
    && (s.code.Some? ==> s.code.value.send < |s.sends| && s.code.value.attempts <= cfg.maxAttempts
                         && s.code.value.expireAt <= Latest(cfg, s.sends[s.code.value.send], s.code.value.attempts))
    && (forall i | 0 <= i < |s.checks| :: CheckInTime(cfg, s.sends, s.checks[i]))
  }

  lemma LatestGrows(cfg: Config, send: int, a: nat, b: nat)
    requires a <= b
    ensures Latest(cfg, send, a) <= Latest(cfg, send, b)
    ensures Latest(cfg, send, a + 1) == Latest(cfg, send, a) + Whole(cfg)
  {
    assert (b - a) * Whole(cfg) >= 0;
    assert b * Whole(cfg) == a * Whole(cfg) + (b - a) * Whole(cfg);
    assert (a + 1) * Whole(cfg) == a * Whole(cfg) + Whole(cfg);
  }

  lemma DeadlineWithin(cfg: Config, now: int, expireAt: int)
    requires now <= expireAt && cfg.ttlMs >= 1000
    ensures now + 1000 <= NewDeadline(cfg, now, expireAt) <= expireAt + Whole(cfg)
  {
    assert cfg.ttlMs / 1000 >= 1;
  }

  lemma VerifyTimes(cfg: Config, s: State, hash: string)
    requires TimesOk(cfg, s) && cfg.ttlMs >= 1000
    ensures TimesOk(cfg, Verify(cfg, s, hash).0)
  {
    hide TtlSeconds, Latest, NewDeadline, Whole;
    if Alive(s) && s.code.value.attempts < cfg.maxAttempts {
      var c := s.code.value;
      LatestGrows(cfg, s.sends[c.send], c.attempts, cfg.maxAttempts - 1);
      DeadlineWithin(cfg, s.now, c.expireAt);
    }
  }

  lemma SendTimes(cfg: Config, s: State, hash: string, account: string, delivered: bool)
    requires TimesOk(cfg, s)
    ensures TimesOk(cfg, Send(cfg, s, hash, account, delivered))
  {
    hide Whole;
    if !CoolingDown(s) {
      var s' := Send(cfg, s, hash, account, delivered);
      forall i | 0 <= i < |s'.checks| ensures CheckInTime(cfg, s'.sends, s'.checks[i]) {
        assert CheckInTime(cfg, s.sends, s.checks[i]);
      }
    }
  }

  lemma {:induction false} RunTimes(cfg: Config, now: int, acts: seq<Action>)
    requires cfg.ttlMs >= 1000
    ensures TimesOk(cfg, Run(cfg, now, acts))
  {
    hide Send, Verify, Latest;
    if acts != [] {
      RunTimes(cfg, now, acts[..|acts| - 1]);
      var s := Run(cfg, now, acts[..|acts| - 1]);
      match acts[|acts| - 1]
      case Tick(ms) =>
      case ASend(hash, account, delivered) => SendTimes(cfg, s, hash, account, delivered);
      case AVerify(hash) => VerifyTimes(cfg, s, hash);
    }
  }

  lemma OneSendAtInstant(cfg: Config, s: State, t: int, i: nat, j: nat)
    requires SendsOk(cfg, s) && ChecksOk(s) && TimesOk(cfg, s)
    requires i < |s.checks| && j < |s.checks| && s.checks[i].at == t == s.checks[j].at
    requires cfg.maxAttempts >= 1 && cfg.ttlMs + (cfg.maxAttempts - 1) * Whole(cfg) <= cfg.cooldownMs
    ensures s.checks[i].send >= s.checks[j].send
  {
    var a, b := s.checks[i].send, s.checks[j].send;
    if a < b { SendsApart(cfg, s.sends, a, b); }
  }

  lemma SendsApart(cfg: Config, sends: seq<int>, a: nat, b: nat)
    requires Spaced(cfg, sends) && a < b < |sends|
    ensures sends[a] + cfg.cooldownMs < sends[b]
  {
    Sorted(cfg, sends, a + 1, b);
  }

  lemma {:induction false} InstantOf(checks: seq<Check>, t: int, k: int)
    requires forall i | 0 <= i < |checks| && checks[i].at == t :: checks[i].send == k
    ensures Between(checks, t, t) <= ChecksOf(checks, k)
  {
    if checks != [] { InstantOf(checks[..|checks| - 1], t, k); }
  }

  lemma InstantWithin(cfg: Config, s: State, t: int)
    requires Inv(cfg, s) && TimesOk(cfg, s) && cfg.ttlMs >= 1000 && cfg.maxAttempts >= 1
    requires cfg.ttlMs + (cfg.maxAttempts - 1) * Whole(cfg) <= cfg.cooldownMs
    ensures Between(s.checks, t, t) <= cfg.maxAttempts
  {
    hide Whole;
    if i :| 0 <= i < |s.checks| && s.checks[i].at == t {
      forall j | 0 <= j < |s.checks| && s.checks[j].at == t ensures s.checks[j].send == s.checks[i].send {
        OneSendAtInstant(cfg, s, t, i, j);
        OneSendAtInstant(cfg, s, t, j, i);
      }
      InstantOf(s.checks, t, s.checks[i].send);
    } else {
      InstantOf(s.checks, t, -1);
    }
  }

  /** Guesses at one instant are counted, and the code outlives them. */
  lemma {:induction false} CountedGuesses(cfg: Config, now: int, acts: seq<Action>, n: nat)
    requires cfg.ttlMs >= 1000
    requires var s := Run(cfg, now, acts);
             Alive(s) && s.code.value.hash != WRONG && s.code.value.attempts + n <= cfg.maxAttempts
    ensures var s := Run(cfg, now, acts);
            var s' := Run(cfg, now, acts + Guesses(n));
            && s'.now == s.now && s'.cooldownUntil == s.cooldownUntil && s'.sends == s.sends
            && Alive(s') && s'.code.value.hash != WRONG && s'.code.value.attempts == s.code.value.attempts + n
            && Between(s'.checks, s.now, s.now) == Between(s.checks, s.now, s.now) + n
  {
    hide Run, Between, TtlSeconds, NewDeadline;
    if n == 0 {
      assert acts + Guesses(0) == acts;
    } else {
      CountedGuesses(cfg, now, acts, n - 1);
      var before := Run(cfg, now, acts + Guesses(n - 1));
      RunNext(cfg, now, acts + Guesses(n - 1), AVerify(WRONG));
      assert acts + Guesses(n - 1) + [AVerify(WRONG)] == acts + Guesses(n);
      VerifyCases(cfg, before, WRONG);
      DeadlineWithin(cfg, before.now, before.code.value.expireAt);
      OneMore(before.checks, Check(before.now, before.code.value.send));
    }
  }

  /** A code and its successor at one instant: n guesses at the one, a resend, and all at the other. */
  lemma OldAndNew(cfg: Config, now: int, acts: seq<Action>, n: nat) returns (all: seq<Action>)
    requires cfg.ttlMs >= 1000
    requires var s := Run(cfg, now, acts);
             Alive(s) && s.code.value.hash != WRONG && s.code.value.attempts + n <= cfg.maxAttempts && !CoolingDown(s)
    ensures var t := Run(cfg, now, acts).now; Between(Run(cfg, now, all).checks, t, t) >= n + cfg.maxAttempts
  {
    hide Run, Between;
    var t := Run(cfg, now, acts).now;
    CountedGuesses(cfg, now, acts, n);
    var old1 := acts + Guesses(n);
    RunNext(cfg, now, old1, ASend(RIGHT, "", true));
    var resent := old1 + [ASend(RIGHT, "", true)];
    CountedGuesses(cfg, now, resent, cfg.maxAttempts);
    all := resent + Guesses(cfg.maxAttempts);
  }

  /** A guess at each deadline keeps a code alive as long as attempts are left. */
  function Walk(cfg: Config, i: nat): seq<Action> {
    if i == 0 then [ASend(RIGHT, "", true)]
    else Walk(cfg, i - 1) + [Tick(if i == 1 then cfg.ttlMs else Whole(cfg))] + [AVerify(WRONG)]
  }

  lemma {:induction false} WalkLasts(cfg: Config, now: int, i: nat)
    requires cfg.ttlMs >= 1000 && i <= cfg.maxAttempts
    ensures var s := Run(cfg, now, Walk(cfg, i));
            && s.now == (if i == 0 then now else Latest(cfg, now, i - 1))
            && s.code.Some? && s.code.value.hash == RIGHT && s.code.value.attempts == i
            && s.code.value.expireAt == Latest(cfg, now, i)
            && s.cooldownUntil == Some(now + cfg.cooldownMs)
  {
    hide Run;
    if i == 0 {
      SentAt(cfg, now);
    } else {
      hide NewDeadline, Whole;
      WalkLasts(cfg, now, i - 1);
      var wait := Tick(if i == 1 then cfg.ttlMs else Whole(cfg));
      RunNext(cfg, now, Walk(cfg, i - 1), wait);
      RunNext(cfg, now, Walk(cfg, i - 1) + [wait], AVerify(WRONG));
      var s := Run(cfg, now, Walk(cfg, i - 1) + [wait]);
      LatestGrows(cfg, now, i - 1, i);
      if i > 1 { LatestGrows(cfg, now, i - 2, i - 1); } else { assert Latest(cfg, now, 0) == now + cfg.ttlMs; }
      hide Latest;
      assert s.now == s.code.value.expireAt == Latest(cfg, now, i - 1);
      AtDeadline(cfg, s.now);
      VerifyCases(cfg, s, WRONG);
    }
  }

  lemma SentAt(cfg: Config, now: int)
    ensures var s := Run(cfg, now, [ASend(RIGHT, "", true)]);
            && s.now == now && s.code == Some(Code(RIGHT, 0, "", Latest(cfg, now, 0), 0))
            && s.cooldownUntil == Some(now + cfg.cooldownMs)
  {
    RunNext(cfg, now, [], ASend(RIGHT, "", true));
    assert [] + [ASend(RIGHT, "", true)] == [ASend(RIGHT, "", true)];
    assert Run(cfg, now, []) == Init(now);
    hide Run;
  }

  lemma AtDeadline(cfg: Config, now: int)
    requires cfg.ttlMs >= 1000
    ensures NewDeadline(cfg, now, now) == now + Whole(cfg) && !Refused(cfg, now, now)
  {
  }

  /** The walk that is alive when the cooldown is over, with an attempt left. */
  lemma OldOutlivesCooldown(cfg: Config, now: int) returns (acts: seq<Action>)
    requires cfg.ttlMs >= 1000 && cfg.maxAttempts >= 1
    requires cfg.ttlMs + (cfg.maxAttempts - 1) * Whole(cfg) > cfg.cooldownMs
    ensures var s := Run(cfg, now, acts);
            && s.now == now + cfg.cooldownMs + 1 && Alive(s) && s.code.value.hash != WRONG
            && s.code.value.attempts + 1 <= cfg.maxAttempts && !CoolingDown(s)
  {
    hide Run, Whole;
    var i: nat := 0;
    while cfg.ttlMs + i * Whole(cfg) <= cfg.cooldownMs
      invariant i <= cfg.maxAttempts - 1
      invariant i > 0 ==> cfg.ttlMs + (i - 1) * Whole(cfg) <= cfg.cooldownMs
      decreases cfg.maxAttempts - i
    {
      i := i + 1;
    }
    WalkLasts(cfg, now, i);
    var s := Run(cfg, now, Walk(cfg, i));
    assert s.now <= now + cfg.cooldownMs + 1;
    var wait: nat := now + cfg.cooldownMs + 1 - s.now;
    acts := Walk(cfg, i) + [Tick(wait)];
    RunNext(cfg, now, Walk(cfg, i), Tick(wait));
  }

  /**
   One instant can see more than maxAttempts comparisons in some run, unless a
   code, kept alive by a guess at each deadline, is dead before its successor
   may be sent.
   */
  lemma InstantBoundExact(cfg: Config, t: int)
    ensures AlwaysBounded(cfg, t, t, cfg.maxAttempts)
       <==> cfg.maxAttempts == 0
            || (cfg.ttlMs >= 1000 && cfg.ttlMs + (cfg.maxAttempts - 1) * Whole(cfg) <= cfg.cooldownMs)
  {
    hide Run, Inv, TimesOk, Whole;
    if cfg.maxAttempts == 0 {
      forall now, acts ensures Between(Run(cfg, now, acts).checks, t, t) <= 0 { NoAttempts(cfg, now, acts); }
    } else if cfg.ttlMs < 1000 {
      SubSecondUnbounded(cfg, t, t, cfg.maxAttempts);
    } else if cfg.ttlMs + (cfg.maxAttempts - 1) * Whole(cfg) <= cfg.cooldownMs {
      forall now, acts ensures Between(Run(cfg, now, acts).checks, t, t) <= cfg.maxAttempts {
        RunKeeps(cfg, now, acts);
        RunTimes(cfg, now, acts);
        InstantWithin(cfg, Run(cfg, now, acts), t);
      }
    } else {
      var now := t - (cfg.cooldownMs + 1);
      var acts := OldOutlivesCooldown(cfg, now);
      var all := OldAndNew(cfg, now, acts, 1);
      assert Between(Run(cfg, now, all).checks, t, t) > cfg.maxAttempts;
    }
  }

  // When the two codes of one instant can both be tried in full.

  /** Some comparison against this code came within its first lifetime. */
  ghost predicate HasEarly(cfg: Config, sends: seq<int>, checks: seq<Check>, k: nat) {
    exists j :: 0 <= j < |checks| && checks[j].send == k && k < |sends| && checks[j].at <= sends[k] + cfg.ttlMs
  }

  ghost predicate FirstsOk(cfg: Config, s: State) {
    forall i | 0 <= i < |s.checks| :: HasEarly(cfg, s.sends, s.checks, s.checks[i].send)
  }

  lemma {:induction false} SomeCheck(checks: seq<Check>, k: int)
    requires ChecksOf(checks, k) > 0
    ensures exists i :: 0 <= i < |checks| && checks[i].send == k
  {
    var last := |checks| - 1;
    if checks[last].send != k {
      SomeCheck(checks[..last], k);
      var i :| 0 <= i < last && checks[..last][i].send == k;
      assert checks[i].send == k;
    }
  }

  lemma EarlyLater(cfg: Config, sends: seq<int>, checks: seq<Check>, sends': seq<int>, checks': seq<Check>, k: nat)
    requires HasEarly(cfg, sends, checks, k) && sends <= sends' && checks <= checks'
    ensures HasEarly(cfg, sends', checks', k)
  {
    var j :| 0 <= j < |checks| && checks[j].send == k && k < |sends| && checks[j].at <= sends[k] + cfg.ttlMs;
    assert checks'[j] == checks[j] && sends'[k] == sends[k];
  }

  lemma VerifyFirsts(cfg: Config, s: State, hash: string)
    requires FirstsOk(cfg, s) && TimesOk(cfg, s) && CountsOk(cfg, s)
    ensures FirstsOk(cfg, Verify(cfg, s, hash).0)
  {
    hide HasEarly, ChecksOf, NewDeadline, Refused;
    var s' := Verify(cfg, s, hash).0;
    if s' != s {
      var c := s.code.value;
      assert s'.sends == s.sends && s'.checks == s.checks + [Check(s.now, c.send)];
      hide Verify;
      forall i | 0 <= i < |s.checks| ensures HasEarly(cfg, s.sends, s'.checks, s.checks[i].send) {
        EarlyLater(cfg, s.sends, s.checks, s.sends, s'.checks, s.checks[i].send);
      }
      if c.attempts > 0 {
        SomeCheck(s.checks, c.send);
      } else {
        FirstTry(cfg, s);
      }
    }
  }

  lemma FirstTry(cfg: Config, s: State)
    requires TimesOk(cfg, s) && Alive(s) && s.code.value.attempts == 0
    ensures HasEarly(cfg, s.sends, s.checks + [Check(s.now, s.code.value.send)], s.code.value.send)
  {
    var checks := s.checks + [Check(s.now, s.code.value.send)];
    assert checks[|s.checks|] == Check(s.now, s.code.value.send);
    assert s.code.value.expireAt <= s.sends[s.code.value.send] + cfg.ttlMs;
  }

  lemma StepFirsts(cfg: Config, s: State, a: Action)
    requires FirstsOk(cfg, s) && TimesOk(cfg, s) && CountsOk(cfg, s)
    ensures FirstsOk(cfg, Step(cfg, s, a))
  {
    hide HasEarly, Verify, TimesOk, CountsOk;
    match a
    case Tick(_) =>
    case ASend(hash, account, delivered) =>
      var s' := Send(cfg, s, hash, account, delivered);
      forall i | 0 <= i < |s.checks| ensures HasEarly(cfg, s'.sends, s.checks, s.checks[i].send) {
        EarlyLater(cfg, s.sends, s.checks, s'.sends, s.checks, s.checks[i].send);
      }
    case AVerify(hash) => VerifyFirsts(cfg, s, hash);
  }

  lemma {:induction false} RunFirsts(cfg: Config, now: int, acts: seq<Action>)
    requires cfg.ttlMs >= 1000
    ensures FirstsOk(cfg, Run(cfg, now, acts))
  {
    hide Step, TimesOk, HasEarly;
    if acts != [] {
      RunFirsts(cfg, now, acts[..|acts| - 1]);
      RunTimes(cfg, now, acts[..|acts| - 1]);
      RunKeeps(cfg, now, acts[..|acts| - 1]);
      StepFirsts(cfg, Run(cfg, now, acts[..|acts| - 1]), acts[|acts| - 1]);
    }
  }

  lemma {:induction false} OnlyAtInstant(checks: seq<Check>, t: int, k: int)
    ensures BetweenOf(checks, t, t, k, k + 1) <= ChecksOf(checks, k)
    ensures forall j | 0 <= j < |checks| && checks[j].send == k && checks[j].at != t :: BetweenOf(checks, t, t, k, k + 1) < ChecksOf(checks, k)
  {
    if checks != [] {
      var last := |checks| - 1;
      OnlyAtInstant(checks[..last], t, k);
      forall j | 0 <= j < |checks| && checks[j].send == k && checks[j].at != t
        ensures BetweenOf(checks, t, t, k, k + 1) < ChecksOf(checks, k)
      {
        if j < last { assert checks[..last][j] == checks[j]; }
      }
    }
  }

  /** If the successor may only be sent after a first lifetime, the old code has been tried before. */
  lemma OldTriedBefore(cfg: Config, s: State, t: int, a: nat)
    requires SendsOk(cfg, s) && ChecksOk(s) && CountsOk(cfg, s) && FirstsOk(cfg, s)
    requires cfg.maxAttempts >= 1 && cfg.ttlMs <= cfg.cooldownMs && a + 1 < |s.sends| && s.sends[a + 1] <= t
    ensures BetweenOf(s.checks, t, t, a, a + 1) < cfg.maxAttempts
  {
    hide SendsOk, ChecksOk, FirstsOk, HasEarly;
    OnlyAtInstant(s.checks, t, a);
    assert ChecksOf(s.checks, a) <= cfg.maxAttempts;
    if ChecksOf(s.checks, a) > 0 { EarlyCheck(cfg, s, t, a); }
    hide CountsOk;
  }

  lemma EarlyCheck(cfg: Config, s: State, t: int, a: nat)
    requires SendsOk(cfg, s) && FirstsOk(cfg, s) && ChecksOf(s.checks, a) > 0
    requires cfg.ttlMs <= cfg.cooldownMs && a + 1 < |s.sends| && s.sends[a + 1] <= t
    ensures exists j :: 0 <= j < |s.checks| && s.checks[j].send == a && s.checks[j].at != t
  {
    SomeCheck(s.checks, a);
    assert HasEarly(cfg, s.sends, s.checks, a);
    var j :| 0 <= j < |s.checks| && s.checks[j].send == a && s.checks[j].at <= s.sends[a] + cfg.ttlMs;
    SendsApart(cfg, s.sends, a, a + 1);
    assert s.checks[j].at < t;
  }

  /** What is tried at an instant: the code in force before it, and one sent at it. */
  lemma TriedAtInstant(cfg: Config, s: State, t: int) returns (a: nat, b: nat)
    requires SendsOk(cfg, s) && ChecksOk(s)
    ensures a <= b <= a + 2 && (b == a + 2 ==> a + 1 < |s.sends| && s.sends[a + 1] <= t)
    ensures Between(s.checks, t, t) == BetweenOf(s.checks, t, t, a, b)
  {
    hide Between, BetweenOf;
    var old1 := SendsBefore(s.sends, t) - 1;
    a := if old1 < 0 then 0 else old1;
    b := if SendsBefore(s.sends, t + 1) < a then a else SendsBefore(s.sends, t + 1);
    FewSends(cfg, s.sends, t, t, 1);
    forall i | 0 <= i < |s.checks| && t <= s.checks[i].at <= t ensures a <= s.checks[i].send < b {
      CheckedSends(cfg, s, t, t, i);
    }
    hide ChecksOk, SendsOk;
    AllOf(s.checks, t, t, a, b);
  }

  lemma InstantBelowTwice(cfg: Config, s: State, t: int)
    requires Inv(cfg, s) && FirstsOk(cfg, s) && cfg.ttlMs >= 1000 && cfg.maxAttempts >= 1 && cfg.ttlMs <= cfg.cooldownMs
    ensures Between(s.checks, t, t) < 2 * cfg.maxAttempts
  {
    hide SendsOk, ChecksOk, CodeOk, FirstsOk, Between, BetweenOf, ChecksOf;
    var a, b := TriedAtInstant(cfg, s, t);
    if b == a + 2 {
      PeelSend(s.checks, t, t, a, a + 1);
      OldTriedBefore(cfg, s, t, a);
    } else {
      PerSend(s.checks, t, t, a, b - a, cfg.maxAttempts);
      assert cfg.maxAttempts * (b - a) <= cfg.maxAttempts;
    }
  }

  /**
   An instant sees all attempts of two codes in some run exactly if the old one,
   untouched, is still alive when the cooldown is over, or attempts are not counted.
   */
  lemma InstantTwiceExact(cfg: Config, t: int)
    ensures !AlwaysBounded(cfg, t, t, 2 * cfg.maxAttempts - 1)
       <==> cfg.maxAttempts == 0 || cfg.ttlMs < 1000 || cfg.cooldownMs < cfg.ttlMs
  {
    hide Run, Inv, FirstsOk;
    if cfg.maxAttempts == 0 {
      NoAttempts(cfg, t, []);
      assert Between(Run(cfg, t, []).checks, t, t) == 0;
    } else if cfg.ttlMs < 1000 {
      SubSecondUnbounded(cfg, t, t, 2 * cfg.maxAttempts - 1);
    } else if cfg.ttlMs <= cfg.cooldownMs {
      forall now, acts ensures Between(Run(cfg, now, acts).checks, t, t) <= 2 * cfg.maxAttempts - 1 {
        RunKeeps(cfg, now, acts);
        RunFirsts(cfg, now, acts);
        InstantBelowTwice(cfg, Run(cfg, now, acts), t);
      }
    } else {
      var now := t - (cfg.cooldownMs + 1);
      SentAndWaited(cfg, now, cfg.cooldownMs + 1);
      var all := OldAndNew(cfg, now, [ASend(RIGHT, "", true)] + [Tick(cfg.cooldownMs + 1)], cfg.maxAttempts);
      assert Between(Run(cfg, now, all).checks, t, t) >= 2 * cfg.maxAttempts;
    }
  }

  lemma RoundingExact(left: nat)
    ensures 1000 * TtlSeconds(left) == left <==> left % 1000 == 0
    ensures TtlSeconds(left) <= 0 ==> left < 500
  {
  }

  lemma NewDeadlineExact(cfg: Config, now: int, expireAt: int)
    requires now <= expireAt && cfg.ttlMs >= 1000
    ensures NewDeadline(cfg, now, expireAt) == expireAt <==> expireAt - now > 0 && (expireAt - now) % 1000 == 0
  {
    RoundingExact(expireAt - now);
    assert cfg.ttlMs / 1000 >= 1;
    hide TtlSeconds;
  }

  /** A mismatch leaves the deadline alone exactly when a positive whole number of seconds remains. */
  lemma DeadlineExact(cfg: Config, s: State, hash: string)
    requires Alive(s) && s.code.value.attempts < cfg.maxAttempts && s.code.value.hash != hash && cfg.ttlMs >= 1000
    ensures var s' := Verify(cfg, s, hash).0;
            var left := s.code.value.expireAt - s.now;
            s'.code.Some? && (s'.code.value.expireAt == s.code.value.expireAt <==> left > 0 && left % 1000 == 0)
  {
    hide NewDeadline;
    NewDeadlineExact(cfg, s.now, s.code.value.expireAt);
  }

  /** Otherwise it moves by at most half a second, or in the last half second to a whole lifetime from now. */
  lemma DeadlineMoves(cfg: Config, now: int, expireAt: int)
    requires now <= expireAt && cfg.ttlMs >= 1000
    ensures var d := NewDeadline(cfg, now, expireAt);
            if expireAt - now >= 500 then -500 < d - expireAt <= 500 else d == now + cfg.ttlMs / 1000 * 1000
  {
  }

  // ----- the service -----

  class VerificationService {
    const cfg: Config
    var now: int
    var code: Option<Code>
    var cooldownUntil: Option<int>
    ghost var sends: seq<int>
    var sent: nat
    ghost var checks: seq<Check>
    ghost var successes: seq<nat>

    ghost function Value(): State
      reads this
    {
      State(now, code, cooldownUntil, sends, checks, successes)
    }

    ghost predicate Valid()
      reads this
    {
      Inv(cfg, Value()) && sent == |sends|
    }

    constructor (cfg: Config, now: int)
      ensures Valid() && Value() == Init(now) && this.cfg == cfg
    {
      this.cfg := cfg;
      this.now := now;
      code, cooldownUntil := None, None;
      sends, sent, checks, successes := [], 0, [], [];
    }

    method SendCode(hash: string, account: string, delivered: bool) returns (ok: bool)
      requires Valid()
      modifies this
      ensures Valid() && Value() == Send(cfg, old(Value()), hash, account, delivered)
      ensures ok <==> !CoolingDown(old(Value())) && delivered
    {
      hide Inv;
      SendKeeps(cfg, Value(), hash, account, delivered);
      ok := !CoolingDown(State(now, code, cooldownUntil, [], [], []));
      if !ok { return; }
      code := Some(Code(hash, 0, account, now + cfg.ttlMs, sent));
      cooldownUntil := Some(now + cfg.cooldownMs);
      sends, sent := sends + [now], sent + 1;
      if !delivered { ok, code := false, None; }
    }

    method VerifyCode(hash: string) returns (v: Verdict)
      requires Valid()
      modifies this
      ensures Valid() && (Value(), v) == Verify(cfg, old(Value()), hash)
    {
      hide Inv, TtlSeconds, Verify;
      VerifyKeeps(cfg, Value(), hash);
      VerifyCases(cfg, Value(), hash);
      if code.None? || now > code.value.expireAt { return NotFound; }
      var c := code.value;
      if c.attempts >= cfg.maxAttempts { return Exhausted; }
      checks := checks + [Check(now, c.send)];
      if c.hash == hash {
        code := None;
        successes := successes + [c.send];
        return Correct(c.account);
      }
      var ttl := TtlSeconds(c.expireAt - now);
      if ttl <= 0 { ttl := cfg.ttlMs / 1000; }
      if ttl == 0 { return ScriptError; }
      code := Some(c.(attempts := c.attempts + 1, expireAt := now + 1000 * ttl));
      return Mismatch;
    }
  }

  lemma VerifyCases(cfg: Config, s: State, hash: string)
    ensures !Alive(s) ==> Verify(cfg, s, hash) == (s, NotFound)
    ensures Alive(s) && s.code.value.attempts >= cfg.maxAttempts ==> Verify(cfg, s, hash) == (s, Exhausted)
    ensures Alive(s) && s.code.value.attempts < cfg.maxAttempts ==>
              var c := s.code.value;
              var checks := s.checks + [Check(s.now, c.send)];
              Verify(cfg, s, hash) ==
                if c.hash == hash then (s.(checks := checks, code := None, successes := s.successes + [c.send]), Correct(c.account))
                else if Refused(cfg, s.now, c.expireAt) then (s.(checks := checks), ScriptError)
                else (s.(checks := checks, code := Some(c.(attempts := c.attempts + 1, expireAt := NewDeadline(cfg, s.now, c.expireAt)))), Mismatch)
  {
    hide TtlSeconds;
  }
}
