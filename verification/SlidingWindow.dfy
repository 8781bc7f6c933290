/**
 The Redis sliding-window limiter (middleware/redis_ratelimit.go).

 The script works on a sorted set that it keeps trimming, plus a key expiry.
 Its reference is a limiter that keeps every request it ever allowed: class
 Limiter is proved to give that limiter's answers, and the promises about
 whole runs are lemmas about the reference.  Instants are microseconds, the
 resolution of the server's TIME; scores are milliseconds.
 */
module SlidingWindow {
  import opened Common
  import Decimal

  function Ms(t: int): int { t / 1000 }

  // ----- the reference limiter -----

  /** How many logged requests have a score above the cut. */
  function CountAfter(log: seq<nat>, cut: int): nat {
    if log == [] then 0
    else CountAfter(log[..|log| - 1], cut) + if Ms(log[|log| - 1]) > cut then 1 else 0
  }

  predicate Admits(log: seq<nat>, t: nat, windowSec: int, limit: int) {
    CountAfter(log, Ms(t) - windowSec * 1000) < limit
  }

  /** The requests allowed out of those arriving at `times`, none ever forgotten. */
  function Run(times: seq<nat>, windowSec: int, limit: int): seq<nat> {
    if times == [] then []
    else
      var log := Run(times[..|times| - 1], windowSec, limit);
      var t := times[|times| - 1];
      if Admits(log, t, windowSec, limit) then log + [t] else log
  }

  predicate Increasing(times: seq<nat>) {
    forall i, j | 0 <= i < j < |times| :: times[i] < times[j]
  }

  /** The first logged request whose score is above the cut. */
  function Oldest(log: seq<nat>, cut: int): Option<nat> {
    if log == [] then None
    else if Ms(log[0]) > cut then Some(log[0])
    else Oldest(log[1..], cut)
  }

  /** `n` is the least integer with 1000 * n >= ms: math.ceil(ms / 1000). */
  predicate IsCeilSec(n: int, ms: int) {
    1000 * (n - 1) < ms <= 1000 * n
  }

  /** math.ceil(ms / 1000) */
  function CeilSec(ms: int): (n: int)
    ensures IsCeilSec(n, ms)
  {
    (ms + 999) / 1000
  }

  // ----- counting lemmas -----

  lemma {:induction false} CountSplit(log: seq<nat>, cut: int, k: nat)
    requires k <= |log|
    requires forall i | 0 <= i < k :: Ms(log[i]) <= cut
    requires forall i | k <= i < |log| :: Ms(log[i]) > cut
    ensures CountAfter(log, cut) == |log| - k
  {
    if log != [] {
      CountSplit(log[..|log| - 1], cut, if k < |log| then k else |log| - 1);
    }
  }

  lemma {:induction false} CountMonotone(log: seq<nat>, cut: int, cut': int)
    requires cut <= cut'
    ensures CountAfter(log, cut') <= CountAfter(log, cut) <= |log|
  {
    if log != [] { CountMonotone(log[..|log| - 1], cut, cut'); }
  }

  /** A sorted log is cut in two by any score. */
  lemma {:induction false} Boundary(log: seq<nat>, cut: int) returns (k: nat)
    requires Increasing(log)
    ensures k <= |log|
    ensures forall i | 0 <= i < k :: Ms(log[i]) <= cut
    ensures forall i | k <= i < |log| :: Ms(log[i]) > cut
    ensures Oldest(log, cut) == if k == |log| then None else Some(log[k])
  {
    if log == [] || Ms(log[0]) > cut {
      k := 0;
    } else {
      k := Boundary(log[1..], cut);
      k := k + 1;
      assert forall i | 1 <= i < |log| :: log[i] == log[1..][i - 1];
    }
  }

  lemma {:induction false} RunKeeps(times: seq<nat>, windowSec: int, limit: int)
    requires Increasing(times)
    ensures Increasing(Run(times, windowSec, limit))
    ensures times == [] ==> Run(times, windowSec, limit) == []
    ensures forall i | 0 <= i < |Run(times, windowSec, limit)| :: Run(times, windowSec, limit)[i] <= times[|times| - 1]
  {
    if times != [] {
      hide Ms, Admits;
      RunKeeps(times[..|times| - 1], windowSec, limit);
    }
  }

  // ----- how many requests an interval can hold -----

  function CountBetween(log: seq<nat>, lo: nat, hi: nat): nat {
    if log == [] then 0
    else CountBetween(log[..|log| - 1], lo, hi) + if lo <= log[|log| - 1] <= hi then 1 else 0
  }

  /** No run of the limiter allows more than `limit` requests from `lo` to `hi`. */
  ghost predicate Bounded(windowSec: int, limit: nat, lo: nat, hi: nat) {
    forall times | Increasing(times) :: CountBetween(Run(times, windowSec, limit), lo, hi) <= limit
  }

  lemma {:induction false} BetweenWithinAfter(log: seq<nat>, lo: nat, hi: nat, cut: int)
    requires cut < Ms(lo)
    ensures CountBetween(log, lo, hi) <= CountAfter(log, cut)
  {
    if log != [] { BetweenWithinAfter(log[..|log| - 1], lo, hi, cut); }
  }

  lemma {:induction false} WindowHolds(times: seq<nat>, windowSec: int, limit: nat, lo: nat, hi: nat)
    requires limit == 0 || Ms(hi) - Ms(lo) < windowSec * 1000
    ensures CountBetween(Run(times, windowSec, limit), lo, hi) <= limit
  {
    if times != [] {
      var rest, t := times[..|times| - 1], times[|times| - 1];
      WindowHolds(rest, windowSec, limit, lo, hi);
      var log := Run(rest, windowSec, limit);
      assert (log + [t])[..|log|] == log;
      if lo <= t <= hi && limit > 0 {
        BetweenWithinAfter(log, lo, hi, Ms(t) - windowSec * 1000);
      }
    }
  }

  lemma {:induction false} DistinctInstants(log: seq<nat>, lo: nat, hi: nat)
    requires Increasing(log) && lo <= hi + 1
    ensures CountBetween(log, lo, hi) <= hi - lo + 1
  {
    if log != [] {
      var t := log[|log| - 1];
      if lo <= t <= hi && t > 0 {
        Capped(log[..|log| - 1], lo, hi, t - 1);
        DistinctInstants(log[..|log| - 1], lo, t - 1);
      } else if lo <= t <= hi {
        assert log[..|log| - 1] == [];
      } else {
        DistinctInstants(log[..|log| - 1], lo, hi);
      }
    }
  }

  lemma {:induction false} Capped(log: seq<nat>, lo: nat, hi: nat, cap: nat)
    requires cap <= hi && forall i | 0 <= i < |log| :: log[i] <= cap
    ensures CountBetween(log, lo, hi) == CountBetween(log, lo, cap)
  {
    if log != [] { Capped(log[..|log| - 1], lo, hi, cap); }
  }

  /** n requests, one microsecond apart, starting at lo. */
  function Burst(lo: nat, n: nat): (b: seq<nat>)
    ensures |b| == n && Increasing(b)
    ensures forall i | 0 <= i < n :: b[i] == lo + i
  {
    seq(n, i => lo + i)
  }

  lemma {:induction false} FewAreAllowed(times: seq<nat>, windowSec: int, limit: nat)
    requires |times| <= limit
    ensures Run(times, windowSec, limit) == times
  {
    if times != [] {
      var rest, t := times[..|times| - 1], times[|times| - 1];
      FewAreAllowed(rest, windowSec, limit);
      CountMonotone(rest, Ms(t) - windowSec * 1000, Ms(t) - windowSec * 1000);
      assert times == rest + [t];
    }
  }

  lemma {:induction false} CountAllBetween(log: seq<nat>, lo: nat, hi: nat)
    requires forall i | 0 <= i < |log| :: lo <= log[i] <= hi
    ensures CountBetween(log, lo, hi) == |log|
  {
    if log != [] { CountAllBetween(log[..|log| - 1], lo, hi); }
  }

  lemma {:induction false} FirstMissing(log: seq<nat>, cut: int)
    requires log != [] && Ms(log[0]) <= cut
    ensures CountAfter(log, cut) < |log|
  {
    if |log| > 1 { FirstMissing(log[..|log| - 1], cut); }
  }

  /** When the interval is long enough in milliseconds, limit + 1 requests do fit. */
  lemma Overfull(windowSec: int, limit: nat, lo: nat, hi: nat)
    requires 0 < limit <= hi - lo
    requires Ms(hi) - Ms(lo) >= windowSec * 1000
    ensures !Bounded(windowSec, limit, lo, hi)
  {
    var b := Burst(lo, limit);
    var times := b + [hi];
    FewAreAllowed(b, windowSec, limit);
    assert times[..limit] == b;
    FirstMissing(b, Ms(hi) - windowSec * 1000);
    assert Run(times, windowSec, limit) == times;
    CountAllBetween(times, lo, hi);
    assert Increasing(times);
  }

  /**
   The limit holds on exactly these intervals.  Scores are floored to
   milliseconds, so an interval of one window length measured in microseconds
   is not enough: its two ends may be a whole window of milliseconds apart.
   */
  lemma IntervalBoundExact(windowSec: int, limit: nat, lo: nat, hi: nat)
    requires lo <= hi
    ensures Bounded(windowSec, limit, lo, hi)
       <==> limit == 0 || hi - lo < limit || Ms(hi) - Ms(lo) < windowSec * 1000
  {
    if limit == 0 || Ms(hi) - Ms(lo) < windowSec * 1000 {
      forall times | Increasing(times) ensures CountBetween(Run(times, windowSec, limit), lo, hi) <= limit {
        WindowHolds(times, windowSec, limit, lo, hi);
      }
    } else if hi - lo < limit {
      forall times | Increasing(times) ensures CountBetween(Run(times, windowSec, limit), lo, hi) <= limit {
        RunKeeps(times, windowSec, limit);
        DistinctInstants(Run(times, windowSec, limit), lo, hi);
      }
    } else {
      Overfull(windowSec, limit, lo, hi);
    }
  }

  // ----- retry_after -----

  lemma {:induction false} NeverOverLimit(times: seq<nat>, windowSec: int, limit: nat, cut: int)
    requires Increasing(times)
    requires times != [] ==> cut >= Ms(times[|times| - 1]) - windowSec * 1000
    ensures CountAfter(Run(times, windowSec, limit), cut) <= limit
  {
    if times != [] {
      var rest, t := times[..|times| - 1], times[|times| - 1];
      var log := Run(rest, windowSec, limit);
      NeverOverLimit(rest, windowSec, limit, cut);
      CountMonotone(log, Ms(t) - windowSec * 1000, cut);
      assert (log + [t])[..|log|] == log;
    }
  }

  lemma MsMonotone(t: int, t': int)
    requires t <= t'
    ensures Ms(t) <= Ms(t')
  {}

  lemma MsSorted(log: seq<nat>)
    requires Increasing(log)
    ensures forall i, j | 0 <= i <= j < |log| :: Ms(log[i]) <= Ms(log[j])
  {
    forall i, j | 0 <= i <= j < |log| ensures Ms(log[i]) <= Ms(log[j]) { MsMonotone(log[i], log[j]); }
  }

  lemma MsShift(t: nat, n: nat)
    ensures Ms(t + 1_000_000 * n) == Ms(t) + 1000 * n
  {}

  /** From a full log on, admission waits for the oldest request in the window. */
  lemma AdmitsAfterOldest(log: seq<nat>, k: nat, t: nat, windowSec: int, limit: nat)
    requires Increasing(log) && k < |log| && |log| - k == limit
    requires forall i | 0 <= i < k :: Ms(log[i]) <= Ms(t) - windowSec * 1000
    ensures Admits(log, t, windowSec, limit) <==> Ms(t) >= Ms(log[k]) + windowSec * 1000
  {
    var k' := Boundary(log, Ms(t) - windowSec * 1000);
    CountSplit(log, Ms(t) - windowSec * 1000, k');
  }

  /** A denial leaves exactly `limit` requests in the window, log[k] the oldest. */
  lemma FullWhenDenied(times: seq<nat>, t: nat, windowSec: int, limit: nat) returns (k: nat)
    requires Increasing(times) && (times != [] ==> times[|times| - 1] < t)
    requires limit >= 1 && !Admits(Run(times, windowSec, limit), t, windowSec, limit)
    ensures var log := Run(times, windowSec, limit);
            && Increasing(log)
            && k < |log| && |log| - k == limit && log[k] <= t
            && (forall i | 0 <= i < k :: Ms(log[i]) <= Ms(t) - windowSec * 1000)
            && Ms(log[k]) > Ms(t) - windowSec * 1000
            && Oldest(log, Ms(t) - windowSec * 1000) == Some(log[k])
  {
    hide Ms, CountAfter, Run;
    var cut := Ms(t) - windowSec * 1000;
    RunKeeps(times, windowSec, limit);
    k := Boundary(Run(times, windowSec, limit), cut);
    CountSplit(Run(times, windowSec, limit), cut, k);
    if times != [] { MsMonotone(times[|times| - 1], t); }
    NeverOverLimit(times, windowSec, limit, cut);
  }

  /**
   A denial at t and the script's retry_after r.  As long as nothing is
   allowed in between, every later instant is admitted or not according to the
   oldest request in the window alone, r lies between 1 and the window, and r
   is the least whole number of seconds to wait.
   */
  lemma RetryIsLeastWait(times: seq<nat>, t: nat, windowSec: int, limit: nat, r: int)
    requires Increasing(times) && (times != [] ==> times[|times| - 1] < t)
    requires windowSec >= 1 && limit >= 1
    requires !Admits(Run(times, windowSec, limit), t, windowSec, limit)
    requires Oldest(Run(times, windowSec, limit), Ms(t) - windowSec * 1000).Some? ==>
               IsCeilSec(r, Ms(Oldest(Run(times, windowSec, limit), Ms(t) - windowSec * 1000).value) + windowSec * 1000 - Ms(t))
    ensures 1 <= r <= windowSec
    ensures Oldest(Run(times, windowSec, limit), Ms(t) - windowSec * 1000).Some?
    ensures forall t': nat | t <= t' ::
              Admits(Run(times, windowSec, limit), t', windowSec, limit)
              <==> Ms(t') >= Ms(Oldest(Run(times, windowSec, limit), Ms(t) - windowSec * 1000).value) + windowSec * 1000
    ensures forall n: nat :: Admits(Run(times, windowSec, limit), t + 1_000_000 * n, windowSec, limit) <==> n >= r
  {
    var log := Run(times, windowSec, limit);
    var k := FullWhenDenied(times, t, windowSec, limit);
    forall t': nat | t <= t' ensures Admits(log, t', windowSec, limit) <==> Ms(t') >= Ms(log[k]) + windowSec * 1000 {
      AdmitsAfterOldest(log, k, t', windowSec, limit);
    }
    forall n: nat ensures Admits(log, t + 1_000_000 * n, windowSec, limit) <==> n >= r {
      MsShift(t, n);
    }
  }

  // ----- the script -----

  /** The sorted-set member of a request: now_ms .. ':' .. microseconds. */
  function Member(t: nat): string {
    Decimal.Print(Ms(t)) + ":" + Decimal.Print(t % 1_000_000)
  }

  lemma MemberInjective(t: nat, t': nat)
    requires Member(t) == Member(t')
    ensures t == t'
  {
    hide Decimal.Print;
    var a, b := Decimal.Print(Ms(t)), Decimal.Print(Ms(t'));
    var u, v := Decimal.Print(t % 1_000_000), Decimal.Print(t' % 1_000_000);
    assert Member(t) == a + (":" + u) && Member(t') == b + (":" + v);
    Decimal.DigitRunPrint(Ms(t), ":" + u);
    Decimal.DigitRunPrint(Ms(t'), ":" + v);
    assert a == Member(t)[..|a|] && b == Member(t')[..|b|];
    assert u == Member(t)[|a| + 1..] && v == Member(t')[|b| + 1..];
    Decimal.PrintInjective(Ms(t), Ms(t'));
    Decimal.PrintInjective(t % 1_000_000, t' % 1_000_000);
    assert Ms(t) / 1000 == t / 1_000_000 && Ms(t') / 1000 == t' / 1_000_000;
  }

  /** The sorted set that holds the log from index k on, under a naming of its members. */
  function Live(name: nat -> string, log: seq<nat>, k: nat): map<string, int> {
    if |log| <= k then map[]
    else Live(name, log[..|log| - 1], k)[name(log[|log| - 1]) := Ms(log[|log| - 1])]
  }

  ghost predicate Injective(name: nat -> string) {
    forall t, t' | name(t) == name(t') :: t == t'
  }

  ghost predicate Holds(zset: map<string, int>, name: nat -> string, log: seq<nat>, k: nat)
    requires k <= |log|
  {
    && |zset| == |log| - k
    && (forall i | k <= i < |log| :: name(log[i]) in zset && zset[name(log[i])] == Ms(log[i]))
    && (forall m | m in zset :: InLog(m, name, log, k))
  }

  ghost predicate InLog(m: string, name: nat -> string, log: seq<nat>, k: nat) {
    exists i :: 0 <= k <= i < |log| && m == name(log[i])
  }

  lemma {:induction false} LiveHolds(name: nat -> string, log: seq<nat>, k: nat)
    requires Increasing(log) && k <= |log| && Injective(name)
    ensures Holds(Live(name, log, k), name, log, k)
  {
    hide Ms;
    if k < |log| {
      hide Holds, Injective;
      var rest, t := log[..|log| - 1], log[|log| - 1];
      LiveHolds(name, rest, k);
      AddHolds(Live(name, rest, k), name, rest, k, t);
      assert rest + [t] == log;
    }
  }

  /** ZADD of a later request. */
  lemma AddHolds(zset: map<string, int>, name: nat -> string, log: seq<nat>, k: nat, t: nat)
    requires k <= |log| && Injective(name) && Holds(zset, name, log, k)
    requires Increasing(log + [t])
    ensures Holds(zset[name(t) := Ms(t)], name, log + [t], k)
  {
    var log' := log + [t];
    assert log'[|log|] == t;
    forall i | k <= i < |log| ensures name(log[i]) != name(t) {
      assert log'[i] < log'[|log|];
    }
    assert name(t) !in zset by { assert name(t) in zset ==> InLog(name(t), name, log, k); }
    forall i | k <= i < |log'| ensures name(log'[i]) in zset[name(t) := Ms(t)] && zset[name(t) := Ms(t)][name(log'[i])] == Ms(log'[i]) {
      if i < |log| { assert log'[i] == log[i] && name(log[i]) in zset; }
    }
    forall m | m in zset[name(t) := Ms(t)] ensures InLog(m, name, log', k) {
      if m != name(t) {
        assert InLog(m, name, log, k);
        var i :| k <= i < |log| && m == name(log[i]);
        assert m == name(log'[i]);
      }
    }
  }

  function Evict(zset: map<string, int>, upTo: int): map<string, int> {
    map m | m in zset && !(0 <= zset[m] <= upTo) :: zset[m]
  }

  /** ZREMRANGEBYSCORE drops a prefix of the log. */
  lemma EvictHolds(zset: map<string, int>, name: nat -> string, log: seq<nat>, k: nat, k': nat, cut: int)
    requires Increasing(log) && Injective(name) && k <= k' <= |log| && Holds(zset, name, log, k)
    requires forall i | 0 <= i < k' :: Ms(log[i]) <= cut
    requires forall i | k' <= i < |log| :: Ms(log[i]) > cut
    ensures Holds(Evict(zset, cut), name, log, k')
  {
    LiveHolds(name, log, k');
    var a, b := Evict(zset, cut), Live(name, log, k');
    forall m ensures m in a <==> m in b {
      if m in a {
        assert InLog(m, name, log, k);
        var i :| k <= i < |log| && m == name(log[i]);
      }
      if m in b {
        assert InLog(m, name, log, k');
        var i :| k' <= i < |log| && m == name(log[i]);
      }
    }
    assert a.Keys == b.Keys;
    assert |a| == |a.Keys| && |b| == |b.Keys|;
  }

  lemma MembersInjective()
    ensures Injective(Member)
  {
    forall t, t' | Member(t) == Member(t') ensures t == t' { MemberInjective(t, t'); }
  }

  /** ZRANGE key 0 0 yields the oldest request of the window, if there is one. */
  lemma HasLeast(zset: map<string, int>, name: nat -> string, log: seq<nat>, k: nat)
    requires Increasing(log) && k <= |log| && Holds(zset, name, log, k)
    ensures zset == map[] <==> k == |log|
    ensures k < |log| ==> name(log[k]) in zset && zset[name(log[k])] == Ms(log[k])
    ensures k < |log| ==> forall m | m in zset :: Ms(log[k]) <= zset[m]
  {
    forall m | m in zset ensures k < |log| && Ms(log[k]) <= zset[m] {
      assert InLog(m, name, log, k);
      var i :| k <= i < |log| && m == name(log[i]);
      MsMonotone(log[k], log[i]);
    }
  }

  lemma {:induction false} OldestIs(log: seq<nat>, k: nat, cut: int)
    requires k <= |log|
    requires forall i | 0 <= i < k :: Ms(log[i]) <= cut
    requires k < |log| ==> Ms(log[k]) > cut
    ensures Oldest(log, cut) == if k == |log| then None else Some(log[k])
  {
    if k > 0 { OldestIs(log[1..], k - 1, cut); }
  }

  /** What the stored key says about the log: it holds log[dropped..], and the rest has left the window. */
  ghost predicate Coupled(name: nat -> string, zset: map<string, int>, expireAt: int,
                          log: seq<nat>, dropped: nat, clock: int, windowSec: int)
  {
    && Injective(name)
    && Increasing(log)
    && dropped <= |log|
    && Holds(zset, name, log, dropped)
    && (forall i | 0 <= i < |log| :: log[i] <= clock)
    && (forall i | 0 <= i < dropped :: Ms(log[i]) <= Ms(clock) - windowSec * 1000)
    && (dropped < |log| ==> windowSec >= 1 && expireAt == Ms(log[|log| - 1]) + windowSec * 1000)
  }

  /** Lazy expiry, then eviction. */
  function Trimmed(zset: map<string, int>, expireAt: int, nowMs: int, windowSec: int): map<string, int> {
    Evict(if nowMs > expireAt then map[] else zset, nowMs - windowSec * 1000)
  }

  lemma TrimKeepsCoupled(name: nat -> string, zset: map<string, int>, expireAt: int,
                         log: seq<nat>, dropped: nat, clock: int, windowSec: int, t: nat) returns (k: nat)
    requires Coupled(name, zset, expireAt, log, dropped, clock, windowSec) && clock < t
    ensures Coupled(name, Trimmed(zset, expireAt, Ms(t), windowSec), expireAt, log, k, t, windowSec)
    ensures |Trimmed(zset, expireAt, Ms(t), windowSec)| == CountAfter(log, Ms(t) - windowSec * 1000)
    ensures forall i | k <= i < |log| :: Ms(log[i]) > Ms(t) - windowSec * 1000
  {
    hide Ms;
    var cut := Ms(t) - windowSec * 1000;
    k := Boundary(log, cut);
    CountSplit(log, cut, k);
    MsMonotone(clock, t);
    MsSorted(log);
    if Ms(t) <= expireAt {
      EvictHolds(zset, name, log, dropped, k, cut);
    }
  }

  lemma AdmitKeepsCoupled(name: nat -> string, zset: map<string, int>, expireAt: int,
                          log: seq<nat>, dropped: nat, windowSec: int, t: nat)
    requires Coupled(name, zset, expireAt, log, dropped, t, windowSec) && Increasing(log + [t])
    ensures windowSec <= 0 ==> Coupled(name, map[], expireAt, log + [t], |log| + 1, t, windowSec)
    ensures windowSec >= 1 ==>
              Coupled(name, zset[name(t) := Ms(t)], Ms(t) + windowSec * 1000, log + [t], dropped, t, windowSec)
  {
    hide Ms;
    AddHolds(zset, name, log, dropped, t);
  }

  lemma LaterIsIncreasing(log: seq<nat>, t: nat)
    requires Increasing(log) && forall i | 0 <= i < |log| :: log[i] < t
    ensures Increasing(log + [t])
  {}

  lemma CoupledThenLater(name: nat -> string, zset: map<string, int>, expireAt: int,
                         log: seq<nat>, dropped: nat, clock: int, windowSec: int, t: nat)
    requires Coupled(name, zset, expireAt, log, dropped, clock, windowSec) && clock < t
    ensures Increasing(log + [t])
  {
    LaterIsIncreasing(log, t);
  }

  lemma RunSnoc(times: seq<nat>, t: nat, windowSec: int, limit: int)
    requires Increasing(times) && (times != [] ==> times[|times| - 1] < t)
    ensures Increasing(times + [t])
    ensures Run(times + [t], windowSec, limit)
         == Run(times, windowSec, limit) + if Admits(Run(times, windowSec, limit), t, windowSec, limit) then [t] else []
  {
    assert (times + [t])[..|times|] == times;
  }

  /** The server's TIME as seconds and microseconds, and the millisecond clock made of them. */
  method ReadClock(t: nat) returns (nowSec: nat, nowMs: nat)
    ensures nowSec == t / 1_000_000 && nowMs == Ms(t)
  {
    var usec := t % 1_000_000;
    nowSec := t / 1_000_000;
    nowMs := nowSec * 1000 + usec / 1000;
  }

  datatype Reply = Reply(allowed: bool, remaining: int, resetAt: int, retryAfter: int)

  class Limiter {
    const windowSec: int
    const limit: int
    const member: nat -> string       // how a request is named in the sorted set
    var zset: map<string, int>
    var expireAt: int

    /** Every request that arrived, and those the reference allows; the sorted set holds log[dropped..]. */
    ghost var hits: seq<nat>
    ghost var log: seq<nat>
    ghost var dropped: nat
    ghost var clock: int

    ghost predicate Valid()
      reads this
    {
      && Coupled(member, zset, expireAt, log, dropped, clock, windowSec)
      && log == Run(hits, windowSec, limit)
      && Increasing(hits)
      && clock == if hits == [] then -1 else hits[|hits| - 1]
    }

    constructor (windowSec: int, limit: int)
      ensures Valid() && hits == []
      ensures this.windowSec == windowSec && this.limit == limit && member == Member
    {
      this.windowSec, this.limit := windowSec, limit;
      member := Member;
      zset, expireAt := map[], 0;
      hits, log, dropped, clock := [], [], 0, -1;
      MembersInjective();
    }

    /** Expiry and eviction: what is left is the part of the log inside the window. */
    method Trim(t: nat)
      requires Coupled(member, zset, expireAt, log, dropped, clock, windowSec) && clock < t
      modifies `zset, `dropped, `clock
      ensures Coupled(member, zset, expireAt, log, dropped, t, windowSec) && clock == t
      ensures |zset| == CountAfter(log, Ms(t) - windowSec * 1000)
      ensures forall i | dropped <= i < |log| :: Ms(log[i]) > Ms(t) - windowSec * 1000
    {
      hide Ms, Holds, Injective, Increasing, CountAfter;
      ghost var k := TrimKeepsCoupled(member, zset, expireAt, log, dropped, clock, windowSec, t);
      var _, nowMs := ReadClock(t);
      if nowMs > expireAt { zset := map[]; }
      zset := Evict(zset, nowMs - windowSec * 1000);
      dropped, clock := k, t;
    }

    /** reset_at and retry_after, from the oldest entry of the sorted set. */
    method FirstSlot(t: nat) returns (resetAt: int, retryAfter: int)
      requires Coupled(member, zset, expireAt, log, dropped, t, windowSec)
      requires forall i | dropped <= i < |log| :: Ms(log[i]) > Ms(t) - windowSec * 1000
      ensures Oldest(log, Ms(t) - windowSec * 1000).None? ==>
                resetAt == t / 1_000_000 + windowSec && retryAfter == windowSec
      ensures Oldest(log, Ms(t) - windowSec * 1000).Some? ==>
                var freeAt := Ms(Oldest(log, Ms(t) - windowSec * 1000).value) + windowSec * 1000;
                IsCeilSec(resetAt, freeAt) && IsCeilSec(retryAfter, freeAt - Ms(t))
    {
      hide Ms, CeilSec, Injective, Holds, Increasing, Oldest;
      var nowSec, nowMs := ReadClock(t);
      resetAt, retryAfter := nowSec + windowSec, windowSec;
      OldestIs(log, dropped, Ms(t) - windowSec * 1000);
      HasLeast(zset, member, log, dropped);
      if zset != map[] {
        MsMonotone(log[dropped], t);
        var m :| m in zset && forall m' | m' in zset :: zset[m] <= zset[m'];
        var oldestScore := zset[m];
        resetAt := CeilSec(oldestScore + windowSec * 1000);
        var diff := oldestScore + windowSec * 1000 - nowMs;
        retryAfter := if diff > 0 then CeilSec(diff) else 0;
        if retryAfter > windowSec { retryAfter := windowSec; }
      }
    }

    /** One evaluation of the script at server time t. */
    method Hit(t: nat) returns (r: Reply)
      requires Valid() && (hits == [] || hits[|hits| - 1] < t)
      modifies this
      ensures Valid() && hits == old(hits) + [t]
      ensures r.allowed <==> Admits(old(log), t, windowSec, limit)
      ensures log == if r.allowed then old(log) + [t] else old(log)
      ensures r.remaining == if r.allowed then limit - CountAfter(old(log), Ms(t) - windowSec * 1000) - 1 else 0
      ensures Oldest(log, Ms(t) - windowSec * 1000).None? ==>
                r.resetAt == t / 1_000_000 + windowSec && r.retryAfter == windowSec
      ensures Oldest(log, Ms(t) - windowSec * 1000).Some? ==>
                var freeAt := Ms(Oldest(log, Ms(t) - windowSec * 1000).value) + windowSec * 1000;
                IsCeilSec(r.resetAt, freeAt) && IsCeilSec(r.retryAfter, freeAt - Ms(t))
    {
      hide Ms, Holds, Injective, CountAfter, Oldest, IsCeilSec, Increasing, Coupled, Run;
      CoupledThenLater(member, zset, expireAt, log, dropped, clock, windowSec, t);
      RunSnoc(hits, t, windowSec, limit);
      Trim(t);
      var count := |zset|;
      var allowed, remaining := false, 0;
      if count < limit {
        Admit(t);
        allowed, remaining := true, limit - count - 1;
      }
      hits := hits + [t];
      var resetAt, retryAfter := FirstSlot(t);
      r := Reply(allowed, remaining, resetAt, retryAfter);
    }

    /** ZADD and EXPIRE; an EXPIRE with no time left deletes the key. */
    method Admit(t: nat)
      requires Coupled(member, zset, expireAt, log, dropped, t, windowSec) && Increasing(log + [t])
      requires forall i | dropped <= i < |log| :: Ms(log[i]) > Ms(t) - windowSec * 1000
      modifies `zset, `expireAt, `log, `dropped
      ensures Coupled(member, zset, expireAt, log, dropped, t, windowSec) && log == old(log) + [t]
      ensures forall i | dropped <= i < |log| :: Ms(log[i]) > Ms(t) - windowSec * 1000
    {
      hide Ms, Holds, Injective;
      AdmitKeepsCoupled(member, zset, expireAt, log, dropped, windowSec, t);
      var _, nowMs := ReadClock(t);
      zset := zset[member(t) := nowMs];
      log := log + [t];
      if windowSec <= 0 {
        zset, dropped := map[], |log|;
      } else {
        expireAt := nowMs + windowSec * 1000;
      }
    }
  }
}
