/**
 One fixed-window counter and what is done behind it: CheckAndIncr of
 internal/cache/redis_client.go lets an attempt through, and the check it is
 for (a password hash, an MFA code) follows some time later.

 A pass is history: when it was let through, in which window, and when its
 check was made.
 */
module AttemptWindows {
  import opened Common

  /** A counter key; its window began when it was created. */
  datatype Counter = Counter(count: nat, start: int)

  /** A script call: done, done but reported failed, or not done. */
  datatype Call = Done | DoneButReported | Lost

  datatype Pass = Pass(at: int, start: int, checkedAt: Option<int>)
  datatype Entry = Entry(counter: Option<Counter>, passes: seq<Pass>)

  const EMPTY := Entry(None, [])

  // ----- checkAndIncrLuaScript -----

  function Alive(now: int, c: Option<Counter>, windowSec: nat): bool {
    c.Some? && now <= c.value.start + 1000 * windowSec
  }

  /** The new counter and the number returned; a full counter is left alone. */
  function CheckAndIncr(now: int, c: Option<Counter>, limit: nat, windowSec: nat): (Option<Counter>, nat) {
    var current := if Alive(now, c, windowSec) then c.value.count else 0;
    if current >= limit then (c, current)
    else if current == 0 then (Some(Counter(1, now)), 1)
    else (Some(c.value.(count := current + 1)), current + 1)
  }

  predicate Granted(call: Call, n: nat, limit: nat) {
    call.Done? && n < limit
  }

  /** The counter's new entry, and whether the attempt is let through. */
  function Admit(now: int, e: Entry, limit: nat, windowSec: nat, call: Call): (Entry, bool) {
    if call.Lost? then (e, false)
    else
      var (c, n) := CheckAndIncr(now, e.counter, limit, windowSec);
      if Granted(call, n, limit) && c.Some?
      then (Entry(c, e.passes + [Pass(now, c.value.start, None)]), true)
      else (Entry(c, e.passes), false)
  }

  /** The check of pass i is made. */
  function Mark(e: Entry, i: nat, now: int): Entry {
    if i < |e.passes| && e.passes[i].checkedAt.None?
    then e.(passes := e.passes[i := e.passes[i].(checkedAt := Some(now))])
    else e
  }

  // ----- runs of one counter -----

  datatype Gate = Gate(now: int, e: Entry)

  datatype Action = Tick(ms: nat) | AAdmit(call: Call) | ACheck(i: nat)

  function Step(limit: nat, windowSec: nat, g: Gate, a: Action): Gate {
    match a
    case Tick(ms) => g.(now := g.now + ms)
    case AAdmit(call) => g.(e := Admit(g.now, g.e, limit, windowSec, call).0)
    case ACheck(i) => g.(e := Mark(g.e, i, g.now))
  }

  function Steps(limit: nat, windowSec: nat, g: Gate, acts: seq<Action>): Gate {
    if acts == [] then g else Step(limit, windowSec, Steps(limit, windowSec, g, acts[..|acts| - 1]), acts[|acts| - 1])
  }

  // ----- counting -----

  /** Attempts let through in the window that began at `start`. */
  function InWindow(passes: seq<Pass>, start: int): nat {
    if passes == [] then 0
    else InWindow(passes[..|passes| - 1], start) + if passes[|passes| - 1].start == start then 1 else 0
  }

  /** Those of them after the instant the window began. */
  function LateInWindow(passes: seq<Pass>, start: int): nat {
    if passes == [] then 0
    else
      var p := passes[|passes| - 1];
      LateInWindow(passes[..|passes| - 1], start) + if p.start == start && p.at > start then 1 else 0
  }

  /** Those of them that were checked. */
  function CheckedInWindow(passes: seq<Pass>, start: int): nat {
    if passes == [] then 0
    else
      var p := passes[|passes| - 1];
      CheckedInWindow(passes[..|passes| - 1], start) + if p.start == start && p.checkedAt.Some? then 1 else 0
  }

  /** Attempts let through between lo and hi. */
  function Between(passes: seq<Pass>, lo: int, hi: int): nat {
    if passes == [] then 0
    else Between(passes[..|passes| - 1], lo, hi) + if lo <= passes[|passes| - 1].at <= hi then 1 else 0
  }

  /** Attempts let through until hi in windows that began at lo or later. */
  function SinceStart(passes: seq<Pass>, lo: int, hi: int): nat {
    if passes == [] then 0
    else
      var p := passes[|passes| - 1];
      SinceStart(passes[..|passes| - 1], lo, hi) + if lo <= p.start && p.at <= hi then 1 else 0
  }

  /** Checks made between lo and hi. */
  function Checks(passes: seq<Pass>, lo: int, hi: int): nat {
    if passes == [] then 0
    else
      var p := passes[|passes| - 1];
      Checks(passes[..|passes| - 1], lo, hi) + if p.checkedAt.Some? && lo <= p.checkedAt.value <= hi then 1 else 0
  }

  function PerWindow(limit: nat): nat {
    if limit == 0 then 0 else limit - 1
  }

  // ----- invariant -----

  /** Passes lie in their windows, windows do not overlap, checks follow their passes. */
  ghost predicate Apart(w: nat, now: int, passes: seq<Pass>) {
    && (forall i | 0 <= i < |passes| :: passes[i].start <= passes[i].at <= passes[i].start + w && passes[i].at <= now)
    && (forall i, j | 0 <= i < j < |passes| :: passes[i].start == passes[j].start || passes[i].start + w < passes[j].start)
    && (forall i | 0 <= i < |passes| && passes[i].checkedAt.Some? :: passes[i].at <= passes[i].checkedAt.value <= now)
  }

  /** The counter's window is the last one. */
  ghost predicate Last(w: nat, e: Entry) {
    && (e.counter.None? ==> e.passes == [])
    && (forall i | 0 <= i < |e.passes| && e.counter.Some? ::
          e.passes[i].start == e.counter.value.start || e.passes[i].start + w < e.counter.value.start)
  }

  ghost predicate Windows(w: nat, now: int, e: Entry) {
    && Apart(w, now, e.passes) && Last(w, e)
    && (e.counter.Some? ==> 1 <= e.counter.value.count && e.counter.value.start <= now)
  }

  /** No window lets through more than its share, the running one no more than it counted. */
  ghost predicate Shares(cap: nat, e: Entry) {
    && (forall a :: InWindow(e.passes, a) <= cap)
    && (forall a :: LateInWindow(e.passes, a) <= if cap == 0 then 0 else cap - 1)
    && (e.counter.Some? ==>
          && InWindow(e.passes, e.counter.value.start) <= e.counter.value.count
          && LateInWindow(e.passes, e.counter.value.start) <= e.counter.value.count - 1)
  }

  ghost predicate EntryOk(limit: nat, windowSec: nat, now: int, e: Entry) {
    Windows(1000 * windowSec, now, e) && Shares(PerWindow(limit), e)
  }

  lemma {:induction false} NoneInWindow(passes: seq<Pass>, a: int)
    requires forall i | 0 <= i < |passes| :: passes[i].start != a
    ensures InWindow(passes, a) == 0 && LateInWindow(passes, a) == 0
  {
    if passes != [] { NoneInWindow(passes[..|passes| - 1], a); }
  }

  lemma OneMore(passes: seq<Pass>, p: Pass)
    ensures forall a :: InWindow(passes + [p], a) == InWindow(passes, a) + if p.start == a then 1 else 0
    ensures forall a :: LateInWindow(passes + [p], a) == LateInWindow(passes, a) + if p.start == a && p.at > a then 1 else 0
  {
    assert (passes + [p])[..|passes|] == passes;
  }

  /** An attempt in the running window, or in a window that begins with it. */
  lemma PassExtends(w: nat, now: int, e: Entry, c: Counter)
    requires Apart(w, now, e.passes) && Last(w, Entry(Some(c), e.passes)) && c.start <= now <= c.start + w
    ensures var passes := e.passes + [Pass(now, c.start, None)]; Apart(w, now, passes) && Last(w, Entry(Some(c), passes))
  {
  }

  lemma NextWindow(w: nat, now: int, e: Entry, c: Counter)
    requires Last(w, e)
    requires e.counter.Some? ==> e.counter.value.start == c.start || e.counter.value.start + w < c.start
    ensures Last(w, Entry(Some(c), e.passes))
  {
  }

  lemma AdmitKeepsWindows(limit: nat, windowSec: nat, now: int, e: Entry, call: Call)
    requires Windows(1000 * windowSec, now, e)
    ensures Windows(1000 * windowSec, now, Admit(now, e, limit, windowSec, call).0)
  {
    var (c, n) := CheckAndIncr(now, e.counter, limit, windowSec);
    assert e.counter.Some? ==> e.counter.value.count >= 1 && e.counter.value.start <= now;
    hide Apart, Last;
    if !call.Lost? && c.Some? {
      NextWindow(1000 * windowSec, now, e, c.value);
      if Granted(call, n, limit) { PassExtends(1000 * windowSec, now, e, c.value); }
    }
  }

  lemma AdmitKeepsShares(limit: nat, windowSec: nat, now: int, e: Entry, call: Call)
    requires Windows(1000 * windowSec, now, e) && Shares(PerWindow(limit), e)
    ensures Shares(PerWindow(limit), Admit(now, e, limit, windowSec, call).0)
  {
    hide InWindow, LateInWindow;
    if !call.Lost? {
      var (c, n) := CheckAndIncr(now, e.counter, limit, windowSec);
      if c != e.counter && c.Some? && c.value.count == 1 {
        assert forall i | 0 <= i < |e.passes| :: e.passes[i].start < now;
        NoneInWindow(e.passes, now);
      }
      hide Windows;
      if Admit(now, e, limit, windowSec, call).1 { OneMore(e.passes, Pass(now, c.value.start, None)); }
    }
  }

  /** An attempt let through falls into the counter's window, or opens a new one. */
  lemma AdmitKeeps(limit: nat, windowSec: nat, now: int, e: Entry, call: Call)
    requires EntryOk(limit, windowSec, now, e)
    ensures EntryOk(limit, windowSec, now, Admit(now, e, limit, windowSec, call).0)
  {
    AdmitKeepsWindows(limit, windowSec, now, e, call);
    AdmitKeepsShares(limit, windowSec, now, e, call);
  }

  /** The same passes, whatever has been checked. */
  ghost predicate SameTimes(passes: seq<Pass>, passes': seq<Pass>) {
    |passes| == |passes'| && forall i | 0 <= i < |passes| :: passes[i].at == passes'[i].at && passes[i].start == passes'[i].start
  }

  lemma {:induction false} SameCounts(passes: seq<Pass>, passes': seq<Pass>, a: int)
    requires SameTimes(passes, passes')
    ensures InWindow(passes, a) == InWindow(passes', a) && LateInWindow(passes, a) == LateInWindow(passes', a)
  {
    if passes != [] { SameCounts(passes[..|passes| - 1], passes'[..|passes| - 1], a); }
  }

  lemma MarkKeeps(limit: nat, windowSec: nat, now: int, e: Entry, i: nat)
    requires EntryOk(limit, windowSec, now, e)
    ensures EntryOk(limit, windowSec, now, Mark(e, i, now))
  {
    var e' := Mark(e, i, now);
    assert SameTimes(e.passes, e'.passes) && e'.counter == e.counter;
    forall a ensures InWindow(e.passes, a) == InWindow(e'.passes, a) && LateInWindow(e.passes, a) == LateInWindow(e'.passes, a) {
      SameCounts(e.passes, e'.passes, a);
    }
    assert Windows(1000 * windowSec, now, e') by { hide Shares; }
    hide Windows, InWindow, LateInWindow;
  }

  lemma LaterOk(limit: nat, windowSec: nat, now: int, e: Entry, ms: nat)
    requires EntryOk(limit, windowSec, now, e)
    ensures EntryOk(limit, windowSec, now + ms, e)
  {
    assert Windows(1000 * windowSec, now + ms, e) by { hide Shares; }
  }

  lemma StepKeeps(limit: nat, windowSec: nat, g: Gate, a: Action)
    requires EntryOk(limit, windowSec, g.now, g.e)
    ensures var g' := Step(limit, windowSec, g, a); EntryOk(limit, windowSec, g'.now, g'.e)
  {
    hide EntryOk, Admit, Mark;
    match a
    case Tick(ms) => LaterOk(limit, windowSec, g.now, g.e, ms);
    case AAdmit(call) => AdmitKeeps(limit, windowSec, g.now, g.e, call);
    case ACheck(i) => MarkKeeps(limit, windowSec, g.now, g.e, i);
  }

  lemma {:induction false} StepsOk(limit: nat, windowSec: nat, now: int, acts: seq<Action>)
    ensures var g := Steps(limit, windowSec, Gate(now, EMPTY), acts); EntryOk(limit, windowSec, g.now, g.e)
  {
    hide Step;
    if acts != [] {
      StepsOk(limit, windowSec, now, acts[..|acts| - 1]);
      StepKeeps(limit, windowSec, Steps(limit, windowSec, Gate(now, EMPTY), acts[..|acts| - 1]), acts[|acts| - 1]);
    }
  }

  // ----- the bound -----

  lemma {:induction false} CheckedBelow(passes: seq<Pass>, a: int)
    ensures CheckedInWindow(passes, a) <= InWindow(passes, a)
  {
    if passes != [] { CheckedBelow(passes[..|passes| - 1], a); }
  }

  /** Those of one window, and those of windows that begin after it. */
  lemma {:induction false} PeelWindow(passes: seq<Pass>, lo: int, next: int, hi: int, b: int)
    requires forall i | 0 <= i < |passes| && lo <= passes[i].start < next :: passes[i].start == b
    ensures SinceStart(passes, lo, hi) <= InWindow(passes, b) + SinceStart(passes, next, hi)
  {
    if passes != [] { PeelWindow(passes[..|passes| - 1], lo, next, hi, b); }
  }

  lemma {:induction false} NothingYet(passes: seq<Pass>, lo: int, hi: int)
    requires hi < lo && forall i | 0 <= i < |passes| :: passes[i].start <= passes[i].at
    ensures SinceStart(passes, lo, hi) == 0
  {
    if passes != [] { NothingYet(passes[..|passes| - 1], lo, hi); }
  }

  /** How many windows of length w can begin within this length. */
  function Starts(w: nat, length: int): nat
    decreases length
  {
    if length < 0 then 0 else 1 + Starts(w, length - (w + 1))
  }

  lemma StartsPeel(cap: nat, w: nat, length: int)
    ensures length < 0 ==> cap * Starts(w, length) == 0
    ensures length >= 0 ==> cap * Starts(w, length) == cap + cap * Starts(w, length - (w + 1))
  {
    if length >= 0 {
      var n := Starts(w, length - (w + 1));
      assert Starts(w, length) == 1 + n;
      hide Starts;
      assert cap * (1 + n) == cap + cap * n;
    }
  }

  /** The passes of one window, and those of the windows that begin after it. */
  lemma OneWindow(cap: nat, w: nat, now: int, e: Entry, lo: int, hi: int)
    requires Windows(w, now, e) && Shares(cap, e)
    ensures SinceStart(e.passes, lo, hi) <= cap + SinceStart(e.passes, lo + (w + 1), hi)
  {
    var next := lo + (w + 1);
    var b := lo;
    if i :| 0 <= i < |e.passes| && lo <= e.passes[i].start < next { b := e.passes[i].start; }
    PeelWindow(e.passes, lo, next, hi, b);
  }

  lemma {:induction false} SinceBound(cap: nat, w: nat, now: int, e: Entry, lo: int, hi: int)
    requires Windows(w, now, e) && Shares(cap, e)
    ensures SinceStart(e.passes, lo, hi) <= cap * Starts(w, hi - lo)
    decreases hi - lo
  {
    StartsPeel(cap, w, hi - lo);
    if hi < lo {
      NothingYet(e.passes, lo, hi);
    } else {
      hide Starts, SinceStart, Windows, Shares;
      OneWindow(cap, w, now, e, lo, hi);
      SinceBound(cap, w, now, e, lo + (w + 1), hi);
      assert hi - (lo + (w + 1)) == hi - lo - (w + 1);
    }
  }

  /** Those of a window that began before lo, and those of later ones. */
  lemma {:induction false} PeelBefore(passes: seq<Pass>, lo: int, hi: int, b: int)
    requires forall i | 0 <= i < |passes| && lo <= passes[i].at && passes[i].start < lo :: passes[i].start == b && b < lo
    ensures Between(passes, lo, hi) <= LateInWindow(passes, b) + SinceStart(passes, lo, hi)
  {
    if passes != [] { PeelBefore(passes[..|passes| - 1], lo, hi, b); }
  }

  /** Where a window began before lo and reaches over it, none begins at lo. */
  lemma {:induction false} NoneAt(passes: seq<Pass>, lo: int, hi: int)
    requires forall i | 0 <= i < |passes| :: passes[i].start != lo
    ensures SinceStart(passes, lo, hi) == SinceStart(passes, lo + 1, hi)
  {
    if passes != [] { NoneAt(passes[..|passes| - 1], lo, hi); }
  }

  /**
   The most attempts an interval of this length can let through: all of every
   window that can begin in it; and if as many can begin after its first
   instant, all but the first of a window that began before it as well.
   */
  function Most(cap: nat, w: nat, length: int): int {
    if cap == 0 || length < 0 then 0
    else if Starts(w, length - 1) < Starts(w, length) then cap * Starts(w, length)
    else cap * (1 + Starts(w, length)) - 1
  }

  lemma {:induction false} StartsStep(w: nat, length: int)
    ensures Starts(w, length - 1) <= Starts(w, length) <= Starts(w, length - 1) + 1
    decreases length
  {
    if length >= 0 { StartsStep(w, length - (w + 1)); }
  }

  lemma MostCases(cap: nat, w: nat, length: int)
    requires cap >= 1 && length >= 0
    ensures cap * Starts(w, length) <= Most(cap, w, length)
    ensures cap - 1 + cap * Starts(w, length - 1) <= Most(cap, w, length)
  {
    StartsStep(w, length);
    hide Starts;
    var a, b := Starts(w, length), Starts(w, length - 1);
    assert cap * (1 + a) == cap + cap * a;
    if b < a { assert cap * a == cap + cap * b by { assert a == 1 + b; } }
  }

  /** For an interval of a window's length and delays up to a window. */
  lemma MostOfWindow(cap: nat, w: nat, d: nat)
    requires cap >= 1 && 1 <= w && d <= w + 1
    ensures Most(cap, w, w + d) == if d == 0 then 2 * cap - 1 else if d == 1 then 2 * cap else 3 * cap - 1
  {
    assert Starts(w, d - 1) == if d == 0 then 0 else 1;
    assert Starts(w, d - 2) == if d <= 1 then 0 else 1;
    assert Starts(w, w + d) == 1 + Starts(w, d - 1) && Starts(w, w + d - 1) == 1 + Starts(w, d - 2);
  }

  lemma {:induction false} AllSince(passes: seq<Pass>, lo: int, hi: int)
    requires forall i | 0 <= i < |passes| && lo <= passes[i].at :: lo <= passes[i].start
    ensures Between(passes, lo, hi) <= SinceStart(passes, lo, hi)
  {
    if passes != [] { AllSince(passes[..|passes| - 1], lo, hi); }
  }

  /** The passes of an interval into which a window of before reaches. */
  lemma ReachedInto(cap: nat, w: nat, now: int, e: Entry, lo: int, hi: int, i: nat)
    requires Windows(w, now, e) && Shares(cap, e) && i < |e.passes| && e.passes[i].start < lo <= e.passes[i].at
    ensures cap >= 1 && Between(e.passes, lo, hi) <= cap - 1 + SinceStart(e.passes, lo + 1, hi)
  {
    var b := e.passes[i].start;
    forall j | 0 <= j < |e.passes|
      ensures e.passes[j].start != lo
      ensures lo <= e.passes[j].at && e.passes[j].start < lo ==> e.passes[j].start == b
    {
      assert e.passes[j].start == b || e.passes[j].start + w < b || b + w < e.passes[j].start;
    }
    PeelBefore(e.passes, lo, hi, b);
    NoneAt(e.passes, lo, hi);
    assert LateInWindow(e.passes, b) <= if cap == 0 then 0 else cap - 1;
    HasLate(e.passes, i);
  }

  lemma {:induction false} HasLate(passes: seq<Pass>, i: nat)
    requires i < |passes| && passes[i].start < passes[i].at
    ensures LateInWindow(passes, passes[i].start) >= 1
  {
    if i < |passes| - 1 { HasLate(passes[..|passes| - 1], i); }
  }

  lemma BetweenBound(cap: nat, w: nat, now: int, e: Entry, lo: int, hi: int)
    requires Windows(w, now, e) && Shares(cap, e) && lo <= hi
    ensures Between(e.passes, lo, hi) <= Most(cap, w, hi - lo)
  {
    if i :| 0 <= i < |e.passes| && e.passes[i].start < lo <= e.passes[i].at {
      ReachedInto(cap, w, now, e, lo, hi, i);
      SinceBound(cap, w, now, e, lo + 1, hi);
    } else {
      AllSince(e.passes, lo, hi);
      SinceBound(cap, w, now, e, lo, hi);
    }
    hide Windows, Shares, Between, SinceStart, Starts, Most;
    if cap >= 1 { MostCases(cap, w, hi - lo); }
  }

  /** Every check follows its pass within d. */
  ghost predicate Prompt(d: nat, passes: seq<Pass>) {
    forall i | 0 <= i < |passes| && passes[i].checkedAt.Some? :: passes[i].at <= passes[i].checkedAt.value <= passes[i].at + d
  }

  lemma {:induction false} ChecksArePasses(passes: seq<Pass>, d: nat, lo: int, hi: int)
    requires Prompt(d, passes)
    ensures Checks(passes, lo, hi) <= Between(passes, lo - d, hi)
  {
    if passes != [] {
      var p := passes[|passes| - 1];
      ChecksArePasses(passes[..|passes| - 1], d, lo, hi);
      assert p == passes[|passes| - 1];
    }
  }

  /** Checks that follow within d number in [lo, hi] at most what an interval longer by d can let through. */
  lemma ChecksBound(limit: nat, windowSec: nat, now: int, e: Entry, d: nat, lo: int, hi: int)
    requires EntryOk(limit, windowSec, now, e) && Prompt(d, e.passes) && lo <= hi
    ensures forall a :: CheckedInWindow(e.passes, a) <= PerWindow(limit)
    ensures Checks(e.passes, lo, hi) <= Most(PerWindow(limit), 1000 * windowSec, hi - lo + d)
  {
    forall a ensures CheckedInWindow(e.passes, a) <= PerWindow(limit) { CheckedBelow(e.passes, a); }
    ChecksArePasses(e.passes, d, lo, hi);
    BetweenBound(PerWindow(limit), 1000 * windowSec, now, e, lo - d, hi);
    hide Windows, Shares;
  }

  // ----- runs that reach it -----

  lemma StepsNext(limit: nat, windowSec: nat, g: Gate, acts: seq<Action>, a: Action)
    ensures Steps(limit, windowSec, g, acts + [a]) == Step(limit, windowSec, Steps(limit, windowSec, g, acts), a)
  {
    hide Step;
    assert (acts + [a])[..|acts|] == acts;
  }

  function Current(g: Gate, windowSec: nat): nat {
    if Alive(g.now, g.e.counter, windowSec) then g.e.counter.value.count else 0
  }

  /** Nothing but n unchecked passes of this instant is new. */
  ghost predicate Filled(g: Gate, g': Gate, n: nat) {
    && g'.now == g.now && |g'.e.passes| == |g.e.passes| + n
    && (forall i | 0 <= i < |g.e.passes| :: g'.e.passes[i] == g.e.passes[i])
    && (forall i | |g.e.passes| <= i < |g'.e.passes| :: g'.e.passes[i].at == g.now && g'.e.passes[i].checkedAt.None?)
  }

  lemma AdmitOne(limit: nat, windowSec: nat, g: Gate)
    requires Current(g, windowSec) + 1 < limit && (g.e.counter.Some? ==> g.e.counter.value.count >= 1)
    ensures var g' := Step(limit, windowSec, g, AAdmit(Done));
            && Filled(g, g', 1) && g'.e.counter.Some?
            && g'.e.counter.value == Counter(Current(g, windowSec) + 1, if Alive(g.now, g.e.counter, windowSec) then g.e.counter.value.start else g.now)
  {
  }

  lemma {:induction false} Fill(limit: nat, windowSec: nat, g0: Gate, acts: seq<Action>, n: nat) returns (all: seq<Action>)
    requires var g := Steps(limit, windowSec, g0, acts);
             && Current(g, windowSec) + n < limit && (g.e.counter.Some? ==> g.e.counter.value.count >= 1)
    ensures var g := Steps(limit, windowSec, g0, acts);
            var g' := Steps(limit, windowSec, g0, all);
            && Filled(g, g', n)
            && (n == 0 ==> g' == g)
            && (n > 0 ==> g'.e.counter == Some(Counter(Current(g, windowSec) + n,
                                                       if Alive(g.now, g.e.counter, windowSec) then g.e.counter.value.start else g.now)))
    decreases n
  {
    hide Steps, Step;
    if n == 0 {
      all := acts;
    } else {
      var most := Fill(limit, windowSec, g0, acts, n - 1);
      AdmitOne(limit, windowSec, Steps(limit, windowSec, g0, most));
      StepsNext(limit, windowSec, g0, most, AAdmit(Done));
      all := most + [AAdmit(Done)];
    }
  }

  /** Passes from..until have been checked at this instant; nothing else changed. */
  ghost predicate Marked(g: Gate, g': Gate, from: nat, until: nat) {
    && g'.now == g.now && g'.e.counter == g.e.counter && |g'.e.passes| == |g.e.passes|
    && (forall i | 0 <= i < |g.e.passes| :: g'.e.passes[i] == if from <= i < until then g.e.passes[i].(checkedAt := Some(g.now)) else g.e.passes[i])
  }

  lemma {:induction false} CheckAll(limit: nat, windowSec: nat, g0: Gate, acts: seq<Action>, from: nat, until: nat) returns (all: seq<Action>)
    requires var g := Steps(limit, windowSec, g0, acts);
             from <= until <= |g.e.passes| && forall i | from <= i < until :: g.e.passes[i].checkedAt.None?
    ensures Marked(Steps(limit, windowSec, g0, acts), Steps(limit, windowSec, g0, all), from, until)
    decreases until
  {
    hide Steps;
    if from == until {
      all := acts;
    } else {
      var most := CheckAll(limit, windowSec, g0, acts, from, until - 1);
      StepsNext(limit, windowSec, g0, most, ACheck(until - 1));
      all := most + [ACheck(until - 1)];
    }
  }

  lemma {:induction false} AllChecked(passes: seq<Pass>, skip: nat, lo: int, hi: int)
    requires skip <= |passes| && forall i | skip <= i < |passes| :: passes[i].checkedAt.Some? && lo <= passes[i].checkedAt.value <= hi
    ensures Checks(passes, lo, hi) >= |passes| - skip
  {
    if |passes| > skip { AllChecked(passes[..|passes| - 1], skip, lo, hi); }
  }

  /** Passes skip..u have been checked in time, the later ones can still be, the first one never is. */
  ghost predicate Pending(d: nat, lo: int, hi: int, skip: nat, u: nat, g: Gate) {
    && skip <= u <= |g.e.passes|
    && (forall i | skip <= i < |g.e.passes| :: lo - d <= g.e.passes[i].at <= g.now)
    && (forall i | skip <= i < u ::
          && g.e.passes[i].checkedAt.Some? && lo <= g.e.passes[i].checkedAt.value <= hi
          && g.e.passes[i].at <= g.e.passes[i].checkedAt.value <= g.e.passes[i].at + d)
    && (forall i | 0 <= i < |g.e.passes| && (i < skip || u <= i) :: g.e.passes[i].checkedAt.None?)
  }

  /** The waiting attempts are checked at lo. */
  lemma CheckWaiting(limit: nat, windowSec: nat, g0: Gate, acts: seq<Action>, d: nat, lo: int, hi: int, skip: nat, u: nat) returns (all: seq<Action>)
    requires var g := Steps(limit, windowSec, g0, acts); Pending(d, lo, hi, skip, u, g) && g.now <= lo <= hi
    ensures var g := Steps(limit, windowSec, g0, acts);
            var g' := Steps(limit, windowSec, g0, all);
            && g'.now == lo && g'.e.counter == g.e.counter && |g'.e.passes| == |g.e.passes| && Pending(d, lo, hi, skip, |g'.e.passes|, g')
  {
    hide Steps;
    var g := Steps(limit, windowSec, g0, acts);
    StepsNext(limit, windowSec, g0, acts, Tick(lo - g.now));
    all := CheckAll(limit, windowSec, g0, acts + [Tick(lo - g.now)], u, |g.e.passes|);
  }

  /** A whole window at t; its attempts are checked at once if t lies in the interval. */
  lemma ServeWindow(limit: nat, windowSec: nat, g0: Gate, acts: seq<Action>, d: nat, lo: int, hi: int, skip: nat, u: nat, t: int)
    returns (all: seq<Action>)
    requires var g := Steps(limit, windowSec, g0, acts);
             && Pending(d, lo, hi, skip, u, g) && g.now <= t <= hi && lo - d <= t && limit >= 2
             && (lo <= t ==> u == |g.e.passes|)
             && (g.e.counter.Some? ==> g.e.counter.value.count >= 1 && g.e.counter.value.start + 1000 * windowSec < t)
    ensures var g := Steps(limit, windowSec, g0, acts);
            var g' := Steps(limit, windowSec, g0, all);
            && g'.now == t && |g'.e.passes| == |g.e.passes| + (limit - 1)
            && g'.e.counter == Some(Counter(limit - 1, t))
            && Pending(d, lo, hi, skip, if lo <= t then |g'.e.passes| else u, g')
  {
    hide Steps, Pending;
    var g := Steps(limit, windowSec, g0, acts);
    var ticked := acts + [Tick(t - g.now)];
    StepsNext(limit, windowSec, g0, acts, Tick(t - g.now));
    assert Steps(limit, windowSec, g0, ticked) == g.(now := t);
    var filled := Fill(limit, windowSec, g0, ticked, limit - 1);
    var f := Steps(limit, windowSec, g0, filled);
    PendingFilled(d, lo, hi, skip, u, g, f, t);
    if lo <= t {
      UncheckedSince(g, f, u);
      all := CheckAll(limit, windowSec, g0, filled, u, |f.e.passes|);
      PendingMarked(d, lo, hi, skip, u, f, Steps(limit, windowSec, g0, all), t);
    } else {
      all := filled;
    }
  }

  lemma UncheckedSince(g: Gate, f: Gate, u: nat)
    requires |g.e.passes| <= |f.e.passes| && Filled(g.(now := f.now), f, |f.e.passes| - |g.e.passes|) && u == |g.e.passes|
    ensures forall i | u <= i < |f.e.passes| :: f.e.passes[i].checkedAt.None? && f.e.passes[i].at == f.now
  {
  }

  lemma PendingFilled(d: nat, lo: int, hi: int, skip: nat, u: nat, g: Gate, f: Gate, t: int)
    requires Pending(d, lo, hi, skip, u, g) && g.now <= t == f.now && lo - d <= t
    requires |g.e.passes| <= |f.e.passes| && Filled(g.(now := t), f, |f.e.passes| - |g.e.passes|)
    ensures Pending(d, lo, hi, skip, u, f)
  {
  }

  lemma PendingMarked(d: nat, lo: int, hi: int, skip: nat, u: nat, f: Gate, g: Gate, t: int)
    requires Pending(d, lo, hi, skip, u, f) && Marked(f, g, u, |f.e.passes|) && f.now == t && lo <= t <= hi
    requires forall i | u <= i < |f.e.passes| :: f.e.passes[i].at == t
    ensures Pending(d, lo, hi, skip, |g.e.passes|, g)
  {
  }

  /** What the windows that can still begin from t on add. */
  lemma MostSplits(cap: nat, w: nat, length: int)
    requires cap >= 1 && length >= 0
    ensures Starts(w, length - 1) < Starts(w, length) ==> Most(cap, w, length) == cap * Starts(w, length)
    ensures Starts(w, length - 1) >= Starts(w, length) ==> Most(cap, w, length) == cap + cap * Starts(w, length - 1) - 1
  {
    StartsStep(w, length);
    hide Starts;
    assert cap * (1 + Starts(w, length)) == cap + cap * Starts(w, length);
  }

  /** Windows from base on, each filled at its beginning, each attempt checked as early as the interval allows. */
  lemma ServeAll(limit: nat, windowSec: nat, g0: Gate, acts: seq<Action>, d: nat, lo: int, hi: int, skip: nat, u0: nat, base: int)
    returns (all: seq<Action>)
    requires var g := Steps(limit, windowSec, g0, acts);
             && limit >= 2 && lo <= hi && lo - d <= base && g.now <= base
             && Pending(d, lo, hi, skip, u0, g) && (lo <= g.now ==> u0 == |g.e.passes|)
             && (g.e.counter.Some? ==> g.e.counter.value.count >= 1 && g.e.counter.value.start + 1000 * windowSec < base)
    ensures var g := Steps(limit, windowSec, g0, acts);
            var g' := Steps(limit, windowSec, g0, all);
            && Pending(d, lo, hi, skip, |g'.e.passes|, g')
            && |g'.e.passes| == |g.e.passes| + (limit - 1) * Starts(1000 * windowSec, hi - base)
  {
    hide Steps, Pending, Starts;
    var w := 1000 * windowSec;
    var g := Steps(limit, windowSec, g0, acts);
    var had := |g.e.passes|;
    var t := base;
    var u: nat := u0;
    all := acts;
    while t <= hi
      invariant g == Steps(limit, windowSec, g0, all)
      invariant Pending(d, lo, hi, skip, u, g) && g.now <= t && base <= t
      invariant g.now < lo || u == |g.e.passes|
      invariant g.e.counter.Some? ==> g.e.counter.value.count >= 1 && g.e.counter.value.start + w < t
      invariant |g.e.passes| + (limit - 1) * Starts(w, hi - t) == had + (limit - 1) * Starts(w, hi - base)
      decreases hi - t
    {
      StartsPeel(limit - 1, w, hi - t);
      if g.now < lo && lo <= t {
        all := CheckWaiting(limit, windowSec, g0, all, d, lo, hi, skip, u);
        g := Steps(limit, windowSec, g0, all);
        u := |g.e.passes|;
      }
      all := ServeWindow(limit, windowSec, g0, all, d, lo, hi, skip, u, t);
      g := Steps(limit, windowSec, g0, all);
      if lo <= t { u := |g.e.passes|; }
      assert hi - (t + (w + 1)) == hi - t - (w + 1);
      t := t + (w + 1);
    }
    StartsPeel(limit - 1, w, hi - t);
    if g.now < lo {
      all := CheckWaiting(limit, windowSec, g0, all, d, lo, hi, skip, u);
    }
  }

  lemma Arrived(limit: nat, windowSec: nat, now: int, d: nat, lo: int, hi: int)
    requires lo - d == now
    ensures Steps(limit, windowSec, Gate(now, EMPTY), []) == Gate(now, EMPTY) && Pending(d, lo, hi, 0, 0, Gate(now, EMPTY))
  {
  }

  /** One attempt opens a window before the interval; the others of its window come at the first instant that can count. */
  lemma OpenBefore(limit: nat, windowSec: nat, d: nat, lo: int, hi: int) returns (all: seq<Action>)
    requires limit >= 2
    ensures var w := 1000 * windowSec;
            var g := Steps(limit, windowSec, Gate(lo - d - w, EMPTY), all);
            && g.now == lo - d && |g.e.passes| == limit - 1 && Pending(d, lo, hi, 1, 1, g)
            && g.e.counter == Some(Counter(limit - 1, lo - d - w))
  {
    hide Steps;
    var w := 1000 * windowSec;
    var g0 := Gate(lo - d - w, EMPTY);
    StepsNone(limit, windowSec, g0);
    var one := Fill(limit, windowSec, g0, [], 1);
    StepsNext(limit, windowSec, g0, one, Tick(w));
    all := Fill(limit, windowSec, g0, one + [Tick(w)], limit - 2);
  }

  lemma StepsNone(limit: nat, windowSec: nat, g: Gate)
    ensures Steps(limit, windowSec, g, []) == g
  {
  }

  /** The bound is reached, for every limit, window, delay and interval. */
  lemma MostReached(limit: nat, windowSec: nat, d: nat, lo: int, hi: int) returns (now: int, acts: seq<Action>)
    requires lo <= hi
    ensures var g := Steps(limit, windowSec, Gate(now, EMPTY), acts);
            Prompt(d, g.e.passes) && Checks(g.e.passes, lo, hi) >= Most(PerWindow(limit), 1000 * windowSec, hi - lo + d)
  {
    var w := 1000 * windowSec;
    var length := hi - lo + d;
    if limit < 2 {
      now, acts := lo, [];
      return;
    }
    hide Steps, Pending, Starts, Most, Checks;
    MostSplits(limit - 1, w, length);
    if Starts(w, length - 1) < Starts(w, length) {
      now := lo - d;
      Arrived(limit, windowSec, now, d, lo, hi);
      acts := ServeAll(limit, windowSec, Gate(now, EMPTY), [], d, lo, hi, 0, 0, lo - d);
      assert hi - (lo - d) == length;
      ServedCount(d, lo, hi, 0, Steps(limit, windowSec, Gate(now, EMPTY), acts));
    } else {
      now := lo - d - w;
      var before := OpenBefore(limit, windowSec, d, lo, hi);
      var u: nat := 1;
      if d == 0 {
        before := CheckWaiting(limit, windowSec, Gate(now, EMPTY), before, d, lo, hi, 1, 1);
        u := limit - 1;
      }
      acts := ServeAll(limit, windowSec, Gate(now, EMPTY), before, d, lo, hi, 1, u, lo - d + 1);
      assert hi - (lo - d + 1) == length - 1;
      ServedCount(d, lo, hi, 1, Steps(limit, windowSec, Gate(now, EMPTY), acts));
    }
  }

  lemma ServedCount(d: nat, lo: int, hi: int, skip: nat, g: Gate)
    requires Pending(d, lo, hi, skip, |g.e.passes|, g)
    ensures Prompt(d, g.e.passes) && Checks(g.e.passes, lo, hi) >= |g.e.passes| - skip
  {
    AllChecked(g.e.passes, skip, lo, hi);
  }
}
