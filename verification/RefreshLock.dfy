/**
 The refresh-token lock (withRefreshTokenLock of
 internal/auth/service/auth_session.go): SETNX with a 30 s expiry around the
 rotation, an unconditional DEL afterwards, and a polling loop in front.

 Mutual exclusion is a claim about all interleavings of the store operations;
 the loop is a method whose attempts an oracle answers.
 */
module RefreshLock {

  const TTL_MS := 30_000
  const WAIT_NS := 5_000_000_000
  const POLL_NS := 25_000_000

  // ----- the interleaved store operations -----

  /** A caller between its SETNX and its DEL: which key, since when, and whether fn still runs. */
  datatype Holder = Holder(key: string, since: int, running: bool)

  datatype State = State(now: int, locks: map<string, int>, holders: map<nat, Holder>)

  const INIT := State(0, map[], map[])

  predicate Locked(s: State, key: string) {
    key in s.locks && s.now <= s.locks[key]
  }

  /** TryUnheard: the SETNX took effect but its reply was lost, so the caller gives up.  Finish: fn returns. */
  datatype Action =
    | Tick(ms: nat)
    | Try(caller: nat, key: string)
    | TryUnheard(key: string)
    | Finish(caller: nat)
    | Release(caller: nat, deleted: bool)

  function Step(s: State, a: Action): State {
    match a
    case Tick(ms) => s.(now := s.now + ms)
    case Try(c, key) =>
      if c in s.holders || Locked(s, key) then s
      else s.(locks := s.locks[key := s.now + TTL_MS], holders := s.holders[c := Holder(key, s.now, true)])
    case TryUnheard(key) =>
      if Locked(s, key) then s else s.(locks := s.locks[key := s.now + TTL_MS])
    case Finish(c) =>
      if c !in s.holders then s else s.(holders := s.holders[c := s.holders[c].(running := false)])
    case Release(c, deleted) =>
      if c !in s.holders || s.holders[c].running then s
      else s.(locks := if deleted then s.locks - {s.holders[c].key} else s.locks, holders := s.holders - {c})
  }

  function Run(acts: seq<Action>): State {
    if acts == [] then INIT else Step(Run(acts[..|acts| - 1]), acts[|acts| - 1])
  }

  predicate Inside(s: State, c: nat) {
    c in s.holders && s.holders[c].running
  }

  /** Nobody between SETNX and DEL has outlived the expiry of the lock it took. */
  predicate Punctual(s: State) {
    forall c | c in s.holders :: s.now <= s.holders[c].since + TTL_MS
  }

  predicate AlwaysPunctual(acts: seq<Action>) {
    forall n | 0 <= n <= |acts| :: Punctual(Run(acts[..n]))
  }

  predicate Exclusive(s: State) {
    forall c, d | c in s.holders && d in s.holders && s.holders[c].key == s.holders[d].key :: c == d
  }

  /** Every holder still owns the lock entry it made. */
  predicate Owned(s: State) {
    forall c | c in s.holders :: s.holders[c].key in s.locks && s.locks[s.holders[c].key] == s.holders[c].since + TTL_MS
  }

  lemma StepKeepsOwned(s: State, a: Action)
    requires Owned(s) && Exclusive(s) && Punctual(s)
    ensures Owned(Step(s, a)) && Exclusive(Step(s, a))
  {
  }

  lemma {:induction false} PunctualRunOwned(acts: seq<Action>)
    requires AlwaysPunctual(acts)
    ensures Owned(Run(acts)) && Exclusive(Run(acts))
  {
    if acts != [] {
      var last := |acts| - 1;
      assert forall n | 0 <= n <= last :: acts[..last][..n] == acts[..n];
      PunctualRunOwned(acts[..last]);
      assert Punctual(Run(acts[..last]));
      StepKeepsOwned(Run(acts[..last]), acts[last]);
    }
  }

  /** If every holder's DEL comes within 30 s of its SETNX, at most one caller per key is inside. */
  lemma AtMostOneInside(acts: seq<Action>, c: nat, d: nat)
    requires AlwaysPunctual(acts)
    requires Inside(Run(acts), c) && Inside(Run(acts), d) && Run(acts).holders[c].key == Run(acts).holders[d].key
    ensures c == d
  {
    PunctualRunOwned(acts);
  }

  /**
   The guarantee lasts exactly as long as the expiry: after a run in which
   everyone has been in time, another caller gets in beside c at the next
   instant it tries if and only if c has by then been inside for more than 30 s.
   */
  lemma OverrunLetsOthersIn(acts: seq<Action>, wait: nat, c: nat, d: nat)
    requires AlwaysPunctual(acts) && Inside(Run(acts), c) && d !in Run(acts).holders
    ensures var s := Run(acts);
            var s' := Step(Step(s, Tick(wait)), Try(d, s.holders[c].key));
            (Inside(s', d) <==> s.now + wait > s.holders[c].since + TTL_MS)
            && (Inside(s', d) ==> Inside(s', c) && s'.holders[c].key == s'.holders[d].key)
  {
    PunctualRunOwned(acts);
  }

  function AfterLateRelease(s: State, wait: nat, c: nat, d: nat, e: nat): State
    requires c in s.holders
  {
    var key := s.holders[c].key;
    Step(Step(Step(Step(s, Tick(wait)), Try(d, key)), Release(c, true)), Try(e, key))
  }

  /**
   It is the DEL that has to be in time, not fn: c has finished within its 30 s,
   yet two callers get in together, both in time, if and only if its DEL comes later.
   */
  lemma LateReleaseExact(acts: seq<Action>, wait: nat, c: nat, d: nat, e: nat)
    requires AlwaysPunctual(acts) && c in Run(acts).holders && !Inside(Run(acts), c)
    requires d !in Run(acts).holders && e !in Run(acts).holders && d != e
    ensures var s := Run(acts);
            var s' := AfterLateRelease(s, wait, c, d, e);
            && (Inside(s', d) && Inside(s', e) <==> s.now + wait > s.holders[c].since + TTL_MS)
            && (Inside(s', d) && Inside(s', e) ==> s'.holders[d] == s'.holders[e] && s'.holders[d].since == s'.now)
  {
    hide Run;
    PunctualRunOwned(acts);
    hide AlwaysPunctual;
    var s := Run(acts);
    var h := s.holders[c];
    var s1 := Step(s, Tick(wait));
    var s2 := Step(s1, Try(d, h.key));
    if s.now + wait > h.since + TTL_MS {
      assert s2.holders == s.holders[d := Holder(h.key, s1.now, true)];
      assert Step(s2, Release(c, true)).locks == s2.locks - {h.key};
    } else {
      assert s2 == s1;
      assert d !in Step(s2, Release(c, true)).holders;
    }
  }

  // ----- the polling loop -----

  datatype Reply = Acquired | Busy | Broken

  /** One turn of the loop: what SETNX said, the clock afterwards, and whether the wait was cancelled. */
  datatype Attempt = Attempt(reply: Reply, at: int, cancelled: bool)

  datatype Outcome = RanUnlocked | RanLocked | TimedOut | Failed | Cancelled

  /** The wait between two attempts lasts at least one poll interval. */
  ghost predicate Waits(tries: nat -> Attempt, start: int) {
    && tries(0).at >= start
    && forall i: nat :: tries(i + 1).at >= tries(i).at + POLL_NS
  }

  predicate GoesOn(a: Attempt, start: int) {
    a.reply.Busy? && a.at <= start + WAIT_NS && !a.cancelled
  }

  function EndOf(a: Attempt, start: int): Outcome {
    match a.reply
    case Broken => Failed
    case Acquired => RanLocked
    case Busy => if a.at > start + WAIT_NS then TimedOut else Cancelled
  }

  lemma {:induction false} AttemptTime(tries: nat -> Attempt, start: int, i: nat)
    requires Waits(tries, start)
    ensures tries(i).at >= start + i * POLL_NS
  {
    if i > 0 {
      AttemptTime(tries, start, i - 1);
      assert tries((i - 1) + 1).at >= tries(i - 1).at + POLL_NS;
    }
  }

  /** n counts the SETNX calls; the last of them decides, all before it went on; never more than 202. */
  method WithLock(hasRedis: bool, token: string, tries: nat -> Attempt, start: int) returns (n: nat, outcome: Outcome)
    requires Waits(tries, start)
    ensures outcome == RanUnlocked <==> !hasRedis || token == ""
    ensures n == 0 <==> outcome == RanUnlocked
    ensures forall i: nat | i + 1 < n :: GoesOn(tries(i), start)
    ensures n > 0 ==> !GoesOn(tries(n - 1), start) && outcome == EndOf(tries(n - 1), start)
    ensures n <= 202
  {
    if !hasRedis || token == "" { return 0, RanUnlocked; }
    n := 0;
    while true
      invariant forall i: nat | i < n :: GoesOn(tries(i), start)
      invariant n <= 201
      decreases 201 - n
    {
      var a := tries(n);
      AttemptTime(tries, start, n);
      n := n + 1;
      if a.reply.Broken? { return n, Failed; }
      if a.reply.Acquired? { return n, RanLocked; }
      if a.at > start + WAIT_NS { return n, TimedOut; }
      if a.cancelled { return n, Cancelled; }
    }
  }

  function Prompt(start: int): nat -> Attempt {
    (i: nat) => Attempt(Busy, start + i * POLL_NS, false)
  }

  /** With a lock that stays busy and waits of exactly one interval the bound is reached. */
  lemma AllAttemptsUsed(start: int)
    ensures Waits(Prompt(start), start)
    ensures forall i: nat | i < 201 :: GoesOn(Prompt(start)(i), start)
    ensures !GoesOn(Prompt(start)(201), start)
  {
    assert forall i: nat :: Prompt(start)(i).at == start + i * POLL_NS;
  }
}
