/**
 The consent cache (internal/oauth2/service/consent_service.go): a write-through
 Redis cache in front of the consents table, whose every operation can fail,
 before or after it took effect.
 */
module ConsentCache {
  import opened Common

  const CONSENT_TTL_MS := 7_776_000_000
  const FALLBACK_TTL_MS := 300_000

  datatype Key = Key(account: string, clientId: string)

  /** A cached consent, the marker of a revoked one, or bytes that do not parse. */
  datatype Body = Positive(scopes: seq<string>) | Tombstone | Garbage
  datatype Entry = Entry(body: Body, expireAt: int)

  datatype State = State(now: int, db: map<Key, seq<string>>, cache: map<Key, Entry>)

  /** A cache write: done, reported failed although done, or failed. */
  datatype Write = Done | DoneButReported | Lost

  datatype Reply = Found(scopes: seq<string>) | NotFound | Failed

  predicate Live(s: State, k: Key) {
    k in s.cache && s.now <= s.cache[k].expireAt
  }

  function DbReply(s: State, k: Key): Reply {
    if k in s.db then Found(s.db[k]) else NotFound
  }

  /** A cache SET whose effect depends on the outcome. */
  function Put(s: State, k: Key, body: Body, ttl: nat, w: Write): State {
    if w.Lost? then s else s.(cache := s.cache[k := Entry(body, s.now + ttl)])
  }

  function Drop(s: State, keys: set<Key>, w: Write): State {
    if w.Lost? then s else s.(cache := s.cache - keys)
  }

  function Get(s: State, k: Key, readOk: bool, dbOk: bool, back: Write): (State, Reply) {
    if readOk && Live(s, k) && s.cache[k].body.Positive? then (s, Found(s.cache[k].body.scopes))
    else if !dbOk then (s, Failed)
    else if k !in s.db then (s, NotFound)
    else (Put(s, k, Positive(s.db[k]), CONSENT_TTL_MS, back), Found(s.db[k]))
  }

  function Save(s: State, k: Key, scopes: seq<string>, c: Commit, first: Write, fallback: Write): State {
    if c.RolledBack? then s
    else
      var s1 := s.(db := s.db[k := scopes]);
      if c.CommitUnconfirmed? then s1
      else
        var s2 := Put(s1, k, Positive(scopes), CONSENT_TTL_MS, first);
        if first.Done? then s2 else Put(s2, k, Positive(scopes), FALLBACK_TTL_MS, fallback)
  }

  /** Soft delete; without a row the call ends before the cache. */
  function Delete(s: State, k: Key, c: Commit, first: Write, fallback: Write): State {
    if c.RolledBack? || k !in s.db then s
    else
      var s1 := s.(db := s.db - {k});
      if c.CommitUnconfirmed? then s1
      else
        var s2 := Drop(s1, {k}, first);
        if first.Done? then s2 else Put(s2, k, Tombstone, FALLBACK_TTL_MS, fallback)
  }

  datatype Action =
    | AGet(k: Key, readOk: bool, dbOk: bool, back: Write)
    | ASave(k: Key, scopes: seq<string>, c: Commit, first: Write, fallback: Write)
    | ADelete(k: Key, c: Commit, first: Write, fallback: Write)
    | AEvict(keys: set<Key>)
    | ACorrupt(k: Key)
    | ATick(ms: nat)

  function Step(s: State, a: Action): State {
    match a
    case AGet(k, readOk, dbOk, back) => Get(s, k, readOk, dbOk, back).0
    case ASave(k, scopes, c, first, fallback) => Save(s, k, scopes, c, first, fallback)
    case ADelete(k, c, first, fallback) => Delete(s, k, c, first, fallback)
    case AEvict(keys) => s.(cache := s.cache - keys)
    case ACorrupt(k) => if k in s.cache then s.(cache := s.cache[k := s.cache[k].(body := Garbage)]) else s
    case ATick(ms) => s.(now := s.now + ms)
  }

  function Run(s: State, acts: seq<Action>): State {
    if acts == [] then s else Step(Run(s, acts[..|acts| - 1]), acts[|acts| - 1])
  }

  // ----- agreement with the database -----

  predicate Agrees(s: State, k: Key) {
    Live(s, k) && s.cache[k].body.Positive? ==> k in s.db && s.db[k] == s.cache[k].body.scopes
  }

  predicate Coherent(s: State) {
    forall k | k in s.cache :: Agrees(s, k)
  }

  /** The change of the database never reaches the cache. */
  predicate CacheMissed(c: Commit, first: Write, fallback: Write) {
    c.CommitUnconfirmed? || (c.Committed? && first.Lost? && fallback.Lost?)
  }

  /** A step that leaves a stale consent behind, told from its outcomes and what is cached. */
  predicate LeavesStale(s: State, a: Action) {
    match a
    case ASave(k, scopes, c, first, fallback) =>
      CacheMissed(c, first, fallback) && Live(s, k) && s.cache[k].body.Positive? && s.cache[k].body.scopes != scopes
    case ADelete(k, c, first, fallback) =>
      CacheMissed(c, first, fallback) && k in s.db && Live(s, k) && s.cache[k].body.Positive?
    case _ => false
  }

  lemma SaveExact(s: State, k: Key, scopes: seq<string>, c: Commit, first: Write, fallback: Write)
    requires Coherent(s)
    ensures Coherent(Save(s, k, scopes, c, first, fallback)) <==> !LeavesStale(s, ASave(k, scopes, c, first, fallback))
  {
    var s' := Save(s, k, scopes, c, first, fallback);
    assert forall j | j in s'.cache && j != k :: j in s.cache && Agrees(s, j) && Agrees(s', j);
    assert k in s'.cache ==> (Agrees(s', k) <==> !LeavesStale(s, ASave(k, scopes, c, first, fallback)));
  }

  lemma DeleteExact(s: State, k: Key, c: Commit, first: Write, fallback: Write)
    requires Coherent(s)
    ensures Coherent(Delete(s, k, c, first, fallback)) <==> !LeavesStale(s, ADelete(k, c, first, fallback))
  {
    var s' := Delete(s, k, c, first, fallback);
    assert forall j | j in s'.cache && j != k :: j in s.cache && Agrees(s, j) && Agrees(s', j);
    assert k in s'.cache ==> (Agrees(s', k) <==> !LeavesStale(s, ADelete(k, c, first, fallback)));
  }

  /** One step keeps cache and database in agreement exactly when it is not such a step. */
  lemma CoherenceExact(s: State, a: Action)
    requires Coherent(s)
    ensures Coherent(Step(s, a)) <==> !LeavesStale(s, a)
  {
    match a
    case ASave(k, scopes, c, first, fallback) => SaveExact(s, k, scopes, c, first, fallback);
    case ADelete(k, c, first, fallback) => DeleteExact(s, k, c, first, fallback);
    case _ =>
      var s' := Step(s, a);
      forall j | j in s'.cache ensures Agrees(s', j) {
        if j in s.cache { assert Agrees(s, j); }
      }
  }

  predicate NeverStale(s: State, acts: seq<Action>) {
    forall n | 0 <= n < |acts| :: !LeavesStale(Run(s, acts[..n]), acts[n])
  }

  lemma {:induction false} RunCoherent(s: State, acts: seq<Action>)
    requires Coherent(s) && NeverStale(s, acts)
    ensures Coherent(Run(s, acts))
  {
    if acts != [] {
      var last := |acts| - 1;
      hide Step, Coherent, LeavesStale;
      assert forall n | 0 <= n < last :: acts[..last][..n] == acts[..n] && acts[..last][n] == acts[n];
      assert NeverStale(s, acts[..last]);
      RunCoherent(s, acts[..last]);
      CoherenceExact(Run(s, acts[..last]), acts[last]);
    }
  }

  /** A read in a coherent state answers what the database holds, whatever fails on the way. */
  lemma ReadsAgree(s: State, acts: seq<Action>, k: Key, readOk: bool, dbOk: bool, back: Write)
    requires Coherent(s) && NeverStale(s, acts)
    ensures var (_, r) := Get(Run(s, acts), k, readOk, dbOk, back);
            r == Failed || r == DbReply(Run(s, acts), k)
  {
    RunCoherent(s, acts);
    assert k in Run(s, acts).cache ==> Agrees(Run(s, acts), k);
  }

  /** Outcomes in which no write pair is lost and every commit is confirmed: coherent in every sequential run. */
  predicate Reported(a: Action) {
    match a
    case ASave(_, _, c, first, fallback) => !CacheMissed(c, first, fallback)
    case ADelete(_, c, first, fallback) => !CacheMissed(c, first, fallback)
    case _ => true
  }

  lemma ReportedRunsAgree(s: State, acts: seq<Action>, k: Key, readOk: bool, dbOk: bool, back: Write)
    requires Coherent(s) && forall n | 0 <= n < |acts| :: Reported(acts[n])
    ensures var (_, r) := Get(Run(s, acts), k, readOk, dbOk, back);
            r == Failed || r == DbReply(Run(s, acts), k)
  {
    assert NeverStale(s, acts) by {
      hide Run;
      assert forall n | 0 <= n < |acts| :: Reported(acts[n]);
    }
    ReadsAgree(s, acts, k, readOk, dbOk, back);
  }

  // ----- when it fails -----

  /** A stale consent is gone when its entry expires, 90 days after it was written at the latest. */
  ghost predicate Bounded(s: State) {
    forall k | k in s.cache :: s.cache[k].expireAt <= s.now + CONSENT_TTL_MS
  }

  lemma StepKeepsBounded(s: State, a: Action)
    requires Bounded(s)
    ensures Bounded(Step(s, a))
  {
  }

  lemma {:induction false} EntriesExpire(s: State, acts: seq<Action>)
    requires Bounded(s)
    ensures Bounded(Run(s, acts))
  {
    if acts != [] {
      hide Bounded, Step;
      EntriesExpire(s, acts[..|acts| - 1]);
      StepKeepsBounded(Run(s, acts[..|acts| - 1]), acts[|acts| - 1]);
    }
  }

  // ----- removing an account's entries -----

  const MAX_SCANS := 1000

  /** One SCAN reply and what became of the DEL of its keys. */
  datatype Page = Page(keys: set<Key>, scanned: bool, del: Write)

  /** The loop stops at a failed SCAN, at the end of the cursor, or after MAX_SCANS replies. */
  function Sweeps(pages: seq<Page>): (n: nat)
    ensures n <= |pages| && n <= MAX_SCANS
    ensures forall i | 0 <= i < n :: pages[i].scanned
    ensures n < |pages| && n < MAX_SCANS ==> !pages[n].scanned
  {
    if pages == [] then 0
    else
      var m := Sweeps(pages[..|pages| - 1]);
      if m == |pages| - 1 && m < MAX_SCANS && pages[m].scanned then m + 1 else m
  }

  function Sweep(s: State, pages: seq<Page>): State {
    if pages == [] then s
    else Drop(Sweep(s, pages[..|pages| - 1]), pages[|pages| - 1].keys, pages[|pages| - 1].del)
  }

  /** Entries only leave, so agreement survives a sweep that fails anywhere; deleted pages are gone. */
  lemma {:induction false} SweepRemoves(s: State, pages: seq<Page>)
    ensures var s' := Sweep(s, pages);
            && s'.db == s.db && s'.now == s.now
            && (forall k | k in s'.cache :: k in s.cache && s'.cache[k] == s.cache[k])
            && (forall i, k | 0 <= i < |pages| && !pages[i].del.Lost? && k in pages[i].keys :: k !in s'.cache)
            && (Coherent(s) ==> Coherent(s'))
  {
    if pages != [] {
      hide Coherent;
      SweepRemoves(s, pages[..|pages| - 1]);
      CoherentStep(Sweep(s, pages[..|pages| - 1]), AEvict(pages[|pages| - 1].keys));
    }
  }

  // ----- the service -----

  class ConsentService {
    var st: State

    constructor (s: State)
      ensures st == s
    {
      st := s;
    }

    method RedisSet(k: Key, body: Body, ttl: nat, w: Write) returns (ok: bool)
      modifies this
      ensures st == Put(old(st), k, body, ttl, w) && (ok <==> w.Done?)
    {
      if !w.Lost? { st := st.(cache := st.cache[k := Entry(body, st.now + ttl)]); }
      return w.Done?;
    }

    method GetConsent(k: Key, readOk: bool, dbOk: bool, back: Write) returns (r: Reply)
      modifies this
      ensures (st, r) == Get(old(st), k, readOk, dbOk, back)
      ensures Coherent(old(st)) ==> Coherent(st) && (r == Failed || r == DbReply(st, k))
    {
      ghost var s := st;
      CoherentStep(s, AGet(k, readOk, dbOk, back));
      assert Coherent(s) && k in s.cache ==> Agrees(s, k);
      hide Coherent;
      if readOk && k in st.cache && st.now <= st.cache[k].expireAt {
        var body := st.cache[k].body;
        if body.Positive? { return Found(body.scopes); }
      }
      if !dbOk { return Failed; }
      if k !in st.db { return NotFound; }
      r := Found(st.db[k]);
      var _ := RedisSet(k, Positive(st.db[k]), CONSENT_TTL_MS, back);
    }

    method SaveConsent(k: Key, scopes: seq<string>, c: Commit, first: Write, fallback: Write) returns (ok: bool)
      modifies this
      ensures st == Save(old(st), k, scopes, c, first, fallback) && (ok <==> c.Committed?)
      ensures Coherent(old(st)) ==> (Coherent(st) <==> !LeavesStale(old(st), ASave(k, scopes, c, first, fallback)))
    {
      CoherentStep(st, ASave(k, scopes, c, first, fallback));
      hide Coherent, LeavesStale;
      if c.RolledBack? { return false; }
      st := st.(db := st.db[k := scopes]);
      if c.CommitUnconfirmed? { return false; }
      var written := RedisSet(k, Positive(scopes), CONSENT_TTL_MS, first);
      if !written { var _ := RedisSet(k, Positive(scopes), FALLBACK_TTL_MS, fallback); }
      return true;
    }

    method DeleteConsent(k: Key, c: Commit, first: Write, fallback: Write) returns (ok: bool)
      modifies this
      ensures st == Delete(old(st), k, c, first, fallback) && (ok <==> c.Committed? && k in old(st).db)
      ensures Coherent(old(st)) ==> (Coherent(st) <==> !LeavesStale(old(st), ADelete(k, c, first, fallback)))
    {
      CoherentStep(st, ADelete(k, c, first, fallback));
      hide Coherent, LeavesStale;
      if c.RolledBack? || k !in st.db { return false; }
      st := st.(db := st.db - {k});
      if c.CommitUnconfirmed? { return false; }
      st := Drop(st, {k}, first);
      if !first.Done? { var _ := RedisSet(k, Tombstone, FALLBACK_TTL_MS, fallback); }
      return true;
    }

    /** After a sweep that saw every reply and lost no DEL, nothing of the account is cached. */
    method DeleteConsentsByAccount(account: string, pages: seq<Page>) returns (ok: bool)
      requires forall i, k | 0 <= i < |pages| && k in pages[i].keys :: k.account == account
      modifies this
      ensures st == Sweep(old(st), pages[..Sweeps(pages)])
      ensures ok <==> Sweeps(pages) == |pages| || Sweeps(pages) == MAX_SCANS
      ensures Coherent(old(st)) ==> Coherent(st)
      ensures forall i, k | 0 <= i < Sweeps(pages) && !pages[i].del.Lost? && k in pages[i].keys :: k !in st.cache
      ensures forall k | k in old(st).cache && k.account != account :: k in st.cache && st.cache[k] == old(st).cache[k]
    {
      ghost var s := st;
      var i := 0;
      ok := true;
      while i < |pages| && i < MAX_SCANS
        invariant i <= |pages| && i <= MAX_SCANS
        invariant st == Sweep(s, pages[..i])
        invariant forall j | 0 <= j < i :: pages[j].scanned
        invariant forall k | k in s.cache && k.account != account :: k in st.cache && st.cache[k] == s.cache[k]
      {
        if !pages[i].scanned { ok := false; break; }
        assert pages[..i + 1][..i] == pages[..i];
        if pages[i].keys != {} { st := Drop(st, pages[i].keys, pages[i].del); }
        assert st.cache == Sweep(s, pages[..i + 1]).cache;
        i := i + 1;
      }
      assert i == Sweeps(pages);
      SweepRemoves(s, pages[..i]);
    }
  }

  lemma CoherentStep(s: State, a: Action)
    ensures Coherent(s) ==> (Coherent(Step(s, a)) <==> !LeavesStale(s, a))
  {
    if Coherent(s) { CoherenceExact(s, a); }
  }
}
