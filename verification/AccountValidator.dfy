/**
 The account-status cache in front of the account service
 (accountValidatorAdapter of cmd/gosso/web_modules.go): a TTL map with a
 separately kept size counter, a cap, and a periodic sweep.
 */
module AccountValidator {

  const CLEANUP_INTERVAL_NS := 30_000_000_000
  const MAX_SIZE := 1024

  /** What FindAccountByID came back with. */
  datatype Lookup = Known(active: bool) | Missing | Failed

  /** `from` and `storedAt` record which call stored the entry, and when. */
  datatype Entry = Entry(active: bool, expiresAt: int, from: nat, storedAt: int)

  /** leaked counts evictions the size counter never learnt of. */
  datatype Cache = Cache(entries: map<string, Entry>, size: int, lastCleanup: int, leaked: nat)

  /** One IsAccountActive: the clock at its start and after the lookup. */
  datatype Call = Call(id: string, start: int, end: int, lookup: Lookup)

  function New(now: int): Cache {
    Cache(map[], 0, now, 0)
  }

  // ----- the parts of a call -----

  function Unexpired(entries: map<string, Entry>, now: int): (r: map<string, Entry>)
    ensures forall k :: k in r <==> k in entries && now <= entries[k].expiresAt
    ensures forall k | k in r :: r[k] == entries[k]
  {
    map k | k in entries && now <= entries[k].expiresAt :: entries[k]
  }

  function Cleaned(c: Cache, now: int): Cache {
    if now - c.lastCleanup <= CLEANUP_INTERVAL_NS then c
    else
      var kept := Unexpired(c.entries, now);
      c.(entries := kept, size := c.size - (|c.entries| - |kept|), lastCleanup := now)
  }

  predicate Hit(c: Cache, id: string, now: int) {
    id in c.entries && now < c.entries[id].expiresAt
  }

  /** Sweep if due, then evict the account's own expired entry. */
  function Probe(c: Cache, id: string, now: int): Cache {
    var d := Cleaned(c, now);
    if Hit(d, id, now) then d else d.(entries := d.entries - {id})
  }

  predicate Replacing(c: Cache, id: string, now: int) {
    var d := Cleaned(c, now);
    id in d.entries && !Hit(d, id, now)
  }

  function Answer(l: Lookup): bool {
    l.Known? && l.active
  }

  predicate MayStore(c: Cache, replacing: bool) {
    replacing || c.size < MAX_SIZE
  }

  function Put(c: Cache, ttl: nat, n: nat, call: Call, replacing: bool): Cache {
    c.(entries := c.entries[call.id := Entry(Answer(call.lookup), call.end + ttl, n, call.end)],
       size := c.size + if replacing then 0 else 1)
  }

  /** After the lookup: store unless it failed or the cache is full. */
  function Store(c: Cache, ttl: nat, n: nat, call: Call, replacing: bool): Cache {
    if call.lookup.Failed? then c.(leaked := c.leaked + if replacing then 1 else 0)
    else if MayStore(c, replacing) then Put(c, ttl, n, call, replacing)
    else c
  }

  function IsAccountActive(c: Cache, ttl: nat, n: nat, call: Call): (Cache, bool) {
    var d := Probe(c, call.id, call.start);
    if Hit(d, call.id, call.start) then (d, d.entries[call.id].active)
    else (Store(d, ttl, n, call, Replacing(c, call.id, call.start)), Answer(call.lookup))
  }

  function Run(ttl: nat, now: int, calls: seq<Call>): Cache {
    if calls == [] then New(now)
    else IsAccountActive(Run(ttl, now, calls[..|calls| - 1]), ttl, |calls| - 1, calls[|calls| - 1]).0
  }

  // ----- the size counter -----

  ghost predicate Counted(c: Cache) {
    c.size == |c.entries| + c.leaked && c.size <= MAX_SIZE
  }

  lemma SizeWithout(m: map<string, Entry>, k: string)
    ensures |m - {k}| == |m| - if k in m then 1 else 0
  {
    assert (m - {k}).Keys == m.Keys - {k};
    assert |m| == |m.Keys| && |m - {k}| == |(m - {k}).Keys|;
  }

  lemma SizeWith(m: map<string, Entry>, k: string, e: Entry)
    ensures |m[k := e]| == |m| + if k in m then 0 else 1
  {
    assert m[k := e].Keys == m.Keys + {k};
    assert |m| == |m.Keys| && |m[k := e]| == |m[k := e].Keys|;
  }

  lemma SizeSubset(a: set<string>, b: set<string>)
    requires a <= b
    ensures |a| <= |b|
  {
    assert b == a + (b - a) && |b| == |a| + |b - a|;
  }

  lemma CleanedCounted(c: Cache, now: int)
    requires Counted(c)
    ensures Counted(Cleaned(c, now)) && Cleaned(c, now).leaked == c.leaked
  {
    var kept := Unexpired(c.entries, now);
    assert |kept| == |kept.Keys| && |c.entries| == |c.entries.Keys|;
    SizeSubset(kept.Keys, c.entries.Keys);
  }

  /** The counter is off by exactly the evictions before a failed lookup. */
  lemma CallKeepsCounted(c: Cache, ttl: nat, n: nat, call: Call)
    requires Counted(c)
    ensures var c' := IsAccountActive(c, ttl, n, call).0;
            Counted(c')
            && c'.leaked == c.leaked + if call.lookup.Failed? && Replacing(c, call.id, call.start) then 1 else 0
  {
    var d := Cleaned(c, call.start);
    CleanedCounted(c, call.start);
    hide Cleaned;
    SizeWithout(d.entries, call.id);
    var p := Probe(c, call.id, call.start);
    SizeWith(p.entries, call.id, Entry(Answer(call.lookup), call.end + ttl, n, call.end));
  }

  lemma {:induction false} RunCounted(ttl: nat, now: int, calls: seq<Call>)
    ensures Counted(Run(ttl, now, calls))
  {
    if calls != [] {
      hide IsAccountActive, Counted;
      RunCounted(ttl, now, calls[..|calls| - 1]);
      CallKeepsCounted(Run(ttl, now, calls[..|calls| - 1]), ttl, |calls| - 1, calls[|calls| - 1]);
    } else {
      assert |New(now).entries| == 0;
    }
  }

  /** In every serial run the counter never understates the entries and never passes the cap. */
  lemma SizeBounds(ttl: nat, now: int, calls: seq<Call>)
    ensures var c := Run(ttl, now, calls);
            && |c.entries| <= c.size <= MAX_SIZE
            && (c.size == |c.entries| <==> c.leaked == 0)
  {
    hide Run;
    RunCounted(ttl, now, calls);
  }

  /** Once everything has leaked the cache stays empty for good, and every answer is a fresh lookup. */
  lemma SaturatedStaysEmpty(c: Cache, ttl: nat, n: nat, call: Call)
    requires Counted(c) && c.leaked == MAX_SIZE
    ensures var (c', answer) := IsAccountActive(c, ttl, n, call);
            c'.entries == map[] && c'.leaked == MAX_SIZE && answer == Answer(call.lookup)
  {
    assert |c.entries| == 0;
    assert c.entries == map[];
    assert Unexpired(map[], call.start) == map[];
  }

  // ----- what a cached answer is -----

  ghost predicate EntryTrue(ttl: nat, calls: seq<Call>, id: string, e: Entry) {
    && e.from < |calls|
    && var m := calls[e.from];
       m.id == id && !m.lookup.Failed? && e.active == Answer(m.lookup) && e.storedAt == m.end && e.expiresAt == m.end + ttl
  }

  ghost predicate EntriesTrue(ttl: nat, calls: seq<Call>, c: Cache) {
    forall id | id in c.entries :: EntryTrue(ttl, calls, id, c.entries[id])
  }

  /** An entry after a call was there before, or is the call's own. */
  lemma EntriesComeFrom(c: Cache, ttl: nat, n: nat, call: Call, id: string)
    requires id in IsAccountActive(c, ttl, n, call).0.entries
    ensures var e := IsAccountActive(c, ttl, n, call).0.entries[id];
            || (id in c.entries && e == c.entries[id])
            || (id == call.id && !call.lookup.Failed? && e == Entry(Answer(call.lookup), call.end + ttl, n, call.end))
  {
    hide Unexpired;
    var d := Cleaned(c, call.start);
    assert forall k | k in d.entries :: k in c.entries && d.entries[k] == c.entries[k];
    hide Cleaned;
  }

  lemma CallKeepsTrue(ttl: nat, calls: seq<Call>, c: Cache, call: Call)
    requires EntriesTrue(ttl, calls, c)
    ensures EntriesTrue(ttl, calls + [call], IsAccountActive(c, ttl, |calls|, call).0)
  {
    hide IsAccountActive;
    var c' := IsAccountActive(c, ttl, |calls|, call).0;
    forall id | id in c'.entries ensures EntryTrue(ttl, calls + [call], id, c'.entries[id]) {
      EntriesComeFrom(c, ttl, |calls|, call, id);
      if id in c.entries && c'.entries[id] == c.entries[id] {
        assert EntryTrue(ttl, calls, id, c.entries[id]);
      }
    }
  }

  lemma {:induction false} RunEntriesTrue(ttl: nat, now: int, calls: seq<Call>)
    ensures EntriesTrue(ttl, calls, Run(ttl, now, calls))
  {
    if calls == [] {
      assert New(now).entries == map[];
    } else {
      hide IsAccountActive, EntriesTrue, Run;
      var before, call := calls[..|calls| - 1], calls[|calls| - 1];
      assert before + [call] == calls;
      RunEntriesTrue(ttl, now, before);
      RunSnoc(ttl, now, before, call);
      CallKeepsTrue(ttl, before, Run(ttl, now, before), call);
    }
  }

  /**
   Every answer is the call's own lookup, or what the lookup of an earlier call
   for the same account returned, stored less than the TTL before.
   */
  lemma AnswersAreLookups(ttl: nat, now: int, calls: seq<Call>, call: Call) returns (m: nat)
    ensures var answer := IsAccountActive(Run(ttl, now, calls), ttl, |calls|, call).1;
            || answer == Answer(call.lookup)
            || (m < |calls| && calls[m].id == call.id && !calls[m].lookup.Failed?
                && answer == Answer(calls[m].lookup) && call.start - calls[m].end < ttl)
  {
    m := 0;
    RunEntriesTrue(ttl, now, calls);
    var c := Run(ttl, now, calls);
    if call.id in c.entries {
      assert EntryTrue(ttl, calls, call.id, c.entries[call.id]);
      m := c.entries[call.id].from;
    }
  }

  // ----- the adapter -----

  class Adapter {
    const ttl: nat
    var cache: map<string, Entry>
    var cacheSize: int
    var lastCleanup: int
    var served: nat
    ghost var leaked: nat
    ghost var calls: seq<Call>
    ghost const began: int

    ghost function Value(): Cache
      reads this
    {
      Cache(cache, cacheSize, lastCleanup, leaked)
    }

    ghost predicate Valid()
      reads this
    {
      Value() == Run(ttl, began, calls) && served == |calls|
    }

    constructor (ttl: nat, now: int)
      ensures Valid() && this.ttl == ttl && calls == []
    {
      this.ttl := ttl;
      cache, cacheSize, lastCleanup := map[], 0, now;
      served, leaked, calls, began := 0, 0, [], now;
    }

    /** The Range over the map; the counter is clamped at zero, which never happens. */
    method Clean(now: int)
      requires cacheSize >= |cache|
      modifies `cache, `cacheSize, `lastCleanup
      ensures Value() == Cleaned(old(Value()), now)
    {
      if now - lastCleanup <= CLEANUP_INTERVAL_NS { return; }
      var todo := cache.Keys;
      ghost var before := cache;
      while todo != {}
        invariant todo <= before.Keys
        invariant cache == map k | k in before && (k in todo || now <= before[k].expiresAt) :: before[k]
        invariant cacheSize - |cache| == old(cacheSize) - |before| && cacheSize >= |cache|
        decreases |todo|
      {
        var k :| k in todo;
        todo := todo - {k};
        SizeWithout(cache, k);
        if now > cache[k].expiresAt {
          cache := cache - {k};
          cacheSize := if cacheSize - 1 < 0 then 0 else cacheSize - 1;
        }
      }
      assert cache == Unexpired(before, now);
      lastCleanup := now;
    }

    /** Storing the result of a lookup. */
    method StoreResult(call: Call, n: nat, replacing: bool)
      modifies `cache, `cacheSize, `leaked
      ensures Value() == Store(old(Value()), ttl, n, call, replacing)
    {
      if call.lookup.Failed? {
        if replacing { leaked := leaked + 1; }
        return;
      }
      if replacing || cacheSize < MAX_SIZE {
        cache := cache[call.id := Entry(Answer(call.lookup), call.end + ttl, n, call.end)];
        if !replacing { cacheSize := cacheSize + 1; }
      }
    }

    method Ask(call: Call, n: nat) returns (r: bool)
      requires cacheSize >= |cache|
      modifies `cache, `cacheSize, `lastCleanup, `leaked
      ensures (Value(), r) == IsAccountActive(old(Value()), ttl, n, call)
    {
      Clean(call.start);
      hide Cleaned;
      if call.id !in cache {
        assert cache - {call.id} == cache;
        hide Store;
        StoreResult(call, n, false);
        return Answer(call.lookup);
      }
      if call.start < cache[call.id].expiresAt { return cache[call.id].active; }
      cache := cache - {call.id};
      hide Store;
      StoreResult(call, n, true);
      return Answer(call.lookup);
    }

    method IsActive(call: Call) returns (r: bool)
      requires Valid()
      modifies this
      ensures Valid() && calls == old(calls) + [call]
      ensures (Value(), r) == IsAccountActive(old(Value()), ttl, |old(calls)|, call)
      ensures |cache| <= cacheSize <= MAX_SIZE
    {
      hide IsAccountActive;
      RunSnoc(ttl, began, calls, call);
      SizeBounds(ttl, began, calls);
      SizeBounds(ttl, began, calls + [call]);
      hide Run;
      r := Ask(call, served);
      served := served + 1;
      calls := calls + [call];
    }
  }

  lemma RunSnoc(ttl: nat, now: int, calls: seq<Call>, call: Call)
    ensures Run(ttl, now, calls + [call]) == IsAccountActive(Run(ttl, now, calls), ttl, |calls|, call).0
  {
    assert (calls + [call])[..|calls|] == calls;
  }
}
