/**
 The account-status cache under concurrent calls (accountValidatorAdapter of
 cmd/gosso/web_modules.go): a sync.Map and an atomic counter, with calls and
 the sweep stopped between any two of their accesses.
 */
module AccountCacheRaces {
  import opened AccountValidator

  /** `from` is the lookup it was made of, `stampedAt` when its expiry was set. */
  datatype Stored = Stored(active: bool, expiresAt: int, from: nat, stampedAt: int)

  /** Where a call is; `from` is its lookup. */
  datatype Stage =
    | Loaded(e: Stored)
    | Evicting
    | Looking
    | Checking(from: nat)
    | Storing(from: nat)
    | Stamped(e: Stored)
    | Adding(created: bool)

  /** replacing is the call's own flag; removed tells whether its Delete found an entry. */
  datatype Flight = Flight(id: string, replacing: bool, removed: bool, stage: Stage)

  /** The cleaner holds the mutex, so there is one: its time, and where it is with a key. */
  datatype Sweep =
    | Idle
    | Scanning(t: int)
    | Seen(t: int, key: string)
    | Deleted(t: int, found: bool)
    | Counted(t: int, v: int)

  datatype LookedUp = LookedUp(id: string, lookup: Lookup, at: int)

  /** An answer, when it was given, and the lookup it repeats. */
  datatype Reply = Reply(id: string, active: bool, at: int, from: nat, stampedAt: int)

  datatype State = State(
    now: int,
    entries: map<string, Stored>,
    size: int,
    lastCleanup: int,
    sweep: Sweep,
    flights: map<nat, Flight>,
    // history: what was looked up and answered, and how often the counter was counted up too often, too seldom, or set
    lookups: seq<LookedUp>,
    replies: seq<Reply>,
    over: nat,
    under: nat,
    clamped: int)

  function Start(now: int): State {
    State(now, map[], 0, now, Idle, map[], [], [], 0, 0, 0)
  }

  function Done(s: State, rid: nat): State {
    s.(flights := s.flights - {rid})
  }

  function At(s: State, rid: nat, stage: Stage): State
    requires rid in s.flights
  {
    s.(flights := s.flights[rid := s.flights[rid].(stage := stage)])
  }

  // ----- the steps of a call -----

  function Load(s: State, rid: nat, id: string): State {
    if rid in s.flights then s
    else s.(flights := s.flights[rid := Flight(id, false, false, if id in s.entries then Loaded(s.entries[id]) else Looking)])
  }

  /** The clock is read after the entry. */
  function Judge(s: State, rid: nat): State {
    if rid !in s.flights || !s.flights[rid].stage.Loaded? then s
    else
      var f := s.flights[rid];
      var e := f.stage.e;
      if s.now < e.expiresAt then Done(s, rid).(replies := s.replies + [Reply(f.id, e.active, s.now, e.from, e.stampedAt)])
      else At(s, rid, Evicting)
  }

  /** Delete takes whatever is stored under the id by now. */
  function Evict(s: State, rid: nat): State {
    if rid !in s.flights || !s.flights[rid].stage.Evicting? then s
    else
      var f := s.flights[rid];
      s.(entries := s.entries - {f.id}, flights := s.flights[rid := Flight(f.id, true, f.id in s.entries, Looking)])
  }

  /** FindAccountByID; a failed lookup is answered and not stored. */
  function LookUp(s: State, rid: nat, l: Lookup): State {
    if rid !in s.flights || !s.flights[rid].stage.Looking? then s
    else
      var f := s.flights[rid];
      var m := |s.lookups|;
      var s' := s.(lookups := s.lookups + [LookedUp(f.id, l, s.now)],
                   replies := s.replies + [Reply(f.id, Answer(l), s.now, m, s.now)]);
      if l.Failed? then Done(s', rid).(over := s.over + if f.removed then 1 else 0) else At(s', rid, Checking(m))
  }

  function Check(s: State, rid: nat): State {
    if rid !in s.flights || !s.flights[rid].stage.Checking? then s
    else if s.flights[rid].replacing || s.size < MAX_SIZE then At(s, rid, Storing(s.flights[rid].stage.from))
    else Done(s, rid)
  }

  function Stamp(s: State, ttl: nat, rid: nat): State {
    if rid !in s.flights || !s.flights[rid].stage.Storing? || s.flights[rid].stage.from >= |s.lookups| then s
    else
      var m := s.flights[rid].stage.from;
      At(s, rid, Stamped(Stored(Answer(s.lookups[m].lookup), s.now + ttl, m, s.now)))
  }

  function Put(s: State, rid: nat): State {
    if rid !in s.flights || !s.flights[rid].stage.Stamped? then s
    else
      var f := s.flights[rid];
      var created := f.id !in s.entries;
      var s' := s.(entries := s.entries[f.id := f.stage.e]);
      if !f.replacing then At(s', rid, Adding(created))
      else Done(s', rid).(over := s.over + (if f.removed && !created then 1 else 0),
                          under := s.under + if !f.removed && created then 1 else 0)
  }

  function Add(s: State, rid: nat): State {
    if rid !in s.flights || !s.flights[rid].stage.Adding? then s
    else Done(s, rid).(size := s.size + 1, over := s.over + if s.flights[rid].stage.created then 0 else 1)
  }

  // ----- the steps of the cleaner -----

  function SweepStart(s: State): State {
    if s.sweep.Idle? && s.now - s.lastCleanup > CLEANUP_INTERVAL_NS then s.(sweep := Scanning(s.now)) else s
  }

  /** Range hands out an entry that is expired. */
  function SweepSee(s: State, key: string): State {
    if s.sweep.Scanning? && key in s.entries && s.sweep.t > s.entries[key].expiresAt then s.(sweep := Seen(s.sweep.t, key)) else s
  }

  /** Delete takes whatever is stored under the key by now. */
  function SweepDelete(s: State): State {
    if !s.sweep.Seen? then s
    else s.(entries := s.entries - {s.sweep.key}, sweep := Deleted(s.sweep.t, s.sweep.key in s.entries))
  }

  function SweepCount(s: State): State {
    if !s.sweep.Deleted? then s
    else s.(size := s.size - 1, under := s.under + (if s.sweep.found then 0 else 1), sweep := Counted(s.sweep.t, s.size - 1))
  }

  /** A negative result of the decrement sets the counter to zero. */
  function SweepClamp(s: State): State {
    if !s.sweep.Counted? then s
    else if s.sweep.v < 0 then s.(size := 0, clamped := s.clamped - s.size, sweep := Scanning(s.sweep.t))
    else s.(sweep := Scanning(s.sweep.t))
  }

  function SweepEnd(s: State): State {
    if s.sweep.Scanning? then s.(sweep := Idle, lastCleanup := s.now) else s
  }

  datatype Action =
    | Tick(ns: nat)
    | ALoad(rid: nat, id: string)
    | AJudge(rid: nat)
    | AEvict(rid: nat)
    | ALookUp(rid: nat, lookup: Lookup)
    | ACheck(rid: nat)
    | AStamp(rid: nat)
    | APut(rid: nat)
    | AAdd(rid: nat)
    | ASweepStart
    | ASweepSee(key: string)
    | ASweepDelete
    | ASweepCount
    | ASweepClamp
    | ASweepEnd

  function Step(ttl: nat, s: State, a: Action): State {
    match a
    case Tick(ns) => s.(now := s.now + ns)
    case ALoad(rid, id) => Load(s, rid, id)
    case AJudge(rid) => Judge(s, rid)
    case AEvict(rid) => Evict(s, rid)
    case ALookUp(rid, l) => LookUp(s, rid, l)
    case ACheck(rid) => Check(s, rid)
    case AStamp(rid) => Stamp(s, ttl, rid)
    case APut(rid) => Put(s, rid)
    case AAdd(rid) => Add(s, rid)
    case ASweepStart => SweepStart(s)
    case ASweepSee(key) => SweepSee(s, key)
    case ASweepDelete => SweepDelete(s)
    case ASweepCount => SweepCount(s)
    case ASweepClamp => SweepClamp(s)
    case ASweepEnd => SweepEnd(s)
  }

  function Steps(ttl: nat, s: State, acts: seq<Action>): State {
    if acts == [] then s else Step(ttl, Steps(ttl, s, acts[..|acts| - 1]), acts[|acts| - 1])
  }

  // ----- every answer is a lookup less than one lifetime old -----

  ghost predicate StoredTrue(ttl: nat, now: int, lookups: seq<LookedUp>, id: string, e: Stored) {
    && e.from < |lookups|
    && lookups[e.from].id == id && !lookups[e.from].lookup.Failed? && e.active == Answer(lookups[e.from].lookup)
    && lookups[e.from].at <= e.stampedAt <= now && e.expiresAt == e.stampedAt + ttl
  }

  ghost predicate FlightTrue(ttl: nat, now: int, lookups: seq<LookedUp>, f: Flight) {
    match f.stage
    case Loaded(e) => StoredTrue(ttl, now, lookups, f.id, e)
    case Checking(m) => m < |lookups| && lookups[m].id == f.id && !lookups[m].lookup.Failed? && lookups[m].at <= now
    case Storing(m) => m < |lookups| && lookups[m].id == f.id && !lookups[m].lookup.Failed? && lookups[m].at <= now
    case Stamped(e) => StoredTrue(ttl, now, lookups, f.id, e)
    case _ => true
  }

  /** The reply repeats a lookup of its account: its own, or a successful one whose entry was stamped less than ttl before. */
  ghost predicate ReplyTrue(ttl: nat, lookups: seq<LookedUp>, r: Reply) {
    && r.from < |lookups|
    && var l := lookups[r.from];
       && l.id == r.id && r.active == Answer(l.lookup) && l.at <= r.stampedAt <= r.at
       && (l.at == r.at || (!l.lookup.Failed? && r.at - r.stampedAt < ttl))
  }

  ghost predicate EntriesTrue(ttl: nat, now: int, lookups: seq<LookedUp>, entries: map<string, Stored>) {
    forall id | id in entries :: StoredTrue(ttl, now, lookups, id, entries[id])
  }

  ghost predicate FlightsTrue(ttl: nat, now: int, lookups: seq<LookedUp>, flights: map<nat, Flight>) {
    forall rid | rid in flights :: FlightTrue(ttl, now, lookups, flights[rid])
  }

  ghost predicate RepliesTrue(ttl: nat, lookups: seq<LookedUp>, replies: seq<Reply>) {
    forall i | 0 <= i < |replies| :: ReplyTrue(ttl, lookups, replies[i])
  }

  ghost predicate AllTrue(ttl: nat, s: State) {
    && EntriesTrue(ttl, s.now, s.lookups, s.entries)
    && FlightsTrue(ttl, s.now, s.lookups, s.flights)
    && RepliesTrue(ttl, s.lookups, s.replies)
  }

  /** What is true of the lookups so far stays true of more of them, later. */
  lemma TrueLater(ttl: nat, s: State, more: seq<LookedUp>, now: int)
    requires AllTrue(ttl, s) && s.now <= now
    ensures AllTrue(ttl, s.(now := now, lookups := s.lookups + more))
  {
    var lookups := s.lookups + more;
    assert forall m | 0 <= m < |s.lookups| :: lookups[m] == s.lookups[m];
    assert EntriesTrue(ttl, now, lookups, s.entries) by { hide FlightsTrue, RepliesTrue; }
    assert FlightsTrue(ttl, now, lookups, s.flights) by { hide EntriesTrue, RepliesTrue; }
    assert RepliesTrue(ttl, lookups, s.replies) by { hide EntriesTrue, FlightsTrue; }
  }

  lemma LookUpTrue(ttl: nat, s: State, rid: nat, l: Lookup)
    requires AllTrue(ttl, s)
    ensures AllTrue(ttl, LookUp(s, rid, l))
  {
    if rid in s.flights && s.flights[rid].stage.Looking? {
      var f := s.flights[rid];
      var own := LookedUp(f.id, l, s.now);
      TrueLater(ttl, s, [own], s.now);
      var lookups := s.lookups + [own];
      assert lookups[|s.lookups|] == own;
      hide StoredTrue;
      assert ReplyTrue(ttl, lookups, Reply(f.id, Answer(l), s.now, |s.lookups|, s.now));
      hide ReplyTrue;
    }
  }

  lemma SweepTrue(ttl: nat, s: State, key: string)
    requires AllTrue(ttl, s)
    ensures AllTrue(ttl, SweepStart(s)) && AllTrue(ttl, SweepSee(s, key)) && AllTrue(ttl, SweepDelete(s))
    ensures AllTrue(ttl, SweepCount(s)) && AllTrue(ttl, SweepClamp(s)) && AllTrue(ttl, SweepEnd(s))
  {
    hide StoredTrue, FlightsTrue, RepliesTrue;
  }

  /** Entries move between the store and the calls. */
  lemma MoveTrue(ttl: nat, s: State, rid: nat, id: string)
    requires AllTrue(ttl, s)
    ensures AllTrue(ttl, Load(s, rid, id)) && AllTrue(ttl, Evict(s, rid)) && AllTrue(ttl, Put(s, rid))
  {
    hide StoredTrue, RepliesTrue;
  }

  lemma CheckTrue(ttl: nat, s: State, rid: nat)
    requires AllTrue(ttl, s)
    ensures AllTrue(ttl, Check(s, rid)) && AllTrue(ttl, Add(s, rid))
  {
    hide StoredTrue, EntriesTrue, RepliesTrue;
  }

  lemma StepTrue(ttl: nat, s: State, a: Action)
    requires AllTrue(ttl, s)
    ensures AllTrue(ttl, Step(ttl, s, a))
  {
    hide AllTrue, Load, Judge, Evict, LookUp, Check, Stamp, Put, Add,
      SweepStart, SweepSee, SweepDelete, SweepCount, SweepClamp, SweepEnd;
    match a
    case Tick(ns) =>
      TrueLater(ttl, s, [], s.now + ns);
      assert s.lookups + [] == s.lookups;
    case ALookUp(rid, l) => LookUpTrue(ttl, s, rid, l);
    case AJudge(rid) => JudgeTrue(ttl, s, rid);
    case AStamp(rid) => StampTrue(ttl, s, rid);
    case ALoad(rid, id) => MoveTrue(ttl, s, rid, id);
    case AEvict(rid) => MoveTrue(ttl, s, rid, "");
    case APut(rid) => MoveTrue(ttl, s, rid, "");
    case ACheck(rid) => CheckTrue(ttl, s, rid);
    case AAdd(rid) => CheckTrue(ttl, s, rid);
    case ASweepSee(key) => SweepTrue(ttl, s, key);
    case _ => SweepTrue(ttl, s, "");
  }

  lemma JudgeTrue(ttl: nat, s: State, rid: nat)
    requires AllTrue(ttl, s)
    ensures AllTrue(ttl, Judge(s, rid))
  {
    if rid in s.flights && s.flights[rid].stage.Loaded? {
      var f := s.flights[rid];
      var e := f.stage.e;
      assert FlightTrue(ttl, s.now, s.lookups, f);
      assert s.now < e.expiresAt ==> ReplyTrue(ttl, s.lookups, Reply(f.id, e.active, s.now, e.from, e.stampedAt));
      hide StoredTrue, ReplyTrue;
    }
  }

  lemma StampTrue(ttl: nat, s: State, rid: nat)
    requires AllTrue(ttl, s)
    ensures AllTrue(ttl, Stamp(s, ttl, rid))
  {
    if rid in s.flights && s.flights[rid].stage.Storing? && s.flights[rid].stage.from < |s.lookups| {
      var m := s.flights[rid].stage.from;
      assert FlightTrue(ttl, s.now, s.lookups, s.flights[rid]);
      assert StoredTrue(ttl, s.now, s.lookups, s.flights[rid].id, Stored(Answer(s.lookups[m].lookup), s.now + ttl, m, s.now));
      hide StoredTrue, ReplyTrue;
    }
  }

  lemma {:induction false} RunTrue(ttl: nat, now: int, acts: seq<Action>)
    ensures AllTrue(ttl, Steps(ttl, Start(now), acts))
  {
    hide Step;
    if acts != [] {
      hide AllTrue;
      RunTrue(ttl, now, acts[..|acts| - 1]);
      StepTrue(ttl, Steps(ttl, Start(now), acts[..|acts| - 1]), acts[|acts| - 1]);
    }
  }

  /**
   However calls and the cleaner interleave, every reply is what a lookup of its
   account returned: the call's own, at that instant, or an earlier one that did
   not fail and whose entry got its expiry less than the lifetime before.
   */
  lemma RepliesAreLookups(ttl: nat, now: int, acts: seq<Action>, i: nat)
    requires i < |Steps(ttl, Start(now), acts).replies|
    ensures var s := Steps(ttl, Start(now), acts);
            var r := s.replies[i];
            && r.from < |s.lookups|
            && var l := s.lookups[r.from];
               && l.id == r.id && r.active == Answer(l.lookup) && l.at <= r.stampedAt <= r.at
               && (l.at == r.at || (!l.lookup.Failed? && r.at - r.stampedAt < ttl))
  {
    hide Steps, EntriesTrue, FlightsTrue;
    RunTrue(ttl, now, acts);
    assert ReplyTrue(ttl, Steps(ttl, Start(now), acts).lookups, Steps(ttl, Start(now), acts).replies[i]);
  }

  // ----- the counter -----

  /** Calls that owe an entry: they deleted one and have not yet put one back. */
  function Owing(flights: map<nat, Flight>): set<nat> {
    set rid | rid in flights && flights[rid].removed
  }

  /** Calls that put a new entry and have not counted it yet. */
  function Uncounted(flights: map<nat, Flight>): set<nat> {
    set rid | rid in flights && flights[rid].stage.Adding? && flights[rid].stage.created
  }

  /** The cleaner has deleted an entry and not counted that yet. */
  function SweepOwes(w: Sweep): nat {
    if w.Deleted? && w.found then 1 else 0
  }

  /** The counter, entry by entry: what is stored, what is under way, and the three ways it goes wrong. */
  ghost predicate Accounted(s: State) {
    s.size == |s.entries| + |Owing(s.flights)| - |Uncounted(s.flights)| + SweepOwes(s.sweep) + s.over - s.under + s.clamped
  }

  /** Calls that add an entry are those that delete none. */
  ghost predicate Shapes(flights: map<nat, Flight>) {
    forall rid | rid in flights ::
      && (flights[rid].removed ==> flights[rid].replacing)
      && (flights[rid].stage.Adding? ==> !flights[rid].replacing)
      && (flights[rid].stage.Loaded? || flights[rid].stage.Evicting? ==> !flights[rid].replacing)
  }

  ghost predicate CountInv(s: State) {
    Accounted(s) && Shapes(s.flights)
  }

  predicate Owes(f: Flight) { f.removed }

  predicate Counts(f: Flight) { f.stage.Adding? && f.stage.created }

  function One(b: bool): nat {
    if b then 1 else 0
  }

  lemma SetMember(old1: set<nat>, new1: set<nat>, rid: nat)
    requires new1 - {rid} == old1 - {rid}
    ensures |new1| == |old1| - One(rid in old1) + One(rid in new1)
  {
    assert old1 == (old1 - {rid}) + if rid in old1 then {rid} else {};
    assert new1 == (new1 - {rid}) + if rid in new1 then {rid} else {};
  }

  lemma FlightPut(flights: map<nat, Flight>, rid: nat, f: Flight)
    ensures |Owing(flights[rid := f])| == |Owing(flights)| - One(rid in flights && Owes(flights[rid])) + One(Owes(f))
    ensures |Uncounted(flights[rid := f])| == |Uncounted(flights)| - One(rid in flights && Counts(flights[rid])) + One(Counts(f))
  {
    SetMember(Owing(flights), Owing(flights[rid := f]), rid);
    SetMember(Uncounted(flights), Uncounted(flights[rid := f]), rid);
  }

  lemma FlightDone(flights: map<nat, Flight>, rid: nat)
    requires rid in flights
    ensures |Owing(flights - {rid})| == |Owing(flights)| - One(Owes(flights[rid]))
    ensures |Uncounted(flights - {rid})| == |Uncounted(flights)| - One(Counts(flights[rid]))
  {
    SetMember(Owing(flights), Owing(flights - {rid}), rid);
    SetMember(Uncounted(flights), Uncounted(flights - {rid}), rid);
  }

  lemma EntryPut(m: map<string, Stored>, k: string, e: Stored)
    ensures |m[k := e]| == |m| + One(k !in m)
  {
    assert m[k := e].Keys == m.Keys + {k};
    assert |m| == |m.Keys| && |m[k := e]| == |m[k := e].Keys|;
  }

  lemma EntryGone(m: map<string, Stored>, k: string)
    ensures |m - {k}| == |m| - One(k in m)
  {
    assert (m - {k}).Keys == m.Keys - {k};
    assert |m| == |m.Keys| && |m - {k}| == |(m - {k}).Keys|;
  }

  lemma LoadCounts(s: State, rid: nat, id: string)
    requires CountInv(s)
    ensures CountInv(Load(s, rid, id))
  {
    hide Owing, Uncounted;
    FlightPut(s.flights, rid, Flight(id, false, false, if id in s.entries then Loaded(s.entries[id]) else Looking));
  }

  lemma JudgeCounts(s: State, rid: nat)
    requires CountInv(s)
    ensures CountInv(Judge(s, rid))
  {
    hide Owing, Uncounted;
    if rid in s.flights {
      FlightDone(s.flights, rid);
      FlightPut(s.flights, rid, s.flights[rid].(stage := Evicting));
    }
  }

  lemma EvictCounts(s: State, rid: nat)
    requires CountInv(s)
    ensures CountInv(Evict(s, rid))
  {
    hide Owing, Uncounted;
    if rid in s.flights {
      var f := s.flights[rid];
      EntryGone(s.entries, f.id);
      FlightPut(s.flights, rid, Flight(f.id, true, f.id in s.entries, Looking));
    }
  }

  lemma LookUpCounts(s: State, rid: nat, l: Lookup)
    requires CountInv(s)
    ensures CountInv(LookUp(s, rid, l))
  {
    hide Owing, Uncounted, Answer;
    if rid in s.flights {
      FlightDone(s.flights, rid);
      FlightPut(s.flights, rid, s.flights[rid].(stage := Checking(|s.lookups|)));
    }
  }

  lemma CheckCounts(s: State, rid: nat)
    requires CountInv(s)
    ensures CountInv(Check(s, rid))
  {
    hide Owing, Uncounted;
    if rid in s.flights && s.flights[rid].stage.Checking? {
      FlightDone(s.flights, rid);
      FlightPut(s.flights, rid, s.flights[rid].(stage := Storing(s.flights[rid].stage.from)));
    }
  }

  lemma StampCounts(ttl: nat, s: State, rid: nat)
    requires CountInv(s)
    ensures CountInv(Stamp(s, ttl, rid))
  {
    hide Owing, Uncounted, Answer;
    if rid in s.flights && s.flights[rid].stage.Storing? && s.flights[rid].stage.from < |s.lookups| {
      var m := s.flights[rid].stage.from;
      FlightPut(s.flights, rid, s.flights[rid].(stage := Stamped(Stored(Answer(s.lookups[m].lookup), s.now + ttl, m, s.now))));
    }
  }

  lemma PutCounts(s: State, rid: nat)
    requires CountInv(s)
    ensures CountInv(Put(s, rid))
  {
    hide Owing, Uncounted;
    if rid in s.flights && s.flights[rid].stage.Stamped? {
      var f := s.flights[rid];
      EntryPut(s.entries, f.id, f.stage.e);
      FlightDone(s.flights, rid);
      FlightPut(s.flights, rid, f.(stage := Adding(f.id !in s.entries)));
    }
  }

  lemma AddCounts(s: State, rid: nat)
    requires CountInv(s)
    ensures CountInv(Add(s, rid))
  {
    hide Owing, Uncounted;
    if rid in s.flights { FlightDone(s.flights, rid); }
  }

  lemma SweepDeleteCounts(s: State)
    requires CountInv(s)
    ensures CountInv(SweepDelete(s))
  {
    hide Owing, Uncounted;
    if s.sweep.Seen? { EntryGone(s.entries, s.sweep.key); }
  }

  lemma StepCounts(ttl: nat, s: State, a: Action)
    requires CountInv(s)
    ensures CountInv(Step(ttl, s, a))
  {
    hide Owing, Uncounted, Load, Judge, Evict, LookUp, Check, Stamp, Put, Add, SweepDelete;
    match a
    case ALoad(rid, id) => LoadCounts(s, rid, id);
    case AJudge(rid) => JudgeCounts(s, rid);
    case AEvict(rid) => EvictCounts(s, rid);
    case ALookUp(rid, l) => LookUpCounts(s, rid, l);
    case ACheck(rid) => CheckCounts(s, rid);
    case AStamp(rid) => StampCounts(ttl, s, rid);
    case APut(rid) => PutCounts(s, rid);
    case AAdd(rid) => AddCounts(s, rid);
    case ASweepDelete => SweepDeleteCounts(s);
    case _ =>
  }

  lemma StartCounts(now: int)
    ensures CountInv(Start(now))
  {
    assert Owing(map[]) == {} && Uncounted(map[]) == {};
    assert |Start(now).entries| == 0;
  }

  lemma {:induction false} RunCounts(ttl: nat, now: int, acts: seq<Action>)
    ensures CountInv(Steps(ttl, Start(now), acts))
  {
    hide Step, CountInv;
    if acts == [] {
      StartCounts(now);
    } else {
      RunCounts(ttl, now, acts[..|acts| - 1]);
      StepCounts(ttl, Steps(ttl, Start(now), acts[..|acts| - 1]), acts[|acts| - 1]);
    }
  }

  /** No call and no sweep is under way. */
  predicate Quiet(s: State) {
    s.flights == map[] && s.sweep.Idle?
  }

  /**
   The exact drift, in every interleaving: once nothing is under way the counter
   differs from the number of entries by the counts too many (a lookup that fails
   after an eviction, a store over an entry another call put) less those missed
   (a store after an eviction that found nothing, a sweep of a key that is gone)
   and what setting it to zero changed.
   */
  lemma DriftExact(ttl: nat, now: int, acts: seq<Action>)
    ensures var s := Steps(ttl, Start(now), acts);
            && s.size == |s.entries| + |Owing(s.flights)| - |Uncounted(s.flights)| + SweepOwes(s.sweep) + s.over - s.under + s.clamped
            && (Quiet(s) ==> s.size - |s.entries| == s.over - s.under + s.clamped)
  {
    hide Steps;
    RunCounts(ttl, now, acts);
    assert Owing(map[]) == {} && Uncounted(map[]) == {};
  }

  lemma StepsNext(ttl: nat, s: State, acts: seq<Action>, a: Action)
    ensures Steps(ttl, s, acts + [a]) == Step(ttl, Steps(ttl, s, acts), a)
  {
    hide Step;
    assert (acts + [a])[..|acts|] == acts;
  }

  // ----- the cap -----

  predicate Stores(f: Flight) {
    !f.replacing && (f.stage.Storing? || f.stage.Stamped? || f.stage.Adding?)
  }

  /** Calls past the check of the counter that have not raised it yet. */
  function Admitted(flights: map<nat, Flight>): set<nat> {
    set rid | rid in flights && Stores(flights[rid])
  }

  /** What the counter comes to when everything admitted is stored. */
  function Committed(s: State): int {
    s.size + |Admitted(s.flights)|
  }

  lemma AdmittedPut(flights: map<nat, Flight>, rid: nat, f: Flight)
    ensures |Admitted(flights[rid := f])| == |Admitted(flights)| - One(rid in flights && Stores(flights[rid])) + One(Stores(f))
  {
    SetMember(Admitted(flights), Admitted(flights[rid := f]), rid);
  }

  lemma AdmittedDone(flights: map<nat, Flight>, rid: nat)
    requires rid in flights
    ensures |Admitted(flights - {rid})| == |Admitted(flights)| - One(Stores(flights[rid]))
  {
    SetMember(Admitted(flights), Admitted(flights - {rid}), rid);
  }

  /** The rest of a store that has been admitted. */
  predicate Finishing(a: Action) {
    a.AStamp? || a.APut? || a.AAdd?
  }

  ghost predicate AllFinishing(acts: seq<Action>) {
    forall n | 0 <= n < |acts| :: Finishing(acts[n])
  }

  lemma FinishingKeeps(ttl: nat, s: State, a: Action)
    requires Finishing(a) && Shapes(s.flights)
    ensures Committed(Step(ttl, s, a)) == Committed(s)
  {
    hide Admitted, Answer;
    var rid := a.rid;
    if rid in s.flights {
      var f := s.flights[rid];
      AdmittedDone(s.flights, rid);
      match a
      case AStamp(_) =>
        if f.stage.Storing? && f.stage.from < |s.lookups| {
          AdmittedPut(s.flights, rid, f.(stage := Stamped(Stored(Answer(s.lookups[f.stage.from].lookup), s.now + ttl, f.stage.from, s.now))));
        }
      case APut(_) => AdmittedPut(s.flights, rid, f.(stage := Adding(f.id !in s.entries)));
      case AAdd(_) =>
    }
  }

  lemma {:induction false} FinishingRun(ttl: nat, s: State, acts: seq<Action>)
    requires AllFinishing(acts) && CountInv(s)
    ensures Committed(Steps(ttl, s, acts)) == Committed(s) && CountInv(Steps(ttl, s, acts))
  {
    hide Step, Committed, Accounted;
    if acts != [] {
      FinishingRun(ttl, s, acts[..|acts| - 1]);
      var t := Steps(ttl, s, acts[..|acts| - 1]);
      FinishingKeeps(ttl, t, acts[|acts| - 1]);
      StepCounts(ttl, t, acts[|acts| - 1]);
    }
  }

  /** An admitted call that runs to its end raises the counter. */
  lemma FinishOne(ttl: nat, s: State, rid: nat)
    requires FlightsTrue(ttl, s.now, s.lookups, s.flights) && rid in Admitted(s.flights)
    ensures var s' := Add(Put(Stamp(s, ttl, rid), rid), rid);
            s'.size == s.size + 1 && s'.flights == s.flights - {rid}
  {
    assert FlightTrue(ttl, s.now, s.lookups, s.flights[rid]);
    hide Answer;
  }

  lemma FinishAll(ttl: nat, s: State) returns (acts: seq<Action>)
    requires AllTrue(ttl, s)
    ensures AllFinishing(acts) && Steps(ttl, s, acts).size == Committed(s)
  {
    hide Steps, Step, AllTrue, Admitted;
    acts := [];
    var t := s;
    assert Steps(ttl, s, []) == s by { StepsNone(ttl, s); }
    while Admitted(t.flights) != {}
      invariant AllFinishing(acts) && t == Steps(ttl, s, acts)
      invariant Committed(t) == Committed(s) && AllTrue(ttl, t)
      decreases |Admitted(t.flights)|
    {
      var rid :| rid in Admitted(t.flights);
      StepsNext(ttl, s, acts, AStamp(rid));
      StepsNext(ttl, s, acts + [AStamp(rid)], APut(rid));
      StepsNext(ttl, s, acts + [AStamp(rid)] + [APut(rid)], AAdd(rid));
      StepTrue(ttl, t, AStamp(rid));
      StepTrue(ttl, Step(ttl, t, AStamp(rid)), APut(rid));
      StepTrue(ttl, Step(ttl, Step(ttl, t, AStamp(rid)), APut(rid)), AAdd(rid));
      acts := acts + [AStamp(rid)] + [APut(rid)] + [AAdd(rid)];
      FinishedOne(ttl, t, rid);
      t := Steps(ttl, s, acts);
    }
  }

  lemma StepsNone(ttl: nat, s: State)
    ensures Steps(ttl, s, []) == s
  {
  }

  lemma FinishedOne(ttl: nat, s: State, rid: nat)
    requires AllTrue(ttl, s) && rid in Admitted(s.flights)
    ensures var s' := Step(ttl, Step(ttl, Step(ttl, s, AStamp(rid)), APut(rid)), AAdd(rid));
            Committed(s') == Committed(s) && |Admitted(s'.flights)| < |Admitted(s.flights)|
  {
    hide Stamp, Put, Add, EntriesTrue, RepliesTrue;
    FinishOne(ttl, s, rid);
    AdmittedDone(s.flights, rid);
  }

  /**
   The cap, exactly: from any moment of any run the calls already admitted can
   take the counter past the cap if and only if it and their number add up to
   more; every one of them then counts.
   */
  lemma CapExact(ttl: nat, now: int, acts: seq<Action>)
    ensures var s := Steps(ttl, Start(now), acts);
            (exists rest :: AllFinishing(rest) && Steps(ttl, s, rest).size > MAX_SIZE) <==> Committed(s) > MAX_SIZE
  {
    hide Steps, CountInv, AllTrue, Admitted, AllFinishing;
    RunCounts(ttl, now, acts);
    RunTrue(ttl, now, acts);
    var s := Steps(ttl, Start(now), acts);
    forall rest | AllFinishing(rest) ensures Steps(ttl, s, rest).size <= Committed(s) { FinishingRun(ttl, s, rest); }
    var all := FinishAll(ttl, s);
  }

  /** Two calls that look up side by side at 1023 are both admitted. */
  lemma TwoPassTheCap(ttl: nat, s: State, id: string, other: string)
    requires Quiet(s) && s.size == MAX_SIZE - 1 && id !in s.entries && other !in s.entries
    ensures var one := Steps(ttl, s, [ALoad(0, id)] + [ALookUp(0, Known(true))] + [ACheck(0)]);
            var two := Steps(ttl, one, [ALoad(1, other)] + [ALookUp(1, Known(true))] + [ACheck(1)]);
            two.size == MAX_SIZE - 1 && Committed(two) == MAX_SIZE + 1
  {
    hide Steps, Answer;
    Three(ttl, s, ALoad(0, id), ALookUp(0, Known(true)), ACheck(0));
    var one := Check(LookUp(Load(s, 0, id), 0, Known(true)), 0);
    var f := Flight(id, false, false, Storing(|s.lookups|));
    assert one.flights == map[0 := f] && one.size == s.size && one.entries == s.entries;
    Three(ttl, one, ALoad(1, other), ALookUp(1, Known(true)), ACheck(1));
    var two := Check(LookUp(Load(one, 1, other), 1, Known(true)), 1);
    assert two.flights == map[0 := f, 1 := Flight(other, false, false, Storing(|one.lookups|))] && two.size == s.size;
    hide Load, LookUp, Check;
    assert Admitted(two.flights) == {0, 1};
  }

  /** The counter, taken as at least zero, and the calls that will raise it. */
  function Burden(s: State): nat {
    (if s.size > 0 then s.size else 0) + |Admitted(s.flights)|
  }

  /** The check lets a call through that adds an entry. */
  predicate Admits(s: State, a: Action) {
    && a.ACheck? && a.rid in s.flights && s.flights[a.rid].stage.Checking?
    && !s.flights[a.rid].replacing && s.size < MAX_SIZE
  }

  lemma BurdenByCall(s: State, s': State, rid: nat)
    requires s'.size == s.size
    requires rid in s.flights && (s'.flights == s.flights - {rid} || (rid in s'.flights && s'.flights == s.flights[rid := s'.flights[rid]]))
    requires rid in s'.flights && Stores(s'.flights[rid]) ==> Stores(s.flights[rid])
    ensures Burden(s') <= Burden(s)
  {
    hide Admitted;
    AdmittedDone(s.flights, rid);
    if rid in s'.flights { AdmittedPut(s.flights, rid, s'.flights[rid]); }
  }

  lemma StepBurden(ttl: nat, s: State, a: Action)
    requires Shapes(s.flights)
    ensures Burden(Step(ttl, s, a)) <= Burden(s) + One(Admits(s, a))
  {
    hide Admitted, Answer;
    var s' := Step(ttl, s, a);
    match a
    case ALoad(rid, id) => if rid !in s.flights { AdmittedPut(s.flights, rid, s'.flights[rid]); }
    case ACheck(rid) =>
      if rid in s.flights && s.flights[rid].stage.Checking? {
        AdmittedDone(s.flights, rid);
        if rid in s'.flights { AdmittedPut(s.flights, rid, s'.flights[rid]); }
      }
    case AAdd(rid) => if rid in s.flights { AdmittedDone(s.flights, rid); }
    case AJudge(rid) => if rid in s.flights && s' != s { BurdenByCall(s, s', rid); }
    case AEvict(rid) => if rid in s.flights && s' != s { BurdenByCall(s, s', rid); }
    case ALookUp(rid, _) => if rid in s.flights && s.flights[rid].stage.Looking? { BurdenByCall(s, s', rid); }
    case AStamp(rid) => if rid in s.flights && s' != s { BurdenByCall(s, s', rid); }
    case APut(rid) => if rid in s.flights && s.flights[rid].stage.Stamped? { BurdenByCall(s, s', rid); }
    case _ =>
  }

  /** Every admission finds room for itself and all admitted before it. */
  ghost predicate AdmitsWithRoom(ttl: nat, now: int, acts: seq<Action>) {
    forall n | 0 <= n < |acts| && Admits(Steps(ttl, Start(now), acts[..n]), acts[n]) ::
      Burden(Steps(ttl, Start(now), acts[..n])) < MAX_SIZE
  }

  /** So the cap holds in every run whose admissions find room, as a call's does when no other is admitted. */
  lemma {:induction false} CapKept(ttl: nat, now: int, acts: seq<Action>)
    requires AdmitsWithRoom(ttl, now, acts)
    ensures Burden(Steps(ttl, Start(now), acts)) <= MAX_SIZE && Steps(ttl, Start(now), acts).size <= MAX_SIZE
  {
    hide Step, CountInv, Admits;
    if acts == [] {
      assert Admitted(map[]) == {};
    } else {
      hide Admitted;
      var last := |acts| - 1;
      assert forall n | 0 <= n < last :: acts[..last][..n] == acts[..n];
      CapKept(ttl, now, acts[..last]);
      RunCounts(ttl, now, acts[..last]);
      var s := Steps(ttl, Start(now), acts[..last]);
      ShapesOf(s);
      StepBurden(ttl, s, acts[last]);
    }
  }

  lemma ShapesOf(s: State)
    requires CountInv(s)
    ensures Shapes(s.flights)
  {
  }

  // ----- a sweep between a call's look and its delete -----

  /** A call looks, a sweep starts and ends, and the call goes on with the entry it saw. */
  function Looks(id: string): seq<Action> {
    [ASweepStart] + [ALoad(0, id)] + [AJudge(0)]
  }

  function Sweeps(id: string): seq<Action> {
    [ASweepSee(id)] + [ASweepDelete] + [ASweepCount] + [ASweepClamp] + [ASweepEnd]
  }

  function GoesOn(): seq<Action> {
    [AEvict(0)] + [ALookUp(0, Known(true))] + [ACheck(0)] + [AStamp(0)] + [APut(0)]
  }

  function Stolen(ttl: nat, s: State, id: string): State {
    Steps(ttl, Steps(ttl, Steps(ttl, s, Looks(id)), Sweeps(id)), GoesOn())
  }

  lemma Three(ttl: nat, s: State, a: Action, b: Action, c: Action)
    ensures Steps(ttl, s, [a] + [b] + [c]) == Step(ttl, Step(ttl, Step(ttl, s, a), b), c)
  {
    hide Step;
    StepsNext(ttl, s, [], a);
    assert [] + [a] == [a];
    StepsNext(ttl, s, [a], b);
    StepsNext(ttl, s, [a] + [b], c);
  }

  lemma Five(ttl: nat, s: State, a: Action, b: Action, c: Action, d: Action, e: Action)
    ensures Steps(ttl, s, [a] + [b] + [c] + [d] + [e]) == Step(ttl, Step(ttl, Step(ttl, Step(ttl, Step(ttl, s, a), b), c), d), e)
  {
    hide Step, Steps;
    Three(ttl, s, a, b, c);
    StepsNext(ttl, s, [a] + [b] + [c], d);
    StepsNext(ttl, s, [a] + [b] + [c] + [d], e);
  }

  function Saw(s: State, id: string): State {
    s.(sweep := Scanning(s.now), flights := map[0 := Flight(id, false, false, Evicting)])
  }

  lemma LooksEnds(ttl: nat, s: State, id: string)
    requires Quiet(s) && id in s.entries && s.now >= s.entries[id].expiresAt && s.now - s.lastCleanup > CLEANUP_INTERVAL_NS
    ensures Steps(ttl, s, Looks(id)) == Saw(s, id)
  {
    hide Steps;
    Three(ttl, s, ASweepStart, ALoad(0, id), AJudge(0));
    var s1 := SweepStart(s);
    var s2 := Load(s1, 0, id);
    assert s2 == s1.(flights := map[0 := Flight(id, false, false, Loaded(s.entries[id]))]);
    assert Judge(s2, 0) == Saw(s, id);
  }

  lemma SweepsEnds(ttl: nat, s: State, id: string)
    requires s.sweep.Scanning? && id in s.entries && s.sweep.t > s.entries[id].expiresAt && s.size >= 1
    ensures Steps(ttl, s, Sweeps(id)) == s.(entries := s.entries - {id}, size := s.size - 1, lastCleanup := s.now, sweep := Idle)
  {
    hide Steps;
    Five(ttl, s, ASweepSee(id), ASweepDelete, ASweepCount, ASweepClamp, ASweepEnd);
    var s2 := SweepDelete(SweepSee(s, id));
    assert s2 == s.(entries := s.entries - {id}, sweep := Deleted(s.sweep.t, true));
    hide SweepSee, SweepDelete;
    assert SweepCount(s2) == s2.(size := s.size - 1, sweep := Counted(s.sweep.t, s.size - 1));
  }

  lemma EvictsNothing(s: State, id: string)
    requires s.flights == map[0 := Flight(id, false, false, Evicting)] && id !in s.entries
    ensures var s' := LookUp(Evict(s, 0), 0, Known(true));
            && s'.flights == map[0 := Flight(id, true, false, Checking(|s.lookups|))]
            && |s'.lookups| == |s.lookups| + 1 && s'.lookups[|s.lookups|].lookup == Known(true)
            && s'.entries == s.entries && s'.size == s.size && s'.sweep == s.sweep && s'.under == s.under
  {
    var e := Evict(s, 0);
    assert e == s.(flights := map[0 := Flight(id, true, false, Looking)]) by { assert s.entries - {id} == s.entries; }
    hide Evict;
  }

  lemma StoresUncounted(ttl: nat, s: State, id: string, m: nat)
    requires s.flights == map[0 := Flight(id, true, false, Checking(m))] && m < |s.lookups| && id !in s.entries
    ensures var s' := Put(Stamp(Check(s, 0), ttl, 0), 0);
            && s'.flights == map[] && s'.sweep == s.sweep
            && |s'.entries| == |s.entries| + 1 && s'.size == s.size && s'.under == s.under + 1
  {
    hide Answer;
    var e := Stored(Answer(s.lookups[m].lookup), s.now + ttl, m, s.now);
    var v := Stamp(Check(s, 0), ttl, 0);
    assert v == s.(flights := map[0 := Flight(id, true, false, Stamped(e))]);
    hide Check, Stamp;
    EntryPut(s.entries, id, e);
  }

  lemma GoesOnEnds(ttl: nat, s: State, id: string)
    requires s.flights == map[0 := Flight(id, false, false, Evicting)] && id !in s.entries
    ensures var s' := Steps(ttl, s, GoesOn());
            && s'.flights == map[] && s'.sweep == s.sweep
            && |s'.entries| == |s.entries| + 1 && s'.size == s.size && s'.under == s.under + 1
  {
    hide Steps, Evict, LookUp, Check, Stamp, Put;
    Five(ttl, s, AEvict(0), ALookUp(0, Known(true)), ACheck(0), AStamp(0), APut(0));
    EvictsNothing(s, id);
    StoresUncounted(ttl, LookUp(Evict(s, 0), 0, Known(true)), id, |s.lookups|);
  }

  /**
   The worse drift: the call's Delete then finds nothing, yet it stores without
   counting.  The counter has lost one although as many entries are stored.
   */
  lemma SweepStealsEviction(ttl: nat, s: State, id: string)
    requires Quiet(s) && id in s.entries && s.now > s.entries[id].expiresAt && s.size >= 1
    requires s.now - s.lastCleanup > CLEANUP_INTERVAL_NS
    ensures var s' := Stolen(ttl, s, id);
            && Quiet(s') && |s'.entries| == |s.entries| && s'.size == s.size - 1 && s'.under == s.under + 1
  {
    hide Steps, Looks, Sweeps, GoesOn;
    LooksEnds(ttl, s, id);
    SweepsEnds(ttl, Saw(s, id), id);
    var t := Steps(ttl, Saw(s, id), Sweeps(id));
    GoesOnEnds(ttl, t, id);
    EntryGone(s.entries, id);
  }

  // ----- one call at a time -----

  function EntryView(e: Stored): Entry {
    Entry(e.active, e.expiresAt, e.from, e.stampedAt)
  }

  /** The state as the serial model has it. */
  function View(s: State): Cache {
    Cache(map k | k in s.entries :: EntryView(s.entries[k]), s.size, s.lastCleanup, s.over)
  }

  /** A call from start to end with the lookup taking all its time; its steps that come too late do nothing. */
  function Looked(s: State, id: string): State {
    Evict(Judge(Load(s, 0, id), 0), 0)
  }

  function Alone(ttl: nat, s: State, call: Call): State {
    var t := Looked(s, call.id).(now := call.end);
    Add(Put(Stamp(Check(LookUp(t, 0, call.lookup), 0), ttl, 0), 0), 0)
  }

  lemma ViewWithout(s: State, id: string)
    ensures View(s.(entries := s.entries - {id})).entries == View(s).entries - {id}
  {
  }

  lemma LookedIsProbe(s: State, id: string)
    requires Quiet(s) && s.now - s.lastCleanup <= CLEANUP_INTERVAL_NS
    ensures var t := Looked(s, id);
            var c := View(s);
            && View(t) == Probe(c, id, s.now)
            && t.now == s.now && t.lookups == s.lookups && t.over == s.over && t.sweep == s.sweep
            && (Hit(c, id, s.now) ==> t.flights == map[]
                                      && t.replies == s.replies + [Reply(id, c.entries[id].active, s.now, s.entries[id].from, s.entries[id].stampedAt)])
            && (!Hit(c, id, s.now) ==> t.flights == map[0 := Flight(id, Replacing(c, id, s.now), Replacing(c, id, s.now), Looking)]
                                       && id !in t.entries && t.replies == s.replies)
  {
    var l := Load(s, 0, id);
    ViewWithout(s, id);
    if id !in s.entries {
      assert l == s.(flights := map[0 := Flight(id, false, false, Looking)]);
      assert s.entries - {id} == s.entries;
    } else {
      assert l == s.(flights := map[0 := Flight(id, false, false, Loaded(s.entries[id]))]);
      if s.now < s.entries[id].expiresAt {
        assert l.flights - {0} == map[];
      } else {
        assert Judge(l, 0) == s.(flights := map[0 := Flight(id, false, false, Evicting)]);
      }
    }
  }

  lemma AloneIdle(ttl: nat, s: State, l: Lookup)
    requires s.flights == map[]
    ensures Add(Put(Stamp(Check(LookUp(s, 0, l), 0), ttl, 0), 0), 0) == s
  {
  }

  lemma AloneStores(ttl: nat, s: State, id: string, replacing: bool, call: Call)
    requires s.flights == map[0 := Flight(id, replacing, replacing, Looking)] && id !in s.entries && s.now == call.end && id == call.id
    ensures var s' := Add(Put(Stamp(Check(LookUp(s, 0, call.lookup), 0), ttl, 0), 0), 0);
            && s'.flights == map[] && s'.sweep == s.sweep && s'.replies == s.replies + [Reply(id, Answer(call.lookup), s.now, |s.lookups|, s.now)]
            && View(s') == Store(View(s), ttl, |s.lookups|, call, replacing)
  {
    var m := |s.lookups|;
    var u := LookUp(s, 0, call.lookup);
    assert u.entries == s.entries && u.size == s.size && u.lastCleanup == s.lastCleanup && u.sweep == s.sweep && u.now == s.now;
    assert u.replies == s.replies + [Reply(id, Answer(call.lookup), s.now, m, s.now)] && |u.lookups| == m + 1;
    if call.lookup.Failed? {
      assert u.flights == map[] && u.over == s.over + One(replacing);
      hide LookUp;
    } else {
      assert u.flights == map[0 := Flight(id, replacing, replacing, Checking(m))] && u.lookups[m].lookup == call.lookup && u.over == s.over;
      hide LookUp, Answer;
      CheckedStores(ttl, u, id, replacing, m, call);
    }
  }

  lemma CheckedStores(ttl: nat, u: State, id: string, replacing: bool, m: nat, call: Call)
    requires u.flights == map[0 := Flight(id, replacing, replacing, Checking(m))] && m < |u.lookups| && u.lookups[m].lookup == call.lookup
    requires id !in u.entries && u.now == call.end && id == call.id && !call.lookup.Failed?
    ensures var s' := Add(Put(Stamp(Check(u, 0), ttl, 0), 0), 0);
            && s'.flights == map[] && s'.sweep == u.sweep && s'.replies == u.replies
            && View(s') == Store(View(u), ttl, m, call, replacing)
  {
    hide Answer;
    var e := Stored(Answer(call.lookup), u.now + ttl, m, u.now);
    var v := Stamp(Check(u, 0), ttl, 0);
    if replacing || u.size < MAX_SIZE {
      assert v == u.(flights := map[0 := Flight(id, replacing, replacing, Stamped(e))]);
      hide Check, Stamp;
      var w := Put(v, 0);
      assert w.entries == u.entries[id := e];
      assert View(u.(entries := u.entries[id := e])).entries == View(u).entries[id := EntryView(e)];
      if replacing {
        assert w == u.(entries := u.entries[id := e], flights := map[]);
      } else {
        assert w == u.(entries := u.entries[id := e], flights := map[0 := Flight(id, replacing, replacing, Adding(true))]);
      }
      hide Put;
    } else {
      assert Check(u, 0) == u.(flights := map[]);
      assert v == Check(u, 0);
    }
  }

  /**
   Alone, and with no sweep due, a call is the call of the serial model: the
   same entries, counter and answer.
   */
  lemma AloneIsSerial(ttl: nat, s: State, call: Call)
    requires Quiet(s) && s.now == call.start && s.now - s.lastCleanup <= CLEANUP_INTERVAL_NS
    ensures var s' := Alone(ttl, s, call);
            && Quiet(s') && |s'.replies| == |s.replies| + 1
            && (View(s'), s'.replies[|s.replies|].active) == IsAccountActive(View(s), ttl, |s.lookups|, call)
  {
    hide Load, Judge, Evict, LookUp, Check, Stamp, Put, Add, Store, Answer;
    LookedIsProbe(s, call.id);
    var t := Looked(s, call.id).(now := call.end);
    assert View(t) == View(Looked(s, call.id));
    if Hit(View(s), call.id, call.start) {
      AloneIdle(ttl, t, call.lookup);
    } else {
      AloneStores(ttl, t, call.id, Replacing(View(s), call.id, call.start), call);
    }
  }

  /** Expired at the sweep's time. */
  function Overdue(s: State, t: int): set<string> {
    set k | k in s.entries && t > s.entries[k].expiresAt
  }

  /** The sweep alone is the sweep of the serial model. */
  lemma SweepIsSerial(ttl: nat, s: State) returns (acts: seq<Action>)
    requires Quiet(s) && s.size >= |s.entries| && s.now - s.lastCleanup > CLEANUP_INTERVAL_NS
    ensures var s' := Steps(ttl, s, acts); Quiet(s') && View(s') == Cleaned(View(s), s.now)
  {
    hide Steps, Step;
    acts := [ASweepStart];
    StepsNone(ttl, s);
    StepsNext(ttl, s, [], ASweepStart);
    assert [] + [ASweepStart] == [ASweepStart];
    SweepStarts(ttl, s);
    var t := Steps(ttl, s, acts);
    while Overdue(t, s.now) != {}
      invariant t == Steps(ttl, s, acts)
      invariant t.flights == map[] && t.sweep == Scanning(s.now) && t.now == s.now && t.over == s.over
      invariant t.size - |t.entries| == s.size - |s.entries| && t.size >= |t.entries|
      invariant t.entries.Keys <= s.entries.Keys && forall k | k in t.entries :: t.entries[k] == s.entries[k]
      invariant forall k | k in s.entries && s.now <= s.entries[k].expiresAt :: k in t.entries
      decreases |t.entries|
    {
      var k :| k in Overdue(t, s.now);
      StepsNext(ttl, s, acts, ASweepSee(k));
      StepsNext(ttl, s, acts + [ASweepSee(k)], ASweepDelete);
      StepsNext(ttl, s, acts + [ASweepSee(k)] + [ASweepDelete], ASweepCount);
      StepsNext(ttl, s, acts + [ASweepSee(k)] + [ASweepDelete] + [ASweepCount], ASweepClamp);
      SweepsOne(ttl, t, k);
      acts := acts + [ASweepSee(k)] + [ASweepDelete] + [ASweepCount] + [ASweepClamp];
      t := Steps(ttl, s, acts);
    }
    StepsNext(ttl, s, acts, ASweepEnd);
    acts := acts + [ASweepEnd];
    SweepEnds(ttl, s, t);
  }

  lemma SweepStarts(ttl: nat, s: State)
    requires Quiet(s) && s.now - s.lastCleanup > CLEANUP_INTERVAL_NS
    ensures Step(ttl, s, ASweepStart) == s.(sweep := Scanning(s.now))
  {
  }

  lemma SweepsOne(ttl: nat, t: State, k: string)
    requires t.sweep.Scanning? && k in Overdue(t, t.sweep.t) && t.size >= |t.entries|
    ensures var u := Step(ttl, Step(ttl, Step(ttl, Step(ttl, t, ASweepSee(k)), ASweepDelete), ASweepCount), ASweepClamp);
            u == t.(entries := t.entries - {k}, size := t.size - 1) && |u.entries| == |t.entries| - 1
  {
    EntryGone(t.entries, k);
    assert t.size >= 1;
    var u2 := SweepDelete(SweepSee(t, k));
    assert u2 == t.(entries := t.entries - {k}, sweep := Deleted(t.sweep.t, true));
    hide SweepSee, SweepDelete;
  }

  lemma SweepEnds(ttl: nat, s: State, t: State)
    requires Quiet(s) && s.now - s.lastCleanup > CLEANUP_INTERVAL_NS
    requires t.flights == map[] && t.sweep == Scanning(s.now) && t.now == s.now && t.over == s.over
    requires t.size - |t.entries| == s.size - |s.entries| && Overdue(t, s.now) == {}
    requires t.entries.Keys <= s.entries.Keys && forall k | k in t.entries :: t.entries[k] == s.entries[k]
    requires forall k | k in s.entries && s.now <= s.entries[k].expiresAt :: k in t.entries
    ensures var u := Step(ttl, t, ASweepEnd); Quiet(u) && View(u) == Cleaned(View(s), s.now)
  {
    forall k | k in t.entries ensures s.now <= t.entries[k].expiresAt { assert k !in Overdue(t, s.now); }
    var kept := Unexpired(View(s).entries, s.now);
    assert kept == View(t).entries;
    ViewSize(s);
    ViewSize(t);
  }

  lemma ViewSize(s: State)
    ensures |View(s).entries| == |s.entries|
  {
    assert View(s).entries.Keys == s.entries.Keys;
    assert |s.entries| == |s.entries.Keys| && |View(s).entries| == |View(s).entries.Keys|;
  }
}
