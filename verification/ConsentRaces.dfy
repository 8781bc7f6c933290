/**
 Calls of the consent service (internal/oauth2/service/consent_service.go) as
 concurrent requests make them: every cache or database operation is a step of
 its own, and steps of different requests interleave.
 */
module ConsentRaces {
  import opened Common
  import opened ConsentCache

  /** A request between two steps: a read before the database, then before its write-back; a change before its cache writes. */
  datatype Flight =
    | ToLoad(k: Key)
    | ToWriteBack(k: Key, scopes: seq<string>)
    | ToPut(k: Key, scopes: seq<string>)
    | ToPutBriefly(k: Key, scopes: seq<string>)
    | ToDrop(k: Key)
    | ToMark(k: Key)

  datatype World = World(s: State, flights: map<nat, Flight>)

  datatype Event =
    | ALook(rid: nat, k: Key, readOk: bool)
    | ALoad(rid: nat, dbOk: bool)
    | AWriteBack(rid: nat, w: Write)
    | ASaveRow(rid: nat, k: Key, scopes: seq<string>, c: Commit)
    | ADeleteRow(rid: nat, k: Key, c: Commit)
    | AFirst(rid: nat, w: Write)
    | AFallback(rid: nat, w: Write)
    | ADropped(keys: set<Key>)
    | ACorrupted(k: Key)
    | APassed(ms: nat)

  function End(w: World, rid: nat): World {
    w.(flights := w.flights - {rid})
  }

  /** What a read answers from the cache, if it does. */
  function CacheReply(s: State, k: Key, readOk: bool): Option<Reply> {
    if readOk && Live(s, k) && s.cache[k].body.Positive? then Some(Found(s.cache[k].body.scopes)) else None
  }

  function Look(w: World, rid: nat, k: Key, readOk: bool): World {
    if rid in w.flights || CacheReply(w.s, k, readOk).Some? then w else w.(flights := w.flights[rid := ToLoad(k)])
  }

  function Load(w: World, rid: nat, dbOk: bool): World {
    if rid !in w.flights || !w.flights[rid].ToLoad? then w
    else
      var k := w.flights[rid].k;
      if dbOk && k in w.s.db then w.(flights := w.flights[rid := ToWriteBack(k, w.s.db[k])]) else End(w, rid)
  }

  function WriteBack(w: World, rid: nat, back: Write): World {
    if rid !in w.flights || !w.flights[rid].ToWriteBack? then w
    else
      var f := w.flights[rid];
      End(w.(s := Put(w.s, f.k, Positive(f.scopes), CONSENT_TTL_MS, back)), rid)
  }

  function SaveRow(w: World, rid: nat, k: Key, scopes: seq<string>, c: Commit): World {
    if rid in w.flights || c.RolledBack? then w
    else
      var w' := w.(s := w.s.(db := w.s.db[k := scopes]));
      if c.Committed? then w'.(flights := w.flights[rid := ToPut(k, scopes)]) else w'
  }

  function DeleteRow(w: World, rid: nat, k: Key, c: Commit): World {
    if rid in w.flights || c.RolledBack? || k !in w.s.db then w
    else
      var w' := w.(s := w.s.(db := w.s.db - {k}));
      if c.Committed? then w'.(flights := w.flights[rid := ToDrop(k)]) else w'
  }

  /** The cache write after a commit, and the one that follows if it reports an error. */
  function First(w: World, rid: nat, first: Write): World {
    if rid !in w.flights then w
    else
      match w.flights[rid]
      case ToPut(k, scopes) =>
        var w' := w.(s := Put(w.s, k, Positive(scopes), CONSENT_TTL_MS, first));
        if first.Done? then End(w', rid) else w'.(flights := w.flights[rid := ToPutBriefly(k, scopes)])
      case ToDrop(k) =>
        var w' := w.(s := Drop(w.s, {k}, first));
        if first.Done? then End(w', rid) else w'.(flights := w.flights[rid := ToMark(k)])
      case _ => w
  }

  function Fallback(w: World, rid: nat, fallback: Write): World {
    if rid !in w.flights then w
    else
      match w.flights[rid]
      case ToPutBriefly(k, scopes) => End(w.(s := Put(w.s, k, Positive(scopes), FALLBACK_TTL_MS, fallback)), rid)
      case ToMark(k) => End(w.(s := Put(w.s, k, Tombstone, FALLBACK_TTL_MS, fallback)), rid)
      case _ => w
  }

  /** Entries dropped: evictions, and the sweep of an account. */
  function Move(w: World, a: Event): World {
    match a
    case ALook(rid, k, readOk) => Look(w, rid, k, readOk)
    case ALoad(rid, dbOk) => Load(w, rid, dbOk)
    case AWriteBack(rid, back) => WriteBack(w, rid, back)
    case ASaveRow(rid, k, scopes, c) => SaveRow(w, rid, k, scopes, c)
    case ADeleteRow(rid, k, c) => DeleteRow(w, rid, k, c)
    case AFirst(rid, first) => First(w, rid, first)
    case AFallback(rid, fallback) => Fallback(w, rid, fallback)
    case ADropped(keys) => w.(s := ConsentCache.Step(w.s, AEvict(keys)))
    case ACorrupted(k) => w.(s := ConsentCache.Step(w.s, ACorrupt(k)))
    case APassed(ms) => w.(s := ConsentCache.Step(w.s, ATick(ms)))
  }

  function Moves(w: World, acts: seq<Event>): World {
    if acts == [] then w else Move(Moves(w, acts[..|acts| - 1]), acts[|acts| - 1])
  }

  // ----- a call nobody interrupts is the call of ConsentCache -----

  lemma GetAlone(w: World, rid: nat, k: Key, readOk: bool, dbOk: bool, back: Write)
    requires rid !in w.flights
    ensures var w' := Move(Move(Move(w, ALook(rid, k, readOk)), ALoad(rid, dbOk)), AWriteBack(rid, back));
            && w'.s == Get(w.s, k, readOk, dbOk, back).0 && w'.flights == w.flights
            && Get(w.s, k, readOk, dbOk, back).1 ==
                 if CacheReply(w.s, k, readOk).Some? then CacheReply(w.s, k, readOk).value else if dbOk then DbReply(w.s, k) else Failed
  {
  }

  lemma SaveAlone(w: World, rid: nat, k: Key, scopes: seq<string>, c: Commit, first: Write, fallback: Write)
    requires rid !in w.flights
    ensures var w' := Move(Move(Move(w, ASaveRow(rid, k, scopes, c)), AFirst(rid, first)), AFallback(rid, fallback));
            w'.s == Save(w.s, k, scopes, c, first, fallback) && w'.flights == w.flights
  {
  }

  lemma DeleteAlone(w: World, rid: nat, k: Key, c: Commit, first: Write, fallback: Write)
    requires rid !in w.flights
    ensures var w' := Move(Move(Move(w, ADeleteRow(rid, k, c)), AFirst(rid, first)), AFallback(rid, fallback));
            w'.s == Delete(w.s, k, c, first, fallback) && w'.flights == w.flights
  {
  }

  // ----- which step leaves a stale consent -----

  predicate Changing(f: Flight) {
    f.ToPut? || f.ToPutBriefly? || f.ToDrop? || f.ToMark?
  }

  /** A committed change of the key has its cache write before it. */
  predicate Pending(flights: map<nat, Flight>, k: Key) {
    exists rid | rid in flights :: Changing(flights[rid]) && flights[rid].k == k
  }

  predicate SettledAt(w: World, k: Key) {
    Agrees(w.s, k) || Pending(w.flights, k)
  }

  /** No key disagrees with the database but while a change of it is on its way to the cache. */
  ghost predicate Settled(w: World) {
    forall k :: SettledAt(w, k)
  }

  /** The database no longer holds what a request is about to cache. */
  predicate Outdated(s: State, k: Key, scopes: seq<string>) {
    k !in s.db || s.db[k] != scopes
  }

  predicate Shows(s: State, k: Key) {
    Live(s, k) && s.cache[k].body.Positive?
  }

  /** What the step caches is outdated, or what it failed to replace is; and no other change is on its way. */
  predicate Spoils(w: World, a: Event) {
    match a
    case AWriteBack(rid, back) =>
      && rid in w.flights && w.flights[rid].ToWriteBack? && !back.Lost?
      && Outdated(w.s, w.flights[rid].k, w.flights[rid].scopes) && !Pending(w.flights, w.flights[rid].k)
    case ASaveRow(rid, k, scopes, c) =>
      && rid !in w.flights && c.CommitUnconfirmed?
      && Shows(w.s, k) && w.s.cache[k].body.scopes != scopes && !Pending(w.flights, k)
    case ADeleteRow(rid, k, c) =>
      && rid !in w.flights && c.CommitUnconfirmed? && k in w.s.db
      && Shows(w.s, k) && !Pending(w.flights, k)
    case AFirst(rid, first) =>
      && rid in w.flights && w.flights[rid].ToPut? && first.Done?
      && Outdated(w.s, w.flights[rid].k, w.flights[rid].scopes) && !Pending(w.flights - {rid}, w.flights[rid].k)
    case AFallback(rid, fallback) =>
      && rid in w.flights && (w.flights[rid].ToPutBriefly? || w.flights[rid].ToMark?)
      && !Pending(w.flights - {rid}, w.flights[rid].k)
      && (if fallback.Lost? then !Agrees(w.s, w.flights[rid].k)
          else w.flights[rid].ToPutBriefly? && Outdated(w.s, w.flights[rid].k, w.flights[rid].scopes))
    case _ => false
  }

  /** The key a step is about. */
  function KeyOf(w: World, a: Event): Option<Key> {
    match a
    case ALook(_, k, _) => Some(k)
    case ASaveRow(_, k, _, _) => Some(k)
    case ADeleteRow(_, k, _) => Some(k)
    case ALoad(rid, _) => if rid in w.flights then Some(w.flights[rid].k) else None
    case AWriteBack(rid, _) => if rid in w.flights then Some(w.flights[rid].k) else None
    case AFirst(rid, _) => if rid in w.flights then Some(w.flights[rid].k) else None
    case AFallback(rid, _) => if rid in w.flights then Some(w.flights[rid].k) else None
    case _ => None
  }

  predicate SameRow(s: State, s': State, j: Key) {
    && s'.now == s.now
    && (j in s'.db <==> j in s.db) && (j in s.db ==> s'.db[j] == s.db[j])
    && (j in s'.cache <==> j in s.cache) && (j in s.cache ==> s'.cache[j] == s.cache[j])
  }

  /** One request moves, at its own key. */
  ghost predicate OnlyAt(flights: map<nat, Flight>, flights': map<nat, Flight>, rid: nat, k: Key) {
    && (forall r | r != rid :: (r in flights' <==> r in flights) && (r in flights ==> flights'[r] == flights[r]))
    && (rid in flights ==> flights[rid].k == k) && (rid in flights' ==> flights'[rid].k == k)
  }

  lemma RowsElsewhere(w: World, a: Event)
    requires KeyOf(w, a).Some?
    ensures forall j | j != KeyOf(w, a).value :: SameRow(w.s, Move(w, a).s, j)
  {
  }

  lemma MovesOnlyAt(w: World, a: Event)
    requires KeyOf(w, a).Some? && (a.ALook? || a.ASaveRow? || a.ADeleteRow? ==> a.rid !in w.flights)
    ensures OnlyAt(w.flights, Move(w, a).flights, a.rid, KeyOf(w, a).value)
  {
    hide Put, Drop, Live;
  }

  lemma PendingElsewhere(flights: map<nat, Flight>, flights': map<nat, Flight>, rid: nat, k: Key, j: Key)
    requires OnlyAt(flights, flights', rid, k) && j != k
    ensures Pending(flights', j) <==> Pending(flights, j)
  {
    if Pending(flights, j) {
      var r :| r in flights && Changing(flights[r]) && flights[r].k == j;
      assert r in flights' && flights'[r] == flights[r];
    }
    if Pending(flights', j) {
      var r :| r in flights' && Changing(flights'[r]) && flights'[r].k == j;
      assert r in flights && flights'[r] == flights[r];
    }
  }

  /** At the step's own key. */
  lemma PendingHere(flights: map<nat, Flight>, flights': map<nat, Flight>, rid: nat, k: Key)
    requires OnlyAt(flights, flights', rid, k)
    ensures Pending(flights', k) <==> Pending(flights - {rid}, k) || (rid in flights' && Changing(flights'[rid]))
    ensures Pending(flights, k) <==> Pending(flights - {rid}, k) || (rid in flights && Changing(flights[rid]))
  {
    var others := flights - {rid};
    if Pending(flights', k) {
      var r :| r in flights' && Changing(flights'[r]) && flights'[r].k == k;
      assert r != rid ==> r in others && others[r] == flights'[r];
    }
    if Pending(flights, k) {
      var r :| r in flights && Changing(flights[r]) && flights[r].k == k;
      assert r != rid ==> r in others && others[r] == flights[r];
    }
    if Pending(others, k) {
      var r :| r in others && Changing(others[r]) && others[r].k == k;
      assert r in flights && flights[r] == others[r] && r in flights' && flights'[r] == others[r];
    }
  }

  /** What a step makes of agreement and of pending changes at its own key. */
  lemma SettledHere(w: World, a: Event, k: Key)
    requires SettledAt(w, k) && KeyOf(w, a) == Some(k) && (a.ALook? || a.ASaveRow? || a.ADeleteRow? ==> a.rid !in w.flights)
    ensures SettledAt(Move(w, a), k) <==> !Spoils(w, a)
  {
    MovesOnlyAt(w, a);
    PendingHere(w.flights, Move(w, a).flights, a.rid, k);
    hide Pending, OnlyAt;
  }

  /**
   The one kind of step after which a key disagrees with the database with no
   change of it on its way: exactly those that Spoils describes, told from the
   request's place, the database and the outcome.
   */
  lemma SettledExact(w: World, a: Event)
    requires Settled(w)
    ensures Settled(Move(w, a)) <==> !Spoils(w, a)
  {
    var w' := Move(w, a);
    if KeyOf(w, a).None? || ((a.ALook? || a.ASaveRow? || a.ADeleteRow?) && a.rid in w.flights) {
      StillSettled(w, a);
    } else {
      var k := KeyOf(w, a).value;
      assert SettledAt(w, k);
      SettledHere(w, a, k);
      MovesOnlyAt(w, a);
      RowsElsewhere(w, a);
      forall j | j != k ensures SettledAt(w', j) {
        assert SettledAt(w, j);
        PendingElsewhere(w.flights, w'.flights, a.rid, k, j);
        assert SameRow(w.s, w'.s, j);
        hide Pending, OnlyAt;
      }
      assert SettledAt(w', k) <==> !Spoils(w, a);
      hide SettledAt, Spoils, OnlyAt, Move;
    }
  }

  lemma StillSettled(w: World, a: Event)
    requires Settled(w)
    requires KeyOf(w, a).None? || ((a.ALook? || a.ASaveRow? || a.ADeleteRow?) && a.rid in w.flights)
    ensures Settled(Move(w, a)) && !Spoils(w, a)
  {
    hide Pending;
    forall j ensures SettledAt(Move(w, a), j) {
      assert SettledAt(w, j);
    }
  }

  ghost predicate NeverSpoils(w: World, acts: seq<Event>) {
    forall n | 0 <= n < |acts| :: !Spoils(Moves(w, acts[..n]), acts[n])
  }

  lemma {:induction false} RunSettled(w: World, acts: seq<Event>)
    requires Settled(w) && NeverSpoils(w, acts)
    ensures Settled(Moves(w, acts))
  {
    hide Move, Settled, Spoils;
    if acts != [] {
      var last := |acts| - 1;
      assert forall n | 0 <= n < last :: acts[..last][..n] == acts[..n] && acts[..last][n] == acts[n];
      RunSettled(w, acts[..last]);
      SettledExact(Moves(w, acts[..last]), acts[last]);
    }
  }

  /** In a run without such steps, a read finds what the database holds whenever no change of its key is half done. */
  lemma QuietReadsAgree(w: World, acts: seq<Event>, k: Key, readOk: bool)
    requires Settled(w) && NeverSpoils(w, acts) && !Pending(Moves(w, acts).flights, k)
    ensures var w' := Moves(w, acts);
            CacheReply(w'.s, k, readOk).Some? ==> CacheReply(w'.s, k, readOk).value == DbReply(w'.s, k)
  {
    hide Moves, Pending, NeverSpoils;
    RunSettled(w, acts);
    assert SettledAt(Moves(w, acts), k);
  }

  // ----- the write-back of a read -----

  /** What a step makes of the key in the database, if it changes it. */
  function Change(w: World, a: Event, k: Key): Option<Reply> {
    match a
    case ASaveRow(rid, j, scopes, c) => if j == k && rid !in w.flights && !c.RolledBack? then Some(Found(scopes)) else None
    case ADeleteRow(rid, j, c) => if j == k && rid !in w.flights && !c.RolledBack? && k in w.s.db then Some(NotFound) else None
    case _ => None
  }

  function LastChange(w: World, acts: seq<Event>, k: Key): Option<Reply> {
    if acts == [] then None
    else
      var last := Change(Moves(w, acts[..|acts| - 1]), acts[|acts| - 1], k);
      if last.Some? then last else LastChange(w, acts[..|acts| - 1], k)
  }

  /** The last of these steps to change the key leaves it otherwise. */
  predicate LeavesElse(w: World, acts: seq<Event>, k: Key, scopes: seq<string>) {
    LastChange(w, acts, k).Some? && LastChange(w, acts, k).value != Found(scopes)
  }

  lemma ChangeIsRow(w: World, a: Event, k: Key)
    ensures DbReply(Move(w, a).s, k) == if Change(w, a, k).Some? then Change(w, a, k).value else DbReply(w.s, k)
  {
    hide Live;
  }

  lemma {:induction false} LastChangeIsRow(w: World, acts: seq<Event>, k: Key)
    ensures DbReply(Moves(w, acts).s, k) == if LastChange(w, acts, k).Some? then LastChange(w, acts, k).value else DbReply(w.s, k)
  {
    hide Move, Change, DbReply;
    if acts != [] {
      LastChangeIsRow(w, acts[..|acts| - 1], k);
      ChangeIsRow(Moves(w, acts[..|acts| - 1]), acts[|acts| - 1], k);
    }
  }

  predicate OfRequest(a: Event, rid: nat) {
    !a.ADropped? && !a.ACorrupted? && !a.APassed? && a.rid == rid
  }

  lemma OthersSpare(w: World, a: Event, rid: nat)
    requires !OfRequest(a, rid) && rid in w.flights
    ensures rid in Move(w, a).flights && Move(w, a).flights[rid] == w.flights[rid]
  {
    hide Put, Drop, Live;
  }

  lemma {:induction false} RestSpare(w: World, acts: seq<Event>, rid: nat)
    requires rid in w.flights && forall n | 0 <= n < |acts| :: !OfRequest(acts[n], rid)
    ensures rid in Moves(w, acts).flights && Moves(w, acts).flights[rid] == w.flights[rid]
  {
    hide Move;
    if acts != [] {
      RestSpare(w, acts[..|acts| - 1], rid);
      OthersSpare(Moves(w, acts[..|acts| - 1]), acts[|acts| - 1], rid);
    }
  }

  /**
   A read loads its row, other requests run, the read writes back: the key then
   disagrees with the database if and only if a change of the key was committed
   in between and the last of them left something else.
   */
  lemma WriteBackExact(w: World, rid: nat, k: Key, acts: seq<Event>, back: Write)
    requires rid in w.flights && w.flights[rid] == ToLoad(k) && k in w.s.db && !back.Lost?
    requires forall n | 0 <= n < |acts| :: !OfRequest(acts[n], rid)
    ensures var loaded := Move(w, ALoad(rid, true));
            var before := Moves(loaded, acts);
            var stale := LeavesElse(loaded, acts, k, w.s.db[k]);
            && (!Agrees(Move(before, AWriteBack(rid, back)).s, k) <==> stale)
            && (Spoils(before, AWriteBack(rid, back)) <==> stale && !Pending(before.flights, k))
  {
    var loaded := Move(w, ALoad(rid, true));
    LastChangeIsRow(loaded, acts, k);
    RestSpare(loaded, acts, rid);
    hide Moves, LastChange, Pending;
  }

  // ----- how long it lasts -----

  /** The step touches the cached entry of the key. */
  predicate Touches(w: World, a: Event, k: Key) {
    match a
    case AWriteBack(rid, _) => KeyOf(w, a) == Some(k)
    case AFirst(rid, _) => KeyOf(w, a) == Some(k)
    case AFallback(rid, _) => KeyOf(w, a) == Some(k)
    case ADropped(keys) => k in keys
    case ACorrupted(j) => j == k
    case _ => false
  }

  ghost predicate Untouched(w: World, acts: seq<Event>, k: Key) {
    forall n | 0 <= n < |acts| :: !Touches(Moves(w, acts[..n]), acts[n], k)
  }

  lemma OneUntouched(w: World, a: Event, k: Key)
    requires !Touches(w, a, k)
    ensures var s' := Move(w, a).s; (k in s'.cache <==> k in w.s.cache) && (k in w.s.cache ==> s'.cache[k] == w.s.cache[k])
  {
    hide Live;
  }

  /** However the database changes, reads are answered from the entry until it expires. */
  lemma {:induction false} EntryAnswers(w: World, acts: seq<Event>, k: Key)
    requires k in w.s.cache && w.s.cache[k].body.Positive? && Untouched(w, acts, k)
    ensures var s' := Moves(w, acts).s;
            && k in s'.cache && s'.cache[k] == w.s.cache[k]
            && CacheReply(s', k, true) == if s'.now <= w.s.cache[k].expireAt then Some(Found(w.s.cache[k].body.scopes)) else None
  {
    hide Move, Touches;
    if acts != [] {
      var last := |acts| - 1;
      assert forall n | 0 <= n < last :: acts[..last][..n] == acts[..n] && acts[..last][n] == acts[n];
      EntryAnswers(w, acts[..last], k);
      OneUntouched(Moves(w, acts[..last]), acts[last], k);
    }
  }

  /**
   From every state in which a read is about to write back, with no change of the
   key under way: a save completes, the read writes the old row back, and the
   service answers it for 90 days.
   */
  lemma WriteBackRaces(w: World, r: nat, k: Key, before: seq<string>, q: nat, after: seq<string>)
    requires r in w.flights && w.flights[r] == ToWriteBack(k, before) && q !in w.flights && !Pending(w.flights, k) && before != after
    ensures var saved := Move(Move(w, ASaveRow(q, k, after, Committed)), AFirst(q, Done));
            var back := Move(saved, AWriteBack(r, Done));
            var later := Move(back, APassed(CONSENT_TTL_MS)).s;
            && saved.flights == w.flights && CacheReply(saved.s, k, true) == Some(Found(after))
            && Spoils(saved, AWriteBack(r, Done))
            && DbReply(later, k) == Found(after) && CacheReply(later, k, true) == Some(Found(before))
  {
    hide Pending;
    assert w.flights[q := ToPut(k, after)] - {q} == w.flights;
  }

  // ----- where a cached consent comes from -----

  /** After n steps the database held this for the key. */
  predicate HeldAt(w: World, acts: seq<Event>, n: nat, k: Key, scopes: seq<string>) {
    n <= |acts| && DbReply(Moves(w, acts[..n]).s, k) == Found(scopes)
  }

  predicate Carries(f: Flight) {
    f.ToWriteBack? || f.ToPut? || f.ToPutBriefly?
  }

  /** Every consent the cache shows, or that is on its way there, was in the database at some point of the run. */
  ghost predicate Held(w: World, acts: seq<Event>, w': World) {
    && (forall k | Shows(w'.s, k) :: exists n: nat :: HeldAt(w, acts, n, k, w'.s.cache[k].body.scopes))
    && (forall rid | rid in w'.flights && Carries(w'.flights[rid]) ::
          exists n: nat :: HeldAt(w, acts, n, w'.flights[rid].k, w'.flights[rid].scopes))
  }

  /** What the cache shows after a step, a request carried or it showed before; what a request carries, it did before or the database now holds. */
  lemma StepCarries(w: World, a: Event)
    ensures var w' := Move(w, a);
            && (forall k | Shows(w'.s, k) ::
                  (Shows(w.s, k) && w.s.cache[k].body == w'.s.cache[k].body)
                  || exists rid | rid in w.flights :: Carries(w.flights[rid]) && w.flights[rid].k == k && w.flights[rid].scopes == w'.s.cache[k].body.scopes)
            && (forall rid | rid in w'.flights && Carries(w'.flights[rid]) ::
                  || DbReply(w'.s, w'.flights[rid].k) == Found(w'.flights[rid].scopes)
                  || (rid in w.flights && Carries(w.flights[rid]) && w.flights[rid].k == w'.flights[rid].k && w.flights[rid].scopes == w'.flights[rid].scopes))
  {
  }

  lemma StillHeld(w: World, acts: seq<Event>, a: Event, n: nat, k: Key, scopes: seq<string>)
    requires HeldAt(w, acts, n, k, scopes)
    ensures HeldAt(w, acts + [a], n, k, scopes)
  {
    hide Moves;
    assert (acts + [a])[..n] == acts[..n];
  }

  lemma HoldsNow(w: World, acts: seq<Event>, k: Key, scopes: seq<string>)
    requires DbReply(Moves(w, acts).s, k) == Found(scopes)
    ensures HeldAt(w, acts, |acts|, k, scopes)
  {
    hide Moves;
    assert acts[..|acts|] == acts;
  }

  lemma {:induction false} RunHeld(w: World, acts: seq<Event>)
    requires w.flights == map[] && Coherent(w.s)
    ensures Held(w, acts, Moves(w, acts))
  {
    hide Move, HeldAt, Carries;
    if acts == [] {
      forall k | Shows(w.s, k) ensures HeldAt(w, acts, 0, k, w.s.cache[k].body.scopes) {
        assert Agrees(w.s, k);
        HoldsNow(w, acts, k, w.s.cache[k].body.scopes);
      }
    } else {
      RunHeld(w, acts[..|acts| - 1]);
      assert acts[..|acts| - 1] + [acts[|acts| - 1]] == acts;
      NextHeld(w, acts[..|acts| - 1], acts[|acts| - 1]);
    }
  }

  lemma NextHeld(w: World, acts: seq<Event>, a: Event)
    requires Held(w, acts, Moves(w, acts))
    ensures Held(w, acts + [a], Moves(w, acts + [a]))
  {
    var v, v' := Moves(w, acts), Moves(w, acts + [a]);
    assert (acts + [a])[..|acts|] == acts;
    assert v' == Move(v, a);
    hide Move, Moves, HeldAt, DbReply, Carries;
    StepCarries(v, a);
    forall n: nat, k, scopes | HeldAt(w, acts, n, k, scopes) ensures HeldAt(w, acts + [a], n, k, scopes) { StillHeld(w, acts, a, n, k, scopes); }
    forall rid | rid in v'.flights && Carries(v'.flights[rid])
      ensures exists n: nat :: HeldAt(w, acts + [a], n, v'.flights[rid].k, v'.flights[rid].scopes)
    {
      var f := v'.flights[rid];
      if DbReply(v'.s, f.k) == Found(f.scopes) {
        HoldsNow(w, acts + [a], f.k, f.scopes);
      } else {
        var n: nat :| HeldAt(w, acts, n, v.flights[rid].k, v.flights[rid].scopes);
        assert HeldAt(w, acts + [a], n, f.k, f.scopes);
      }
    }
    forall k | Shows(v'.s, k) ensures exists n: nat :: HeldAt(w, acts + [a], n, k, v'.s.cache[k].body.scopes) {
      if Shows(v.s, k) && v.s.cache[k].body == v'.s.cache[k].body {
        var n: nat :| HeldAt(w, acts, n, k, v.s.cache[k].body.scopes);
        assert HeldAt(w, acts + [a], n, k, v'.s.cache[k].body.scopes);
      } else {
        var rid :| rid in v.flights && Carries(v.flights[rid]) && v.flights[rid].k == k && v.flights[rid].scopes == v'.s.cache[k].body.scopes;
        var n: nat :| HeldAt(w, acts, n, v.flights[rid].k, v.flights[rid].scopes);
        assert HeldAt(w, acts + [a], n, k, v'.s.cache[k].body.scopes);
      }
    }
  }

  lemma {:induction false} MovesSplit(w: World, acts: seq<Event>, n: nat)
    requires n <= |acts|
    ensures Moves(w, acts) == Moves(Moves(w, acts[..n]), acts[n..])
  {
    hide Move;
    if n < |acts| {
      var last := |acts| - 1;
      MovesSplit(w, acts[..last], n);
      assert acts[..last][..n] == acts[..n] && acts[..last][n..] == acts[n..][..last - n];
    } else {
      assert acts[..n] == acts;
    }
  }

  /**
   In every run, however requests interleave and whatever fails: the cache shows a
   stale consent if and only if it shows one the database held at an earlier step
   and the last change of the key committed since then left something else.
   */
  lemma StaleExact(w: World, acts: seq<Event>, k: Key)
    requires w.flights == map[] && Coherent(w.s)
    ensures var s := Moves(w, acts).s;
            !Agrees(s, k) <==>
              Shows(s, k) && exists n: nat :: HeldAt(w, acts, n, k, s.cache[k].body.scopes)
                                              && LeavesElse(Moves(w, acts[..n]), acts[n..], k, s.cache[k].body.scopes)
  {
    hide Moves, LastChange;
    var s := Moves(w, acts).s;
    RunHeld(w, acts);
    if Shows(s, k) {
      forall n: nat | HeldAt(w, acts, n, k, s.cache[k].body.scopes)
        ensures LeavesElse(Moves(w, acts[..n]), acts[n..], k, s.cache[k].body.scopes) <==> !Agrees(s, k)
      {
        MovesSplit(w, acts, n);
        LastChangeIsRow(Moves(w, acts[..n]), acts[n..], k);
      }
    }
  }
}
