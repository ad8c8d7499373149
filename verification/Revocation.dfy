/**
 * The two revocation caches of the auth middleware (apps/backend/src/middlewares/auth.ts): the negative cache of the
 * token denylist and the cache of `sessions_valid_from`. Requests, lookups and revocations interleave freely; one state
 * machine serves both checks, and a policy says where they differ.
 */
module Revocation {
  import opened Wrappers

  type Key = nat // a token id for the denylist, a user id for sessions
  type Time = nat

  datatype Policy = Denylist | Sessions

  /** `value` is expires_at or sessions_valid_from, 0 when there is none. `readStep` is history: when the row was read. */
  datatype Entry = Entry(value: Time, cachedAt: Time, readStep: nat)
  type Cache = map<Key, Entry>

  const DENYLIST_NEG_CACHE_TTL_MS := 10_000
  const SESSIONS_CACHE_TTL_MS := 30_000
  const SWEEP_ABOVE := 10_000

  function Ttl(p: Policy): nat {
    if p == Denylist then DENYLIST_NEG_CACHE_TTL_MS else SESSIONS_CACHE_TTL_MS
  }

  /** What the database row says of a token issued at `iat` (in seconds). */
  predicate Denies(p: Policy, value: Time, iat: nat, now: Time) {
    match p
    case Denylist => value > now
    case Sessions => value > 0 && iat * 1000 < value
  }

  predicate Fresh(p: Policy, cache: Cache, k: Key, now: Time) {
    k in cache && now - cache[k].cachedAt < Ttl(p)
  }

  /** A hit on the denylist cache always admits: only "not denied" is ever stored there. */
  predicate HitDenies(p: Policy, value: Time, iat: nat) {
    p == Sessions && value > 0 && iat * 1000 < value
  }

  function Swept(cache: Cache, now: Time): Cache {
    map k | k in cache && cache[k].cachedAt >= now - DENYLIST_NEG_CACHE_TTL_MS :: cache[k]
  }

  /** Storing an answer; the denylist cache sweeps itself above its size limit (None: never). */
  function Store(p: Policy, limit: Option<nat>, cache: Cache, k: Key, value: Time, readStep: nat, now: Time): Cache {
    var stored := cache[k := Entry(value, now, readStep)];
    if p == Denylist && limit.Some? && |stored| > limit.value then Swept(stored, now) else stored
  }

  /** The answer is stored; of the others, a store above 10000 entries drops exactly those older than one TTL. */
  lemma StoreExact(p: Policy, limit: Option<nat>, cache: Cache, k: Key, value: Time, readStep: nat, now: Time, j: Key)
    ensures var after := Store(p, limit, cache, k, value, readStep, now);
      && k in after && after[k] == Entry(value, now, readStep)
      && (j != k ==> (j in after <==> j in cache && (p == Sessions || limit.None? || |cache[k := Entry(value, now, readStep)]| <= limit.value
                                                     || cache[j].cachedAt >= now - 10_000)))
      && (j != k && j in after ==> after[j] == cache[j])
  {
  }

  /** The denylist cache itself. */
  class NegCache {
    var cache: Cache

    constructor ()
      ensures cache == map[]
    {
      cache := map[];
    }

    method KnownNotDenied(k: Key, now: Time) returns (hit: bool)
      ensures hit == Fresh(Denylist, cache, k, now)
    {
      hit := k in cache && now - cache[k].cachedAt < DENYLIST_NEG_CACHE_TTL_MS;
    }

    /** What happens when the lookup answers: a denial is never stored. */
    method Answer(k: Key, expires: Time, readStep: nat, now: Time) returns (denied: bool)
      modifies this
      ensures denied == (expires > now)
      ensures cache == if denied then old(cache) else Store(Denylist, Some(SWEEP_ABOVE), old(cache), k, expires, readStep, now)
    {
      if expires > now {
        return true;
      }
      cache := cache[k := Entry(expires, now, readStep)];
      if |cache| > SWEEP_ABOVE {
        var cutoff := now - DENYLIST_NEG_CACHE_TTL_MS;
        var todo := cache.Keys;
        ghost var stored := cache;
        while todo != {}
          invariant todo <= stored.Keys
          invariant cache == map j | j in stored && (j in todo || stored[j].cachedAt >= cutoff) :: stored[j]
          decreases |todo|
        {
          var j :| j in todo;
          if cache[j].cachedAt < cutoff {
            cache := cache - {j};
          }
          todo := todo - {j};
        }
      }
      denied := false;
    }

    /** Logout drops the entry of its token, so the next check of the token is a lookup; the other entries stay. */
    method InvalidateDenylistCache(k: Key)
      modifies this
      ensures forall now :: !Fresh(Denylist, cache, k, now)
      ensures cache.Keys == old(cache).Keys - {k} && forall j :: j in cache ==> cache[j] == old(cache)[j]
      ensures forall st: State :: st.cache == old(cache) ==> Next(Denylist, None, st, Invalidate(k)).0.cache == cache
    {
      cache := cache - {k};
    }
  }

  // ---- The machine ----

  /** A lookup in flight: asked, or answered by the database but not yet resumed. */
  datatype Flight = Asked(k: Key, iat: nat) | Got(k: Key, iat: nat, value: Time, readStep: nat)

  /** `changed` is history: the step of the last revocation of each key. */
  datatype State = State(now: Time, step: nat, db: map<Key, Time>, changed: map<Key, nat>, cache: Cache,
                         flights: map<nat, Flight>)

  datatype Event =
    | Wait(ms: nat)
    | Check(id: nat, k: Key, iat: nat)   // a request reaches the check
    | Read(id: nat)                      // the database reads the row
    | Resume(id: nat)                    // the answer arrives
    | Fail(id: nat)                      // the lookup throws
    | Revoke(k: Key, lifetime: nat)      // the row is written
    | Invalidate(k: Key)

  datatype Out = Quiet | Accepted(k: Key, iat: nat) | Refused | Unavailable

  function Db(st: State, k: Key): Time {
    if k in st.db then st.db[k] else 0
  }

  function ChangedAt(st: State, k: Key): nat {
    if k in st.changed then st.changed[k] else 0
  }

  function Next(p: Policy, limit: Option<nat>, st: State, e: Event): (State, Out) {
    match e
    case Wait(ms) => (Ticked(st).(now := st.now + ms), Quiet)
    case Check(id, k, iat) => Checked(p, Ticked(st), id, k, iat)
    case Read(id) => (WithRead(Ticked(st), id), Quiet)
    case Resume(id) =>
      if id in st.flights && st.flights[id].Got? then Answered(p, limit, Landed(Ticked(st), id), st.flights[id])
      else (Ticked(st), Quiet)
    case Fail(id) => (Landed(Ticked(st), id), if id in st.flights then Unavailable else Quiet)
    case Revoke(k, lifetime) => (Revoked(p, Ticked(st), k, lifetime), Quiet)
    case Invalidate(k) => (Ticked(st).(cache := st.cache - {k}), Quiet)
  }

  function Ticked(st: State): State {
    st.(step := st.step + 1)
  }

  function Landed(st: State, id: nat): State {
    st.(flights := st.flights - {id})
  }

  function Checked(p: Policy, st: State, id: nat, k: Key, iat: nat): (State, Out) {
    if Fresh(p, st.cache, k, st.now) then
      (st, if HitDenies(p, st.cache[k].value, iat) then Refused else Accepted(k, iat))
    else if id in st.flights then (st, Quiet)
    else (st.(flights := st.flights[id := Asked(k, iat)]), Quiet)
  }

  function WithRead(st: State, id: nat): State {
    if id in st.flights && st.flights[id].Asked? then
      var f := st.flights[id];
      st.(flights := st.flights[id := Got(f.k, f.iat, Db(st, f.k), st.step)])
    else st
  }

  /** The denylist row is created once; the session stamp moves forward. */
  function Revoked(p: Policy, st: State, k: Key, lifetime: nat): State {
    if p == Denylist && k in st.db then st
    else st.(db := st.db[k := if p == Denylist then st.now + lifetime else st.now], changed := st.changed[k := st.step])
  }

  function Answered(p: Policy, limit: Option<nat>, st: State, f: Flight): (State, Out)
    requires f.Got?
  {
    if p == Denylist && Denies(p, f.value, f.iat, st.now) then (st, Refused)
    else
      (st.(cache := Store(p, limit, st.cache, f.k, f.value, f.readStep, st.now)),
       if Denies(p, f.value, f.iat, st.now) then Refused else Accepted(f.k, f.iat))
  }

  function Play(p: Policy, limit: Option<nat>, st: State, events: seq<Event>): State {
    if events == [] then st else Next(p, limit, Play(p, limit, st, events[..|events| - 1]), events[|events| - 1]).0
  }

  // ---- The bound ----

  /** A value that differs from the database was read before the last revocation. */
  ghost predicate ReadOk(st: State, k: Key, value: Time, readStep: nat) {
    readStep <= st.step && value <= Db(st, k) && (readStep >= ChangedAt(st, k) ==> value == Db(st, k))
  }

  ghost predicate Inv(p: Policy, st: State) {
    && RowsOk(p, st)
    && (forall k :: k in st.cache ==> EntryOk(p, st, k))
    && (forall id :: id in st.flights && st.flights[id].Got? ==> FlightOk(p, st, st.flights[id]))
  }

  ghost predicate EntryOk(p: Policy, st: State, k: Key)
    requires k in st.cache
  {
    var e := st.cache[k];
    && ReadOk(st, k, e.value, e.readStep) && e.cachedAt <= st.now
    && (p == Denylist ==> e.value <= e.cachedAt && (e.value > 0 ==> e.value == Db(st, k)))
  }

  ghost predicate FlightOk(p: Policy, st: State, f: Flight)
    requires f.Got?
  {
    ReadOk(st, f.k, f.value, f.readStep) && (p == Denylist && f.value > 0 ==> f.value == Db(st, f.k))
  }

  /** A fresh process, and nothing revoked yet. */
  function Boot(now: Time): State {
    State(now, 0, map[], map[], map[], map[])
  }

  lemma InitInv(p: Policy, now: Time)
    ensures Inv(p, Boot(now))
  {
  }

  lemma StoreFacts(p: Policy, limit: Option<nat>, cache: Cache, k: Key, value: Time, readStep: nat, now: Time, j: Key)
    ensures var after := Store(p, limit, cache, k, value, readStep, now);
      && (j == k ==> j in after && after[j] == Entry(value, now, readStep))
      && (j != k && j in after ==> j in cache && after[j] == cache[j])
      && (j != k && j in cache && j !in after ==> p == Denylist && limit.Some? && now - cache[j].cachedAt >= Ttl(p))
  {
  }

  /** Time and rows only move forward, and a row that changes is marked with the new step. */
  ghost predicate Forward(p: Policy, st: State, st': State) {
    && st.now <= st'.now && st.step < st'.step
    && forall k :: RowForward(p, st, st', k)
  }

  ghost predicate RowForward(p: Policy, st: State, st': State, k: Key) {
    && Db(st, k) <= Db(st', k)
    && (p == Denylist && Db(st, k) > 0 ==> Db(st', k) == Db(st, k))
    && (if ChangedAt(st', k) == ChangedAt(st, k) then Db(st', k) == Db(st, k) else ChangedAt(st', k) == st'.step)
  }

  ghost predicate RowsOk(p: Policy, st: State) {
    && (forall k :: k in st.db ==> ChangedAt(st, k) <= st.step && (p == Sessions ==> st.db[k] <= st.now))
    && (forall k :: k !in st.db ==> k !in st.changed)
  }

  lemma OnlyRevokeWrites(p: Policy, limit: Option<nat>, st: State, e: Event)
    ensures var st' := Next(p, limit, st, e).0;
      && st'.now == (if e.Wait? then st.now + e.ms else st.now) && st'.step == st.step + 1
      && (!e.Revoke? ==> st'.db == st.db && st'.changed == st.changed)
  {
    hide Store, Fresh, Denies;
  }

  lemma RevokeForward(p: Policy, st: State, k: Key, lifetime: nat)
    requires RowsOk(p, st)
    ensures var st' := Revoked(p, Ticked(st), k, lifetime); Forward(p, st, st') && RowsOk(p, st')
  {
    var st' := Revoked(p, Ticked(st), k, lifetime);
    forall j ensures RowForward(p, st, st', j) {
    }
  }

  lemma StepForward(p: Policy, limit: Option<nat>, st: State, e: Event)
    requires RowsOk(p, st)
    ensures Forward(p, st, Next(p, limit, st, e).0) && RowsOk(p, Next(p, limit, st, e).0)
  {
    OnlyRevokeWrites(p, limit, st, e);
    if e.Revoke? {
      RevokeForward(p, st, e.k, e.lifetime);
    } else {
      SameRows(p, st, Next(p, limit, st, e).0);
    }
  }

  lemma SameRows(p: Policy, st: State, st': State)
    requires RowsOk(p, st) && st'.db == st.db && st'.changed == st.changed && st.now <= st'.now && st.step < st'.step
    ensures Forward(p, st, st') && RowsOk(p, st')
  {
  }

  lemma EntryMoves(p: Policy, st: State, st': State, k: Key)
    requires Forward(p, st, st') && k in st.cache && EntryOk(p, st, k) && k in st'.cache && st'.cache[k] == st.cache[k]
    ensures EntryOk(p, st', k)
  {
    assert RowForward(p, st, st', k);
  }

  lemma FlightMoves(p: Policy, st: State, st': State, f: Flight)
    requires Forward(p, st, st') && f.Got? && FlightOk(p, st, f)
    ensures FlightOk(p, st', f)
  {
    assert RowForward(p, st, st', f.k);
  }

  lemma EntryAfter(p: Policy, limit: Option<nat>, st: State, e: Event, k: Key)
    requires Inv(p, st) && Forward(p, st, Next(p, limit, st, e).0) && k in Next(p, limit, st, e).0.cache
    ensures EntryOk(p, Next(p, limit, st, e).0, k)
  {
    hide Store, Forward, EntryOk, FlightOk, Fresh;
    var st' := Next(p, limit, st, e).0;
    if e.Resume? && e.id in st.flights && st.flights[e.id].Got? {
      var f := st.flights[e.id];
      FlightMoves(p, st, st', f);
      StoreFacts(p, limit, st.cache, f.k, f.value, f.readStep, st.now, k);
      if k in st.cache && st'.cache[k] == st.cache[k] {
        EntryMoves(p, st, st', k);
      } else {
        NewEntryOk(p, st', k, f);
      }
    } else {
      EntryMoves(p, st, st', k);
    }
  }

  lemma NewEntryOk(p: Policy, st: State, k: Key, f: Flight)
    requires f.Got? && f.k == k && FlightOk(p, st, f) && !(p == Denylist && Denies(p, f.value, f.iat, st.now))
    requires k in st.cache && st.cache[k] == Entry(f.value, st.now, f.readStep)
    ensures EntryOk(p, st, k)
  {
  }

  lemma FlightAfter(p: Policy, limit: Option<nat>, st: State, e: Event, id: nat)
    requires Inv(p, st) && Forward(p, st, Next(p, limit, st, e).0)
    requires id in Next(p, limit, st, e).0.flights && Next(p, limit, st, e).0.flights[id].Got?
    ensures FlightOk(p, Next(p, limit, st, e).0, Next(p, limit, st, e).0.flights[id])
  {
    hide Store, Forward, EntryOk, FlightOk, Fresh, Denies;
    var st' := Next(p, limit, st, e).0;
    if id in st.flights && st.flights[id] == st'.flights[id] {
      FlightMoves(p, st, st', st.flights[id]);
    } else {
      NewFlightOk(p, st, Ticked(st), id);
    }
  }

  lemma NewFlightOk(p: Policy, st: State, ticked: State, id: nat)
    requires RowsOk(p, st) && ticked == Ticked(st) && id in st.flights && st.flights[id].Asked?
    ensures FlightOk(p, WithRead(ticked, id), WithRead(ticked, id).flights[id])
  {
  }

  lemma StepKeepsInv(p: Policy, limit: Option<nat>, st: State, e: Event)
    requires Inv(p, st)
    ensures Inv(p, Next(p, limit, st, e).0)
  {
    hide Next, Forward, EntryOk, FlightOk, RowsOk;
    StepForward(p, limit, st, e);
    var st' := Next(p, limit, st, e).0;
    forall k | k in st'.cache ensures EntryOk(p, st', k) {
      EntryAfter(p, limit, st, e, k);
    }
    forall id | id in st'.flights && st'.flights[id].Got? ensures FlightOk(p, st', st'.flights[id]) {
      FlightAfter(p, limit, st, e, id);
    }
  }

  lemma {:induction false} RunKeepsInv(p: Policy, limit: Option<nat>, st: State, events: seq<Event>)
    requires Inv(p, st)
    ensures Inv(p, Play(p, limit, st, events))
  {
    hide Inv, Next;
    if events != [] {
      RunKeepsInv(p, limit, st, events[..|events| - 1]);
      StepKeepsInv(p, limit, Play(p, limit, st, events[..|events| - 1]), events[|events| - 1]);
    }
  }

  /**
   * The answer behind an acceptance was read before the last revocation, and stored less than a TTL ago (or just now).
   */
  ghost predicate StaleAnswer(p: Policy, st: State, e: Event, k: Key) {
    || (e.Check? && k in st.cache && st.cache[k].readStep < ChangedAt(st, k)
          && st.cache[k].cachedAt <= st.now < st.cache[k].cachedAt + Ttl(p))
    || (e.Resume? && e.id in st.flights && st.flights[e.id].Got? && st.flights[e.id].k == k
          && st.flights[e.id].readStep < ChangedAt(st, k))
  }

  /**
   * The bound, over every interleaving: if a revoked token is accepted, the answer came from a lookup that read the row
   * before the revocation, and was stored less than one TTL before.
   */
  lemma RevokedOnlyThroughStaleAnswer(p: Policy, limit: Option<nat>, st: State, events: seq<Event>, e: Event, k: Key,
                                      iat: nat)
    requires Inv(p, st)
    requires var at := Play(p, limit, st, events);
      Next(p, limit, at, e).1 == Accepted(k, iat) && Denies(p, Db(at, k), iat, at.now)
    ensures StaleAnswer(p, Play(p, limit, st, events), e, k)
  {
    hide Store, Play;
    RunKeepsInv(p, limit, st, events);
    var at := Play(p, limit, st, events);
    assert e.Check? || e.Resume?;
  }

  /** In particular from a fresh process on. */
  lemma FromBoot(p: Policy, limit: Option<nat>, now: Time, events: seq<Event>, e: Event, k: Key, iat: nat)
    requires var at := Play(p, limit, Boot(now), events);
      Next(p, limit, at, e).1 == Accepted(k, iat) && Denies(p, Db(at, k), iat, at.now)
    ensures StaleAnswer(p, Play(p, limit, Boot(now), events), e, k)
  {
    InitInv(p, now);
    RevokedOnlyThroughStaleAnswer(p, limit, Boot(now), events, e, k, iat);
  }

  /** Both caches admit the token of iat and key k only with answers the last revocation does not touch. */
  ghost predicate Harmless(p: Policy, st: State, k: Key, iat: nat, value: Time) {
    match p
    case Denylist => value == Db(st, k)
    case Sessions => Denies(Sessions, value, iat, 0)
  }

  /** No answer that could admit the revoked token is in flight, or cached later than `since`. */
  ghost predicate Sealed(p: Policy, st: State, k: Key, iat: nat, since: int) {
    && Db(st, k) > 0
    && (p == Sessions ==> Denies(p, Db(st, k), iat, st.now))
    && (forall id :: id in st.flights && st.flights[id].Got? && st.flights[id].k == k ==> Harmless(p, st, k, iat, st.flights[id].value))
    && (k in st.cache && st.cache[k].cachedAt > since ==>
          if p == Denylist then Db(st, k) <= st.cache[k].cachedAt else Harmless(p, st, k, iat, st.cache[k].value))
  }

  lemma StepKeepsSealed(p: Policy, limit: Option<nat>, st: State, e: Event, k: Key, iat: nat, since: int)
    requires Inv(p, st) && Sealed(p, st, k, iat, since)
    ensures Sealed(p, Next(p, limit, st, e).0, k, iat, since)
    ensures Next(p, limit, st, e).1 == Accepted(k, iat) && Denies(p, Db(st, k), iat, st.now) ==> 0 <= since && st.now < since + Ttl(p)
  {
    hide ReadOk, RowsOk, RowForward, Answered, Checked;
    StepForward(p, limit, st, e);
    SealedRow(p, st, Next(p, limit, st, e).0, k, iat);
    if e.Check? {
      CheckedSealed(p, Ticked(st), e.id, e.k, e.iat, k, iat, since);
    } else if e.Resume? && e.id in st.flights && st.flights[e.id].Got? {
      AnsweredSealed(p, limit, Landed(Ticked(st), e.id), st.flights[e.id], k, iat, since);
    }
  }

  lemma CheckedSealed(p: Policy, st: State, id: nat, j: Key, iat': nat, k: Key, iat: nat, since: int)
    requires Sealed(p, st, k, iat, since) && (p == Denylist && k in st.cache ==> st.cache[k].cachedAt <= st.now)
    ensures Sealed(p, Checked(p, st, id, j, iat').0, k, iat, since)
    ensures Checked(p, st, id, j, iat').1 == Accepted(k, iat) && Denies(p, Db(st, k), iat, st.now) ==>
      0 <= since && st.now < since + Ttl(p)
  {
  }

  lemma AnsweredSealed(p: Policy, limit: Option<nat>, st: State, f: Flight, k: Key, iat: nat, since: int)
    requires Sealed(p, st, k, iat, since) && f.Got? && (f.k == k ==> Harmless(p, st, k, iat, f.value))
    ensures Sealed(p, Answered(p, limit, st, f).0, k, iat, since)
    ensures Answered(p, limit, st, f).1 == Accepted(k, iat) && Denies(p, Db(st, k), iat, st.now) ==> 0 <= since && st.now < since + Ttl(p)
  {
    hide Store;
    StoreFacts(p, limit, st.cache, f.k, f.value, f.readStep, st.now, k);
  }

  lemma SealedRow(p: Policy, st: State, st': State, k: Key, iat: nat)
    requires Forward(p, st, st') && Db(st, k) > 0 && (p == Sessions ==> Denies(p, Db(st, k), iat, st.now))
    ensures Db(st', k) > 0 && (p == Sessions ==> Denies(p, Db(st', k), iat, st'.now)) && (p == Denylist ==> Db(st', k) == Db(st, k))
  {
    assert RowForward(p, st, st', k);
  }

  lemma {:induction false} RunKeepsSealed(p: Policy, limit: Option<nat>, st: State, events: seq<Event>, k: Key,
                                          iat: nat, since: int)
    requires Inv(p, st) && Sealed(p, st, k, iat, since)
    ensures Sealed(p, Play(p, limit, st, events), k, iat, since)
  {
    hide Inv, Next, Sealed;
    if events != [] {
      var front := events[..|events| - 1];
      RunKeepsSealed(p, limit, st, front, k, iat, since);
      RunKeepsInv(p, limit, st, front);
      StepKeepsSealed(p, limit, Play(p, limit, st, front), events[|events| - 1], k, iat, since);
    }
  }

  /** Some continuation accepts the token at a moment when the database denies it. */
  ghost predicate CanSlipThrough(p: Policy, limit: Option<nat>, st: State, k: Key, iat: nat) {
    exists events, e :: SlipsThrough(p, limit, Play(p, limit, st, events), e, k, iat)
  }

  ghost predicate SlipsThrough(p: Policy, limit: Option<nat>, at: State, e: Event, k: Key, iat: nat) {
    Next(p, limit, at, e).1 == Accepted(k, iat) && Denies(p, Db(at, k), iat, at.now)
  }

  /** A lookup of this key whose answer is older than the revocation is still on its way. */
  ghost predicate StaleFlight(p: Policy, st: State, k: Key, iat: nat, id: nat) {
    id in st.flights && st.flights[id].Got? && st.flights[id].k == k && !Harmless(p, st, k, iat, st.flights[id].value)
  }

  /**
   * Invalidation is immediate exactly when no stale lookup is in flight: once the row is written and the entry dropped, a
   * revoked token can still be accepted by this process if and only if such a lookup has yet to return.
   */
  lemma InvalidationExact(p: Policy, limit: Option<nat>, st: State, k: Key, iat: nat)
    requires Inv(p, st) && Denies(p, Db(st, k), iat, st.now) && k !in st.cache
    ensures CanSlipThrough(p, limit, st, k, iat) <==> exists id :: StaleFlight(p, st, k, iat, id)
  {
    hide Inv, Next;
    if id :| StaleFlight(p, st, k, iat, id) {
      StaleFlightAdmits(p, limit, st, k, iat, id);
    } else {
      SealedAfterInvalidation(p, st, k, iat);
      forall events, e ensures !SlipsThrough(p, limit, Play(p, limit, st, events), e, k, iat) {
        RunKeepsSealed(p, limit, st, events, k, iat, -1);
        RunKeepsInv(p, limit, st, events);
        StepKeepsSealed(p, limit, Play(p, limit, st, events), e, k, iat, -1);
      }
    }
  }

  lemma SealedAfterInvalidation(p: Policy, st: State, k: Key, iat: nat)
    requires Denies(p, Db(st, k), iat, st.now) && k !in st.cache && !exists id :: StaleFlight(p, st, k, iat, id)
    ensures Sealed(p, st, k, iat, -1)
  {
    forall id | id in st.flights && st.flights[id].Got? && st.flights[id].k == k
      ensures Harmless(p, st, k, iat, st.flights[id].value)
    {
      assert !StaleFlight(p, st, k, iat, id);
    }
  }

  lemma OneStep(p: Policy, limit: Option<nat>, st: State, e: Event)
    ensures Play(p, limit, st, [e]) == Next(p, limit, st, e).0
  {
    assert [e][..0] == [];
    assert Play(p, limit, st, []) == st;
  }

  /** The stale answer is stored, and the next request of the token hits it. */
  lemma StaleFlightAdmits(p: Policy, limit: Option<nat>, st: State, k: Key, iat: nat, id: nat)
    requires Inv(p, st) && Denies(p, Db(st, k), iat, st.now) && StaleFlight(p, st, k, iat, id)
    ensures CanSlipThrough(p, limit, st, k, iat)
  {
    hide Store;
    var f := st.flights[id];
    StoreFacts(p, limit, st.cache, k, f.value, f.readStep, st.now, k);
    var events := [Resume(id)];
    OneStep(p, limit, st, Resume(id));
    var at := Play(p, limit, st, events);
    assert at.cache[k] == Entry(f.value, st.now, f.readStep);
    assert SlipsThrough(p, limit, at, Check(0, k, iat), k, iat);
  }

  /** A lookup of this key has been answered but has not returned, and its answer admits the token. */
  predicate AdmittingFlight(p: Policy, st: State, k: Key, iat: nat, id: nat) {
    id in st.flights && st.flights[id].Got? && st.flights[id].k == k && !Denies(p, st.flights[id].value, iat, st.now)
  }

  /** Some continuation accepts the revoked token this late. */
  ghost predicate CanSlipThroughAfter(p: Policy, limit: Option<nat>, st: State, k: Key, iat: nat, deadline: Time) {
    exists events, e :: SlipsThrough(p, limit, Play(p, limit, st, events), e, k, iat) && Play(p, limit, st, events).now >= deadline
  }

  /**
   * The documented window, with no invalidation at all (another replica). For a revocation that outlives the TTL, a revoked
   * token can be accepted one TTL after it or later if and only if, when the row was written, some lookup of the key had
   * been answered but had not yet returned.
   */
  lemma WindowExact(p: Policy, limit: Option<nat>, st: State, k: Key, lifetime: nat, iat: nat)
    requires Inv(p, st)
    requires Denies(p, Db(Next(p, limit, st, Revoke(k, lifetime)).0, k), iat, st.now + Ttl(p))
    ensures CanSlipThroughAfter(p, limit, Next(p, limit, st, Revoke(k, lifetime)).0, k, iat, st.now + Ttl(p))
      <==> exists id :: AdmittingFlight(p, st, k, iat, id)
  {
    hide Inv, Next, Play;
    var revoked := Next(p, limit, st, Revoke(k, lifetime)).0;
    if id :| AdmittingFlight(p, st, k, iat, id) {
      LateAnswerAdmits(p, limit, st, k, lifetime, iat, id);
    } else {
      OnlyRevokeWrites(p, limit, st, Revoke(k, lifetime));
      forall events, e | SlipsThrough(p, limit, Play(p, limit, revoked, events), e, k, iat)
        ensures Play(p, limit, revoked, events).now < st.now + Ttl(p)
      {
        WindowAfterRevocation(p, limit, st, k, lifetime, iat, events, e);
      }
    }
  }

  /** Within the window, if nothing was pending. */
  lemma WindowAfterRevocation(p: Policy, limit: Option<nat>, st: State, k: Key, lifetime: nat, iat: nat,
                              events: seq<Event>, e: Event)
    requires Inv(p, st) && !exists id :: AdmittingFlight(p, st, k, iat, id)
    requires var revoked := Next(p, limit, st, Revoke(k, lifetime)).0;
      && Denies(p, Db(revoked, k), iat, revoked.now)
      && SlipsThrough(p, limit, Play(p, limit, revoked, events), e, k, iat)
    ensures var revoked := Next(p, limit, st, Revoke(k, lifetime)).0;
      Play(p, limit, revoked, events).now < st.now + Ttl(p)
  {
    hide Inv, Next, Play, Sealed;
    var revoked := Next(p, limit, st, Revoke(k, lifetime)).0;
    StepKeepsInv(p, limit, st, Revoke(k, lifetime));
    SealedByRevocation(p, limit, st, k, lifetime, iat);
    RunKeepsSealed(p, limit, revoked, events, k, iat, st.now);
    RunKeepsInv(p, limit, revoked, events);
    StepKeepsSealed(p, limit, Play(p, limit, revoked, events), e, k, iat, st.now);
  }

  lemma SealedByRevocation(p: Policy, limit: Option<nat>, st: State, k: Key, lifetime: nat, iat: nat)
    requires Inv(p, st) && !exists id :: AdmittingFlight(p, st, k, iat, id)
    requires var revoked := Next(p, limit, st, Revoke(k, lifetime)).0; Denies(p, Db(revoked, k), iat, revoked.now)
    ensures Sealed(p, Next(p, limit, st, Revoke(k, lifetime)).0, k, iat, st.now)
  {
    var revoked := Next(p, limit, st, Revoke(k, lifetime)).0;
    assert revoked.flights == st.flights;
    forall id | id in revoked.flights && revoked.flights[id].Got? && revoked.flights[id].k == k
      ensures Harmless(p, revoked, k, iat, revoked.flights[id].value)
    {
      assert !AdmittingFlight(p, st, k, iat, id) && FlightOk(p, st, st.flights[id]);
    }
  }

  /** The late answer is stored when it returns, and the TTL starts only then. */
  lemma LateAnswerAdmits(p: Policy, limit: Option<nat>, st: State, k: Key, lifetime: nat, iat: nat, id: nat)
    requires Inv(p, st) && AdmittingFlight(p, st, k, iat, id)
    requires Denies(p, Db(Next(p, limit, st, Revoke(k, lifetime)).0, k), iat, st.now + Ttl(p))
    ensures CanSlipThroughAfter(p, limit, Next(p, limit, st, Revoke(k, lifetime)).0, k, iat, st.now + Ttl(p))
  {
    hide Store;
    var revoked := Next(p, limit, st, Revoke(k, lifetime)).0;
    var f := st.flights[id];
    assert FlightOk(p, st, f) && revoked.flights == st.flights;
    var waited := Next(p, limit, revoked, Wait(Ttl(p))).0;
    StoreFacts(p, limit, waited.cache, k, f.value, f.readStep, waited.now, k);
    OneStep(p, limit, revoked, Wait(Ttl(p)));
    TwoSteps(p, limit, revoked, Wait(Ttl(p)), Resume(id));
    var at := Play(p, limit, revoked, [Wait(Ttl(p)), Resume(id)]);
    assert at.cache[k] == Entry(f.value, waited.now, f.readStep);
    assert SlipsThrough(p, limit, at, Check(0, k, iat), k, iat);
  }

  lemma TwoSteps(p: Policy, limit: Option<nat>, st: State, a: Event, b: Event)
    ensures Play(p, limit, st, [a, b]) == Next(p, limit, Next(p, limit, st, a).0, b).0
  {
    OneStep(p, limit, st, a);
    assert [a, b][..1] == [a];
  }

  // ---- What a request is told, in plain terms ----

  /**
   * A lookup that nothing delays, on a token without a fresh entry: it refuses exactly if the row says so, by its expiry for
   * the denylist, by the stamp for sessions. What it stores is what the next request within one TTL is told.
   */
  lemma LookupTellsTheRow(p: Policy, limit: Option<nat>, st: State, k: Key, iat: nat, id: nat)
    requires id !in st.flights && (k in st.cache ==> st.now - st.cache[k].cachedAt >= if p == Denylist then 10_000 else 30_000)
    ensures var asked := Next(p, limit, st, Check(id, k, iat));
      var read := Next(p, limit, asked.0, Read(id));
      var told := Next(p, limit, read.0, Resume(id));
      var value := if k in st.db then st.db[k] else 0;
      var denied := if p == Denylist then value > st.now else value > 0 && iat * 1000 < value;
      && asked.1 == Quiet && read.1 == Quiet
      && told.1 == (if denied then Refused else Accepted(k, iat))
      && told.0.flights == st.flights && told.0.db == st.db
      && (p == Denylist && denied ==> told.0.cache == st.cache)
      && (p == Sessions || !denied ==> k in told.0.cache && told.0.cache[k].value == value && told.0.cache[k].cachedAt == st.now)
  {
    hide Store;
    StoreFacts(p, limit, st.cache, k, if k in st.db then st.db[k] else 0, st.step + 2, st.now, k);
  }

  /** Within one TTL of a stored answer a request is told what was stored, without a lookup. */
  lemma FreshEntryAnswers(p: Policy, limit: Option<nat>, st: State, k: Key, iat: nat, id: nat)
    requires k in st.cache && st.now - st.cache[k].cachedAt < if p == Denylist then 10_000 else 30_000
    ensures var told := Next(p, limit, st, Check(id, k, iat));
      && told.0 == st.(step := st.step + 1)
      && told.1 == if p == Sessions && st.cache[k].value > 0 && iat * 1000 < st.cache[k].value then Refused else Accepted(k, iat)
  {
  }

  /**
   * What writes the rows: logout, once per token, until its expiry; and each stamp of the sessions, at its own moment.
   */
  lemma RevocationWrites(p: Policy, limit: Option<nat>, st: State, k: Key, lifetime: nat)
    ensures var after := Next(p, limit, st, Revoke(k, lifetime)).0;
      && k in after.db && after.cache == st.cache && after.flights == st.flights && after.now == st.now
      && (forall j :: j != k ==> Db(after, j) == Db(st, j))
      && (p == Sessions ==> after.db[k] == st.now)
      && (p == Denylist ==> after.db[k] == if k in st.db then st.db[k] else st.now + lifetime)
  {
  }

  /** A lookup that throws refuses its request, and stores nothing. */
  lemma FailedLookupRefuses(p: Policy, limit: Option<nat>, st: State, id: nat)
    requires id in st.flights
    ensures var told := Next(p, limit, st, Fail(id));
      told.1 == Unavailable && told.0.cache == st.cache && told.0.flights == st.flights - {id}
  {
  }

  // ---- Both checks of a request ----

  /** What one event is to each of the two machines: they share the clock, and nothing else. */
  datatype AuthEvent = Elapse(ms: nat) | OnDenylist(e: Event) | OnSessions(e: Event)

  /** Neither check sees the other's events, and both see the time that passes. */
  lemma ChecksApart(e: Event, ms: nat)
    requires !e.Wait?
    ensures ForCheck(Denylist, OnDenylist(e)) == e && ForCheck(Denylist, OnSessions(e)) == Wait(0)
    ensures ForCheck(Sessions, OnSessions(e)) == e && ForCheck(Sessions, OnDenylist(e)) == Wait(0)
    ensures ForCheck(Denylist, Elapse(ms)) == Wait(ms) && ForCheck(Sessions, Elapse(ms)) == Wait(ms)
  {
  }

  function Untimed(e: Event): Event {
    if e.Wait? then Wait(0) else e
  }

  function ForCheck(p: Policy, e: AuthEvent): Event {
    match e
    case Elapse(ms) => Wait(ms)
    case OnDenylist(d) => if p == Denylist then Untimed(d) else Wait(0)
    case OnSessions(s) => if p == Sessions then Untimed(s) else Wait(0)
  }

  function Events(p: Policy, events: seq<AuthEvent>): seq<Event> {
    seq(|events|, i requires 0 <= i < |events| => ForCheck(p, events[i]))
  }

  /** The check of this policy admits the token at the n-th event. */
  ghost predicate AdmitsAt(p: Policy, limit: Option<nat>, st: State, events: seq<AuthEvent>, n: nat, k: Key, iat: nat)
    requires n < |events|
  {
    Next(p, limit, Play(p, limit, st, Events(p, events)[..n]), Events(p, events)[n]).1 == Accepted(k, iat)
  }

  ghost predicate DeniedAt(p: Policy, limit: Option<nat>, st: State, events: seq<AuthEvent>, n: nat, k: Key, iat: nat)
    requires n < |events|
  {
    var at := Play(p, limit, st, Events(p, events)[..n]);
    Denies(p, Db(at, k), iat, at.now)
  }

  /** authenticate lets the token through: first past the denylist, then past the sessions check. */
  ghost predicate Passes(limit: Option<nat>, d: State, s: State, events: seq<AuthEvent>, n: nat, m: nat, jti: Key,
                         sub: Key, iat: nat)
  {
    n < m < |events| && AdmitsAt(Denylist, limit, d, events, n, jti, iat) && AdmitsAt(Sessions, None, s, events, m, sub, iat)
  }

  /** A token that passes is revoked in neither table at the moment of its check there, or a stale answer admitted it. */
  lemma PassesOnlyThroughStaleAnswers(limit: Option<nat>, d: State, s: State, events: seq<AuthEvent>, n: nat, m: nat,
                                      jti: Key, sub: Key, iat: nat)
    requires Inv(Denylist, d) && Inv(Sessions, s) && Passes(limit, d, s, events, n, m, jti, sub, iat)
    ensures DeniedAt(Denylist, limit, d, events, n, jti, iat) ==>
      StaleAnswer(Denylist, Play(Denylist, limit, d, Events(Denylist, events)[..n]), Events(Denylist, events)[n], jti)
    ensures DeniedAt(Sessions, None, s, events, m, sub, iat) ==>
      StaleAnswer(Sessions, Play(Sessions, None, s, Events(Sessions, events)[..m]), Events(Sessions, events)[m], sub)
  {
    hide Next, Play, Inv, StaleAnswer;
    if DeniedAt(Denylist, limit, d, events, n, jti, iat) {
      RevokedOnlyThroughStaleAnswer(Denylist, limit, d, Events(Denylist, events)[..n], Events(Denylist, events)[n], jti, iat);
    }
    if DeniedAt(Sessions, None, s, events, m, sub, iat) {
      RevokedOnlyThroughStaleAnswer(Sessions, None, s, Events(Sessions, events)[..m], Events(Sessions, events)[m], sub, iat);
    }
  }

  ghost predicate IsRevoked(p: Policy, st: State, k: Key, iat: nat) {
    Denies(p, Db(st, k), iat, st.now)
  }

  ghost predicate HasStaleFlight(p: Policy, st: State, k: Key, iat: nat) {
    exists id :: StaleFlight(p, st, k, iat, id)
  }

  /** Some continuation lets the token pass, although each table that denies it now still does so at its check. */
  ghost predicate CanPass(limit: Option<nat>, d: State, s: State, jti: Key, sub: Key, iat: nat) {
    exists events, n, m :: PassesRevoked(limit, d, s, events, n, m, jti, sub, iat)
  }

  ghost predicate PassesRevoked(limit: Option<nat>, d: State, s: State, events: seq<AuthEvent>, n: nat, m: nat, jti: Key,
                                sub: Key, iat: nat)
  {
    && Passes(limit, d, s, events, n, m, jti, sub, iat)
    && (IsRevoked(Denylist, d, jti, iat) ==> DeniedAt(Denylist, limit, d, events, n, jti, iat))
    && (IsRevoked(Sessions, s, sub, iat) ==> DeniedAt(Sessions, None, s, events, m, sub, iat))
  }

  /**
   * The two checks together. A token may be logged out, its sessions stamped, or both; each row written is followed by the
   * invalidation of its entry. Then some continuation of the process still lets a request of the token pass if and only
   * if every check that should refuse it has a stale lookup in flight: one revocation suffices, unless its own is.
   */
  lemma AuthenticateExact(limit: Option<nat>, d: State, s: State, jti: Key, sub: Key, iat: nat)
    requires Inv(Denylist, d) && Inv(Sessions, s)
    requires IsRevoked(Denylist, d, jti, iat) ==> jti !in d.cache
    requires IsRevoked(Sessions, s, sub, iat) ==> sub !in s.cache
    ensures CanPass(limit, d, s, jti, sub, iat) <==>
      && (IsRevoked(Denylist, d, jti, iat) ==> HasStaleFlight(Denylist, d, jti, iat))
      && (IsRevoked(Sessions, s, sub, iat) ==> HasStaleFlight(Sessions, s, sub, iat))
  {
    hide Inv, PassesRevoked, IsRevoked, HasStaleFlight;
    if events, n, m :| PassesRevoked(limit, d, s, events, n, m, jti, sub, iat) {
      PassNeedsFlights(limit, d, s, events, n, m, jti, sub, iat);
    }
    if (IsRevoked(Denylist, d, jti, iat) ==> HasStaleFlight(Denylist, d, jti, iat))
       && (IsRevoked(Sessions, s, sub, iat) ==> HasStaleFlight(Sessions, s, sub, iat)) {
      FlightsLetPass(limit, d, s, jti, sub, iat);
    }
  }

  lemma PassNeedsFlights(limit: Option<nat>, d: State, s: State, events: seq<AuthEvent>, n: nat, m: nat, jti: Key,
                         sub: Key, iat: nat)
    requires Inv(Denylist, d) && Inv(Sessions, s) && PassesRevoked(limit, d, s, events, n, m, jti, sub, iat)
    requires IsRevoked(Denylist, d, jti, iat) ==> jti !in d.cache
    requires IsRevoked(Sessions, s, sub, iat) ==> sub !in s.cache
    ensures IsRevoked(Denylist, d, jti, iat) ==> HasStaleFlight(Denylist, d, jti, iat)
    ensures IsRevoked(Sessions, s, sub, iat) ==> HasStaleFlight(Sessions, s, sub, iat)
  {
    hide Inv, Next, Play, StaleFlight, Denies;
    if IsRevoked(Denylist, d, jti, iat) {
      InvalidationExact(Denylist, limit, d, jti, iat);
      assert SlipsThrough(Denylist, limit, Play(Denylist, limit, d, Events(Denylist, events)[..n]),
                          Events(Denylist, events)[n], jti, iat);
    }
    if IsRevoked(Sessions, s, sub, iat) {
      InvalidationExact(Sessions, None, s, sub, iat);
      assert SlipsThrough(Sessions, None, Play(Sessions, None, s, Events(Sessions, events)[..m]),
                          Events(Sessions, events)[m], sub, iat);
    }
  }

  lemma {:induction false} FreshId(ids: set<nat>) returns (id: nat)
    ensures forall j :: j in ids ==> j < id
  {
    if ids == {} {
      id := 0;
    } else {
      var j :| j in ids;
      id := FreshId(ids - {j});
      assert forall x :: x in ids ==> x == j || x in ids - {j};
      if id <= j {
        id := j + 1;
      }
    }
  }

  /** A check that the table does not back, or that has a stale lookup in flight, can admit the token without delay. */
  lemma AcceptsSoon(p: Policy, limit: Option<nat>, st: State, k: Key, iat: nat) returns (es: seq<Event>, e: Event)
    requires Inv(p, st) && (IsRevoked(p, st, k, iat) ==> HasStaleFlight(p, st, k, iat))
    ensures !e.Wait? && forall x :: x in es ==> !x.Wait?
    ensures var at := Play(p, limit, st, es);
      Next(p, limit, at, e).1 == Accepted(k, iat) && at.now == st.now && at.db == st.db
  {
    hide Store, Next, Play;
    if IsRevoked(p, st, k, iat) {
      var id :| StaleFlight(p, st, k, iat, id);
      es, e := [Resume(id)], Check(0, k, iat);
      OneStep(p, limit, st, Resume(id));
      StaleHits(p, limit, st, k, iat, id);
    } else if Fresh(p, st.cache, k, st.now) {
      es, e := [], Check(0, k, iat);
      PlayNone(p, limit, st);
      FreshAdmits(p, limit, st, k, iat);
    } else {
      var id := FreshId(st.flights.Keys);
      es, e := [Check(id, k, iat), Read(id)], Resume(id);
      TwoSteps(p, limit, st, Check(id, k, iat), Read(id));
      LookupAdmits(p, limit, st, k, iat, id);
    }
  }

  lemma PlayNone(p: Policy, limit: Option<nat>, st: State)
    ensures Play(p, limit, st, []) == st
  {
  }

  lemma StaleHits(p: Policy, limit: Option<nat>, st: State, k: Key, iat: nat, id: nat)
    requires Inv(p, st) && IsRevoked(p, st, k, iat) && StaleFlight(p, st, k, iat, id)
    ensures var at := Next(p, limit, st, Resume(id)).0;
      Next(p, limit, at, Check(0, k, iat)).1 == Accepted(k, iat) && at.now == st.now && at.db == st.db
  {
    hide Store;
    var f := st.flights[id];
    StoreFacts(p, limit, st.cache, k, f.value, f.readStep, st.now, k);
  }

  lemma FreshAdmits(p: Policy, limit: Option<nat>, st: State, k: Key, iat: nat)
    requires Inv(p, st) && !IsRevoked(p, st, k, iat) && Fresh(p, st.cache, k, st.now)
    ensures Next(p, limit, st, Check(0, k, iat)).1 == Accepted(k, iat)
  {
    assert EntryOk(p, st, k);
  }

  lemma LookupAdmits(p: Policy, limit: Option<nat>, st: State, k: Key, iat: nat, id: nat)
    requires !IsRevoked(p, st, k, iat) && !Fresh(p, st.cache, k, st.now) && id !in st.flights
    ensures var asked := Next(p, limit, st, Check(id, k, iat)).0;
      var at := Next(p, limit, asked, Read(id)).0;
      Next(p, limit, at, Resume(id)).1 == Accepted(k, iat) && at.now == st.now && at.db == st.db
  {
    hide Store;
  }

  /** Nothing but the step counter changes while the other check is at work. */
  lemma {:induction false} Idle(p: Policy, limit: Option<nat>, st: State, n: nat)
    ensures Play(p, limit, st, Idles(n)) == st.(step := st.step + n)
  {
    if n > 0 {
      Idle(p, limit, st, n - 1);
      assert Idles(n)[..n - 1] == Idles(n - 1);
    }
  }

  function Idles(n: nat): seq<Event> {
    seq(n, i => Wait(0))
  }

  lemma {:induction false} PlayConcat(p: Policy, limit: Option<nat>, st: State, a: seq<Event>, b: seq<Event>)
    ensures Play(p, limit, st, a + b) == Play(p, limit, Play(p, limit, st, a), b)
  {
    hide Next;
    if b == [] {
      assert a + b == a;
    } else {
      assert (a + b)[..|a + b| - 1] == a + b[..|b| - 1];
      PlayConcat(p, limit, st, a, b[..|b| - 1]);
    }
  }

  function Interleaved(ds: seq<Event>, ss: seq<Event>): seq<AuthEvent> {
    seq(|ds|, i requires 0 <= i < |ds| => OnDenylist(ds[i])) + seq(|ss|, i requires 0 <= i < |ss| => OnSessions(ss[i]))
  }

  lemma InterleavedEvents(ds: seq<Event>, ss: seq<Event>)
    requires (forall e :: e in ds ==> !e.Wait?) && forall e :: e in ss ==> !e.Wait?
    ensures var events := Interleaved(ds, ss);
      && |events| == |ds| + |ss|
      && Events(Denylist, events)[..|ds|] == ds && Events(Sessions, events)[|ds|..] == ss
      && Events(Sessions, events)[..|ds|] == Idles(|ds|)
  {
  }

  lemma StillRevoked(p: Policy, st: State, step: nat, k: Key, iat: nat)
    ensures var st' := st.(step := step);
      IsRevoked(p, st', k, iat) == IsRevoked(p, st, k, iat) && (HasStaleFlight(p, st, k, iat) ==> HasStaleFlight(p, st', k, iat))
  {
    if id :| StaleFlight(p, st, k, iat, id) {
      assert StaleFlight(p, st.(step := step), k, iat, id);
    }
  }

  lemma FlightsLetPass(limit: Option<nat>, d: State, s: State, jti: Key, sub: Key, iat: nat)
    requires Inv(Denylist, d) && Inv(Sessions, s)
    requires IsRevoked(Denylist, d, jti, iat) ==> HasStaleFlight(Denylist, d, jti, iat)
    requires IsRevoked(Sessions, s, sub, iat) ==> HasStaleFlight(Sessions, s, sub, iat)
    ensures CanPass(limit, d, s, jti, sub, iat)
  {
    hide Inv, Next, Play, HasStaleFlight, Events, Interleaved, Denies;
    var ds, de := AcceptsSoon(Denylist, limit, d, jti, iat);
    var idle := Idles(|ds| + 1);
    Idle(Sessions, None, s, |ds| + 1);
    RunKeepsInv(Sessions, None, s, idle);
    StillRevoked(Sessions, s, s.step + |ds| + 1, sub, iat);
    var s1 := Play(Sessions, None, s, idle);
    var ss, se := AcceptsSoon(Sessions, None, s1, sub, iat);
    var events := Interleaved(ds + [de], ss + [se]);
    InterleavedEvents(ds + [de], ss + [se]);
    var n, m := |ds|, |ds| + 1 + |ss|;
    var D, S := Events(Denylist, events), Events(Sessions, events);
    assert |D| == |S| == |events| by {
      EventsLength(events);
    }
    assert D[..n] == (ds + [de])[..n] == ds && D[n] == (ds + [de])[n] == de by {
      assert D[..n] == D[..n + 1][..n] && D[n] == D[..n + 1][n];
    }
    assert S[..n + 1] == idle;
    assert S[..m] == idle + ss && S[m] == se by {
      assert S[n + 1..] == ss + [se] && S[..m] == S[..n + 1] + S[n + 1..][..|ss|] && S[m] == S[n + 1..][|ss|];
    }
    PlayConcat(Sessions, None, s, idle, ss);
    assert PassesRevoked(limit, d, s, events, n, m, jti, sub, iat);
  }

  lemma EventsLength(events: seq<AuthEvent>)
    ensures forall p :: |Events(p, events)| == |events|
  {
  }

  // ---- The sweep ----

  /** Equal but for cache entries that have expired. */
  ghost predicate SameAnswers(p: Policy, a: State, b: State) {
    SameBut(a, b) && forall k :: SameEntry(p, a, b, k)
  }

  ghost predicate SameEntry(p: Policy, a: State, b: State, k: Key) {
    && Fresh(p, a.cache, k, a.now) == Fresh(p, b.cache, k, b.now)
    && (Fresh(p, a.cache, k, a.now) ==> a.cache[k] == b.cache[k])
  }

  lemma SameEntryAfter(p: Policy, limit: Option<nat>, a: State, b: State, e: Event, k: Key)
    requires SameAnswers(p, a, b)
    ensures SameEntry(p, Next(p, limit, a, e).0, Next(p, None, b, e).0, k)
  {
    hide Store, Denies, HitDenies, Answered;
    assert SameEntry(p, a, b, k);
    if e.Resume? && e.id in a.flights && a.flights[e.id].Got? {
      AnsweredSame(p, limit, Landed(Ticked(a), e.id), Landed(Ticked(b), e.id), a.flights[e.id], k);
    }
  }

  lemma AnsweredSame(p: Policy, limit: Option<nat>, a: State, b: State, f: Flight, k: Key)
    requires f.Got? && a.now == b.now && SameEntry(p, a, b, k)
    ensures SameEntry(p, Answered(p, limit, a, f).0, Answered(p, None, b, f).0, k)
  {
    hide Store, Denies;
    StoreFacts(p, limit, a.cache, f.k, f.value, f.readStep, a.now, k);
    StoreFacts(p, None, b.cache, f.k, f.value, f.readStep, b.now, k);
  }

  lemma SameOut(p: Policy, limit: Option<nat>, a: State, b: State, e: Event)
    requires SameAnswers(p, a, b)
    ensures Next(p, limit, a, e).1 == Next(p, None, b, e).1
  {
    hide Store, Fresh, Denies, HitDenies, WithRead, Revoked;
    if e.Check? {
      assert SameEntry(p, a, b, e.k);
    }
  }

  lemma StepSweepInvisible(p: Policy, limit: Option<nat>, a: State, b: State, e: Event)
    requires SameAnswers(p, a, b)
    ensures Next(p, limit, a, e).1 == Next(p, None, b, e).1
    ensures SameAnswers(p, Next(p, limit, a, e).0, Next(p, None, b, e).0)
  {
    hide Next, SameEntry;
    SameEntriesAfter(p, limit, a, b, e);
    SameFlights(p, limit, a, b, e);
    SameOut(p, limit, a, b, e);
  }

  lemma AnsweredOnlyCaches(p: Policy, limit: Option<nat>, st: State, f: Flight)
    requires f.Got?
    ensures Answered(p, limit, st, f).0 == st.(cache := Answered(p, limit, st, f).0.cache)
  {
  }

  lemma SameFlights(p: Policy, limit: Option<nat>, a: State, b: State, e: Event)
    requires SameAnswers(p, a, b)
    ensures SameBut(Next(p, limit, a, e).0, Next(p, None, b, e).0)
  {
    hide Fresh, Denies, HitDenies, Answered, SameEntry, Revoked, WithRead;
    if e.Check? {
      CheckSame(p, a, b, e);
    } else if e.Resume? && e.id in a.flights && a.flights[e.id].Got? {
      AnsweredOnlyCaches(p, limit, Landed(Ticked(a), e.id), a.flights[e.id]);
      AnsweredOnlyCaches(p, None, Landed(Ticked(b), e.id), b.flights[e.id]);
    } else {
      OthersSame(p, a, b, e);
    }
  }

  /** Equal but for the cache. */
  ghost predicate SameBut(a: State, b: State) {
    a.now == b.now && a.step == b.step && a.db == b.db && a.changed == b.changed && a.flights == b.flights
  }

  lemma CheckSame(p: Policy, a: State, b: State, e: Event)
    requires SameAnswers(p, a, b) && e.Check?
    ensures SameBut(Checked(p, Ticked(a), e.id, e.k, e.iat).0, Checked(p, Ticked(b), e.id, e.k, e.iat).0)
  {
    assert SameEntry(p, a, b, e.k);
  }

  lemma OthersSame(p: Policy, a: State, b: State, e: Event)
    requires SameBut(a, b)
    ensures e.Read? ==> SameBut(WithRead(Ticked(a), e.id), WithRead(Ticked(b), e.id))
    ensures e.Revoke? ==> SameBut(Revoked(p, Ticked(a), e.k, e.lifetime), Revoked(p, Ticked(b), e.k, e.lifetime))
  {
  }

  lemma SameEntriesAfter(p: Policy, limit: Option<nat>, a: State, b: State, e: Event)
    requires SameAnswers(p, a, b)
    ensures forall k :: SameEntry(p, Next(p, limit, a, e).0, Next(p, None, b, e).0, k)
  {
    hide Next, SameEntry;
    forall k ensures SameEntry(p, Next(p, limit, a, e).0, Next(p, None, b, e).0, k) {
      SameEntryAfter(p, limit, a, b, e, k);
    }
  }

  /** Over every run, sweeping at any size limit changes no answer of the check. */
  lemma {:induction false} SweepInvisible(p: Policy, limit: Option<nat>, st: State, events: seq<Event>)
    ensures SameAnswers(p, Play(p, limit, st, events), Play(p, None, st, events))
    ensures forall e :: Next(p, limit, Play(p, limit, st, events), e).1 == Next(p, None, Play(p, None, st, events), e).1
  {
    hide SameAnswers, Next;
    if events == [] {
      SameAsItself(p, st);
    } else {
      var front := events[..|events| - 1];
      SweepInvisible(p, limit, st, front);
      StepSweepInvisible(p, limit, Play(p, limit, st, front), Play(p, None, st, front), events[|events| - 1]);
    }
    forall e ensures Next(p, limit, Play(p, limit, st, events), e).1 == Next(p, None, Play(p, None, st, events), e).1 {
      StepSweepInvisible(p, limit, Play(p, limit, st, events), Play(p, None, st, events), e);
    }
  }

  lemma SameAsItself(p: Policy, st: State)
    ensures SameAnswers(p, st, st)
  {
  }

  /**
   * Issue times have whole seconds and the stamp has milliseconds: every token issued before the stamp is refused, and of
   * those issued after it exactly the ones from the same second are refused too.
   */
  lemma SameSecondRefused(stamp: Time, issued: Time)
    requires stamp > 0
    ensures issued < stamp ==> Denies(Sessions, stamp, issued / 1000, issued)
    ensures issued >= stamp ==>
      (Denies(Sessions, stamp, issued / 1000, issued) <==> issued / 1000 == stamp / 1000 && stamp % 1000 > 0)
  {
  }
}
