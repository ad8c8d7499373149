/** The incremental audit-chain anchor (apps/backend/src/jobs/hashAnchor.ts). */
module HashAnchor {
  import opened Wrappers
  import opened Ordering

  type TenantId = Option<nat>   // None: the audit rows that belong to no tenant

  /** Audit rows are ordered by creation time, then id. */
  datatype Key = Key(createdAt: int, id: nat)

  predicate Earlier(a: Key, b: Key) {
    a.createdAt < b.createdAt || (a.createdAt == b.createdAt && a.id < b.id)
  }

  /** The audit log of one tenant: the entry hash of each row. */
  type Log = map<Key, string>

  datatype Anchor = Anchor(root: string, entries: nat, lastEntryId: Option<nat>, lastEntryCreatedAt: Option<int>)

  /** One tenant's log with its anchors, oldest first. */
  datatype Chain = Chain(log: Log, anchors: seq<Anchor>)

  datatype DeltaResult = DeltaResult(tenantId: TenantId, root: string, entries: nat, delta: nat, hadPrior: bool,
                                     lastEntryId: Option<nat>, lastEntryCreatedAt: Option<int>)

  function EmptyChainRoot(): (zeros: string)
    ensures |zeros| == 64 && forall i :: 0 <= i < 64 ==> zeros[i] == '0'
  {
    seq(64, i => '0')
  }

  function Prior(chain: Chain): Option<Anchor> {
    if chain.anchors == [] then None else Some(chain.anchors[|chain.anchors| - 1])
  }

  /** The last row the latest anchor covers, when the anchor records one. */
  function Watermark(chain: Chain): Option<Key> {
    match Prior(chain)
    case None => None
    case Some(a) =>
      if a.lastEntryCreatedAt.Some? && a.lastEntryId.Some? then Some(Key(a.lastEntryCreatedAt.value, a.lastEntryId.value))
      else None
  }

  predicate PastWatermark(k: Key, wm: Option<Key>) {
    wm.Some? ==> Earlier(wm.value, k)
  }

  function DeltaKeys(chain: Chain): set<Key> {
    set k | k in chain.log && PastWatermark(k, Watermark(chain))
  }

  function InOrder(keys: set<Key>): seq<Key> {
    assert StrictTotal(Earlier);
    Sorted(keys, Earlier)
  }

  lemma InOrderFacts(keys: set<Key>)
    ensures var r := InOrder(keys);
      && |r| == |keys|
      && (forall k :: k in r <==> k in keys)
      && (forall i, j :: 0 <= i < j < |r| ==> Earlier(r[i], r[j]))
      && (r == [] <==> keys == {})
      && (r != [] ==> r[|r| - 1] in keys && forall k :: k in keys ==> k == r[|r| - 1] || Earlier(k, r[|r| - 1]))
  {
    assert StrictTotal(Earlier);
    var r := InOrder(keys);
    assert r != [] ==> r[0] in keys && r[|r| - 1] in r;
  }

  lemma InOrderSplit(low: set<Key>, high: set<Key>)
    requires forall x, y :: x in low && y in high ==> Earlier(x, y)
    ensures InOrder(low + high) == InOrder(low) + InOrder(high)
  {
    assert StrictTotal(Earlier);
    SortedSplit(low, high, Earlier);
  }

  /** The left fold of the entry hashes of `keys` onto `seed`: one hash round each. */
  function Fold(h: string -> string, seed: string, log: Log, keys: seq<Key>): string {
    if keys == [] then seed
    else
      var last := keys[|keys| - 1];
      h(Fold(h, seed, log, keys[..|keys| - 1]) + if last in log then log[last] else "")
  }

  lemma {:induction false} FoldConcat(h: string -> string, seed: string, log: Log, a: seq<Key>, b: seq<Key>)
    ensures Fold(h, seed, log, a + b) == Fold(h, Fold(h, seed, log, a), log, b)
  {
    if b == [] {
      assert a + b == a;
    } else {
      var b' := b[..|b| - 1];
      assert (a + b)[..|a + b| - 1] == a + b';
      FoldConcat(h, seed, log, a, b');
    }
  }

  /** One row is one round: its hash is appended to what was there, and hashed. */
  lemma FoldOne(h: string -> string, seed: string, log: Log, k: Key)
    requires k in log
    ensures Fold(h, seed, log, []) == seed && Fold(h, seed, log, [k]) == h(seed + log[k])
  {
    assert [k][..0] == [];
  }

  /** The rounds of a fold: acc starts at the seed, and each row in turn makes h(acc + its hash) of it. */
  ghost predicate Rounds(h: string -> string, accs: seq<string>, seed: string, log: Log, keys: seq<Key>) {
    && |accs| == |keys| + 1 && accs[0] == seed
    && forall i :: 0 <= i < |keys| ==> keys[i] in log && accs[i + 1] == h(accs[i] + log[keys[i]])
  }

  lemma {:induction false} FoldIsRounds(h: string -> string, seed: string, log: Log, keys: seq<Key>)
    returns (accs: seq<string>)
    requires forall k :: k in keys ==> k in log
    ensures Rounds(h, accs, seed, log, keys) && Fold(h, seed, log, keys) == accs[|keys|]
  {
    if keys == [] {
      accs := [seed];
    } else {
      var n := |keys| - 1;
      var front := FoldIsRounds(h, seed, log, keys[..n]);
      FoldConcat(h, seed, log, keys[..n], [keys[n]]);
      assert keys[..n] + [keys[n]] == keys;
      FoldOne(h, Fold(h, seed, log, keys[..n]), log, keys[n]);
      accs := front + [h(front[n] + log[keys[n]])];
    }
  }

  /** Two different texts with one hash. */
  ghost predicate Collision(h: string -> string) {
    exists a, b :: a != b && h(a) == h(b)
  }

  lemma Collides(h: string -> string, a: string, b: string)
    requires a != b && h(a) == h(b)
    ensures Collision(h)
  {
  }

  /** Unless the hash has collided, equal folds of the same rows have equal seeds and equal entry hashes. */
  lemma {:induction false} FoldBinds(h: string -> string, seed: string, seed': string, log: Log, log': Log,
                                     keys: seq<Key>,
                                     len: nat)
    requires forall k :: k in keys ==> k in log && k in log' && |log[k]| == |log'[k]| == len
    requires Fold(h, seed, log, keys) == Fold(h, seed', log', keys) && !Collision(h)
    ensures seed == seed' && forall k :: k in keys ==> log[k] == log'[k]
  {
    if keys != [] {
      var n := |keys| - 1;
      var front, front', last := Fold(h, seed, log, keys[..n]), Fold(h, seed', log', keys[..n]), keys[n];
      assert keys == keys[..n] + [last];
      FoldConcat(h, seed, log, keys[..n], [last]);
      FoldConcat(h, seed', log', keys[..n], [last]);
      FoldOne(h, front, log, last);
      FoldOne(h, front', log', last);
      if front + log[last] != front' + log'[last] {
        Collides(h, front + log[last], front' + log'[last]);
      }
      SameSplit(front, log[last], front', log'[last]);
      FoldBinds(h, seed, seed', log, log', keys[..n], len);
    }
  }

  lemma SameSplit(a: string, x: string, b: string, y: string)
    requires a + x == b + y && |x| == |y|
    ensures a == b && x == y
  {
    assert |a| == |b|;
    assert a == (a + x)[..|a|] && b == (b + y)[..|b|] && x == (a + x)[|a|..] && y == (b + y)[|b|..];
  }

  lemma {:induction false} FoldFrame(h: string -> string, seed: string, log: Log, log': Log, keys: seq<Key>)
    requires forall k :: k in keys ==> k in log && k in log' && log[k] == log'[k]
    ensures Fold(h, seed, log, keys) == Fold(h, seed, log', keys)
  {
    if keys != [] {
      assert keys[|keys| - 1] in keys;
      FoldFrame(h, seed, log, log', keys[..|keys| - 1]);
    }
  }

  // ---- One run ----

  /** What a run computes for one tenant. */
  function Delta(h: string -> string, t: TenantId, chain: Chain): DeltaResult {
    var prior, rows := Prior(chain), InOrder(DeltaKeys(chain));
    var priorRoot, priorCount := if prior.Some? then prior.value.root else "", if prior.Some? then prior.value.entries else 0;
    var last := if rows == [] then None else Some(rows[|rows| - 1]);
    DeltaResult(
      t, Fold(h, priorRoot, chain.log, rows), priorCount + |rows|, |rows|, prior.Some?,
      if last.Some? then Some(last.value.id) else if prior.Some? then prior.value.lastEntryId else None,
      if last.Some? then Some(last.value.createdAt) else if prior.Some? then prior.value.lastEntryCreatedAt else None)
  }

  predicate ToPersist(r: DeltaResult) {
    r.delta > 0 || !r.hadPrior
  }

  function AnchorOf(r: DeltaResult): Anchor {
    Anchor(if r.root == "" then EmptyChainRoot() else r.root, r.entries, r.lastEntryId, r.lastEntryCreatedAt)
  }

  /** A run on one tenant; the write may fail, and is skipped when there is nothing new. */
  function Run(h: string -> string, t: TenantId, chain: Chain, persists: bool): Chain {
    var r := Delta(h, t, chain);
    if ToPersist(r) && persists then chain.(anchors := chain.anchors + [AnchorOf(r)]) else chain
  }

  class AuditStore {
    var chains: map<TenantId, Chain>

    constructor (chains: map<TenantId, Chain>)
      ensures this.chains == chains
    {
      this.chains := chains;
    }

    /** `rows.reduce(...)` over the rows past the watermark. */
    method FoldRows(h: string -> string, seed: string, log: Log, rows: seq<Key>) returns (acc: string)
      requires forall k :: k in rows ==> k in log
      ensures acc == Fold(h, seed, log, rows)
      ensures rows == [] ==> acc == seed
      ensures |rows| == 1 ==> acc == h(seed + log[rows[0]])
    {
      acc := seed;
      for i := 0 to |rows|
        invariant acc == Fold(h, seed, log, rows[..i])
      {
        assert rows[..i + 1][..i] == rows[..i];
        acc := h(acc + log[rows[i]]);
      }
      assert rows[..|rows|] == rows;
    }

    /** The read half: every tenant's root is computed before anything is written. */
    method ComputeDeltas(h: string -> string, tenants: seq<TenantId>) returns (out: seq<DeltaResult>)
      requires forall i :: 0 <= i < |tenants| ==> tenants[i] in chains
      ensures |out| == |tenants|
      ensures forall i :: 0 <= i < |out| ==> out[i] == Delta(h, tenants[i], chains[tenants[i]])
      ensures forall i :: 0 <= i < |out| ==>
        && out[i].tenantId == tenants[i] && (out[i].hadPrior <==> chains[tenants[i]].anchors != [])
        && (out[i].delta == 0 && out[i].hadPrior ==>
              var a := chains[tenants[i]].anchors[|chains[tenants[i]].anchors| - 1];
              && out[i].root == a.root && out[i].entries == a.entries
              && out[i].lastEntryId == a.lastEntryId && out[i].lastEntryCreatedAt == a.lastEntryCreatedAt)
    {
      hide InOrder;
      out := [];
      for i := 0 to |tenants|
        invariant |out| == i
        invariant forall k :: 0 <= k < i ==> out[k] == Delta(h, tenants[k], chains[tenants[k]])
      {
        var t := tenants[i];
        var chain := chains[t];
        var prior, rows := Prior(chain), InOrder(DeltaKeys(chain));
        InOrderFacts(DeltaKeys(chain));
        assert forall k :: k in rows ==> k in chain.log;
        var newRoot := FoldRows(h, if prior.Some? then prior.value.root else "", chain.log, rows);
        var last := if rows == [] then None else Some(rows[|rows| - 1]);
        out := out + [DeltaResult(
          t, newRoot, (if prior.Some? then prior.value.entries else 0) + |rows|, |rows|, prior.Some?,
          if last.Some? then Some(last.value.id) else if prior.Some? then prior.value.lastEntryId else None,
          if last.Some? then Some(last.value.createdAt) else if prior.Some? then prior.value.lastEntryCreatedAt else None)];
      }
    }

    /** One run over all tenants. A failed write loses only its own tenant's row. */
    method ComputeTenantRoots(h: string -> string, tenants: seq<TenantId>, persists: TenantId -> bool)
      returns (out: seq<DeltaResult>)
      requires forall i, j :: 0 <= i < j < |tenants| ==> tenants[i] != tenants[j]
      requires forall i :: 0 <= i < |tenants| ==> tenants[i] in chains
      modifies this
      ensures |out| == |tenants|
      ensures forall i :: 0 <= i < |out| ==> out[i] == Delta(h, tenants[i], old(chains)[tenants[i]])
      ensures chains.Keys == old(chains.Keys)
      ensures forall t :: t in chains ==>
        chains[t] == if t in tenants then Run(h, t, old(chains)[t], persists(t)) else old(chains)[t]
    {
      hide Delta;
      out := ComputeDeltas(h, tenants);
      for i := 0 to |tenants|
        invariant chains.Keys == old(chains.Keys)
        invariant forall t :: t in chains ==>
          chains[t] == if t in tenants[..i] then Run(h, t, old(chains)[t], persists(t)) else old(chains)[t]
      {
        var r, t := out[i], tenants[i];
        assert t !in tenants[..i];
        if ToPersist(r) && persists(t) {
          var chain := chains[t];
          chains := chains[t := chain.(anchors := chain.anchors + [AnchorOf(r)])];
        }
        assert tenants[..i + 1] == tenants[..i] + [t];
      }
      assert tenants[..|tenants|] == tenants;
    }
  }

  // ---- Histories: rows arrive, runs happen, writes fail ----

  datatype Event = Append(k: Key, hash: string) | AnchorRun(persists: bool)

  /** `late` remembers the rows that arrived at or behind the watermark of the time. */
  datatype World = World(chain: Chain, late: set<Key>)

  function Step(h: string -> string, t: TenantId, w: World, e: Event): World {
    match e
    case AnchorRun(persists) => w.(chain := Run(h, t, w.chain, persists))
    case Append(k, hash) =>
      if k in w.chain.log then w   // the primary key refuses it
      else World(w.chain.(log := w.chain.log[k := hash]), if PastWatermark(k, Watermark(w.chain)) then w.late else w.late + {k})
  }

  /**
   * Where histories start: any log, and no anchor that records a watermark. That is a new chain, and also one whose
   * anchors are from before watermarks were kept.
   */
  predicate Unmarked(start: Chain) {
    Watermark(start) == None
  }

  function History(h: string -> string, t: TenantId, start: Chain, events: seq<Event>): World {
    if events == [] then World(start, {})
    else Step(h, t, History(h, t, start, events[..|events| - 1]), events[|events| - 1])
  }

  /** The rows the latest anchor has folded in. */
  function Covered(w: World): set<Key> {
    if Watermark(w.chain) == None then {}
    else set k | k in w.chain.log && k !in w.late && !PastWatermark(k, Watermark(w.chain))
  }

  /**
   * What the rows are folded onto: the root of the last old anchor, if there was one; for a new chain the empty string, or
   * for ever after the sentinel if its first anchor was empty.
   */
  function Seed(start: Chain, chain: Chain): string {
    if start.anchors != [] then Prior(start).value.root
    else if chain.anchors != [] && chain.anchors[0].entries == 0 then EmptyChainRoot() else ""
  }

  /** What the count starts from. */
  function Base(start: Chain): nat {
    if start.anchors != [] then Prior(start).value.entries else 0
  }

  ghost predicate Exact(h: string -> string, start: Chain, w: World) {
    && start.anchors <= w.chain.anchors
    && (forall k :: k in w.late ==> k in w.chain.log && !PastWatermark(k, Watermark(w.chain)))
    && (w.chain.anchors != [] ==>
         var a, keys := Prior(w.chain).value, InOrder(Covered(w));
         && a.root == Fold(h, Seed(start, w.chain), w.chain.log, keys)
         && a.entries == Base(start) + |keys|
         && (keys == [] ==> Watermark(w.chain) == None)
         && (keys != [] ==> Watermark(w.chain) == Some(keys[|keys| - 1])))
  }

  lemma AppendKeepsExact(h: string -> string, t: TenantId, start: Chain, w: World, k: Key, hash: string)
    requires Exact(h, start, w)
    ensures Exact(h, start, Step(h, t, w, Append(k, hash)))
  {
    hide InOrder, Fold;
    var w' := Step(h, t, w, Append(k, hash));
    assert Watermark(w'.chain) == Watermark(w.chain);
    assert Covered(w') == Covered(w);
    InOrderFacts(Covered(w));
    FoldFrame(h, Seed(start, w.chain), w.chain.log, w'.chain.log, InOrder(Covered(w)));
  }

  /** The covered rows and the delta rows are the rows that did not arrive late, in two blocks. */
  lemma CoveredThenDelta(h: string -> string, start: Chain, w: World)
    requires Exact(h, start, w)
    ensures InOrder(w.chain.log.Keys - w.late) == InOrder(Covered(w)) + InOrder(DeltaKeys(w.chain))
  {
    hide InOrder, Fold;
    assert Covered(w) + DeltaKeys(w.chain) == w.chain.log.Keys - w.late;
    InOrderSplit(Covered(w), DeltaKeys(w.chain));
  }

  /** After a write, everything that did not arrive late is covered. */
  lemma WriteCovers(h: string -> string, t: TenantId, start: Chain, w: World)
    requires Exact(h, start, w) && ToPersist(Delta(h, t, w.chain))
    ensures var w' := Step(h, t, w, AnchorRun(true));
      && Covered(w') == w.chain.log.Keys - w.late
      && (forall k :: k in w.late ==> !PastWatermark(k, Watermark(w'.chain)))
  {
    hide InOrder, Fold;
    var rows := InOrder(DeltaKeys(w.chain));
    InOrderFacts(DeltaKeys(w.chain));
    var w' := Step(h, t, w, AnchorRun(true));
    if rows != [] {
      var last := rows[|rows| - 1];
      assert Watermark(w'.chain) == Some(last);
      forall k | k in w.chain.log ensures !PastWatermark(k, Some(last)) {
        if k !in DeltaKeys(w.chain) {
          assert Watermark(w.chain).Some? && PastWatermark(last, Watermark(w.chain));
        }
      }
      assert forall k :: k in w.chain.log.Keys - w.late <==> k in w.chain.log && k !in w.late;
    } else {
      assert w.chain.log == map[] by {
        if k :| k in w.chain.log {
          assert k !in DeltaKeys(w.chain);
        }
      }
    }
  }

  lemma FoldNonEmpty(h: string -> string, seed: string, log: Log, keys: seq<Key>)
    requires keys != [] && forall s :: h(s) != ""
    ensures Fold(h, seed, log, keys) != ""
  {
  }

  /** The written anchor folds the delta onto what was covered before. */
  lemma WriteFolds(h: string -> string, t: TenantId, start: Chain, w: World)
    requires Exact(h, start, w) && ToPersist(Delta(h, t, w.chain)) && forall s :: h(s) != ""
    ensures var chain' := Run(h, t, w.chain, true);
      var a, keys := Prior(chain').value, InOrder(w.chain.log.Keys - w.late);
      && a.root == Fold(h, Seed(start, chain'), w.chain.log, keys) && a.entries == Base(start) + |keys|
      && (keys == [] ==> Watermark(chain') == None)
      && (keys != [] ==> Watermark(chain') == Some(keys[|keys| - 1]))
  {
    hide InOrder, DeltaKeys, Covered, Fold;
    var rows, low := InOrder(DeltaKeys(w.chain)), InOrder(Covered(w));
    var chain' := Run(h, t, w.chain, true);
    CoveredThenDelta(h, start, w);
    FoldConcat(h, Seed(start, w.chain), w.chain.log, low, rows);
    if w.chain.anchors == [] {
      NothingCovered(w);
      assert low + rows == rows;
      if rows == [] {
        FoldNothing(h, w.chain.log);
      } else {
        FoldNonEmpty(h, "", w.chain.log, rows);
      }
    } else {
      assert chain'.anchors[0] == w.chain.anchors[0];
      assert (low + rows)[|low + rows| - 1] == rows[|rows| - 1];
      FoldNonEmpty(h, Prior(w.chain).value.root, w.chain.log, rows);
    }
  }

  lemma NothingCovered(w: World)
    requires w.chain.anchors == []
    ensures InOrder(Covered(w)) == []
  {
  }

  lemma FoldNothing(h: string -> string, log: Log)
    ensures forall seed :: Fold(h, seed, log, []) == seed
  {
  }

  lemma WriteIsExact(h: string -> string, t: TenantId, start: Chain, w: World)
    requires Exact(h, start, w) && ToPersist(Delta(h, t, w.chain)) && forall s :: h(s) != ""
    ensures Exact(h, start, Step(h, t, w, AnchorRun(true)))
    ensures Covered(Step(h, t, w, AnchorRun(true))) == w.chain.log.Keys - w.late
  {
    hide InOrder, DeltaKeys, Covered, Fold, Delta, Seed, Watermark;
    WriteCovers(h, t, start, w);
    WriteFolds(h, t, start, w);
  }

  lemma RunKeepsExact(h: string -> string, t: TenantId, start: Chain, w: World, persists: bool)
    requires Exact(h, start, w) && forall s :: h(s) != ""
    ensures Exact(h, start, Step(h, t, w, AnchorRun(persists)))
    ensures persists ==> Covered(Step(h, t, w, AnchorRun(persists))) == w.chain.log.Keys - w.late
  {
    hide InOrder, Exact, Fold;
    if ToPersist(Delta(h, t, w.chain)) && persists {
      WriteIsExact(h, t, start, w);
    } else if persists {
      IdleDelta(h, t, w.chain);
      forall k | k in w.chain.log ensures Watermark(w.chain).Some? && !PastWatermark(k, Watermark(w.chain)) {
        assert k !in DeltaKeys(w.chain);
      }
      assert forall k :: k in w.chain.log.Keys - w.late <==> k in w.chain.log && k !in w.late;
      IdleCovers(h, start, w);
    }
  }

  lemma IdleDelta(h: string -> string, t: TenantId, chain: Chain)
    requires !ToPersist(Delta(h, t, chain))
    ensures chain.anchors != [] && DeltaKeys(chain) == {}
  {
    hide InOrder;
    InOrderFacts(DeltaKeys(chain));
  }

  lemma IdleCovers(h: string -> string, start: Chain, w: World)
    requires Exact(h, start, w) && (forall k :: k in w.chain.log ==> !PastWatermark(k, Watermark(w.chain)))
    ensures Covered(w) == w.chain.log.Keys - w.late
  {
    hide InOrder, Fold;
    assert forall k :: k in w.chain.log.Keys - w.late <==> k in w.chain.log && k !in w.late;
  }

  /**
   * For every history, however the log is split into runs and whichever writes fail: the latest anchor is the fold, from
   * the seed of the chain and in (created_at, id) order, of exactly the covered rows, with their number and the last of
   * them as watermark.
   */
  lemma {:induction false} AnchorsExact(h: string -> string, t: TenantId, start: Chain, events: seq<Event>)
    requires (forall s :: h(s) != "") && Unmarked(start)
    ensures Exact(h, start, History(h, t, start, events))
  {
    hide InOrder, Fold, Seed;
    if events == [] {
      NothingYet(h, start);
    } else {
      var w := History(h, t, start, events[..|events| - 1]);
      AnchorsExact(h, t, start, events[..|events| - 1]);
      match events[|events| - 1] {
        case Append(k, hash) => AppendKeepsExact(h, t, start, w, k, hash);
        case AnchorRun(persists) => RunKeepsExact(h, t, start, w, persists);
      }
    }
  }

  lemma NothingYet(h: string -> string, start: Chain)
    requires Unmarked(start)
    ensures Exact(h, start, World(start, {}))
  {
    hide InOrder;
    InOrderFacts({});
    assert Covered(World(start, {})) == {};
    FoldNothing(h, start.log);
  }

  /**
   * Tamper evidence. Take any two histories, of any chains, whose latest anchors cover the same rows with hashes of one
   * length. If their roots agree, so does every covered row's hash, and what they were folded onto; or the hash function
   * has collided. And rows that agree give roots that agree.
   */
  lemma TamperEvident(h: string -> string, t: TenantId, start: Chain, events: seq<Event>, start': Chain,
                      events': seq<Event>,
                      len: nat)
    requires (forall s :: h(s) != "") && Unmarked(start) && Unmarked(start')
    requires var w, w' := History(h, t, start, events), History(h, t, start', events');
      && w.chain.anchors != [] && w'.chain.anchors != [] && Covered(w) == Covered(w')
      && forall k :: k in Covered(w) ==> |w.chain.log[k]| == len && |w'.chain.log[k]| == len
    ensures var w, w' := History(h, t, start, events), History(h, t, start', events');
      var same := Seed(start, w.chain) == Seed(start', w'.chain)
                  && forall k :: k in Covered(w) ==> w.chain.log[k] == w'.chain.log[k];
      && (same ==> Prior(w.chain).value.root == Prior(w'.chain).value.root)
      && (Prior(w.chain).value.root == Prior(w'.chain).value.root ==> same || Collision(h))
  {
    hide InOrder, Fold, Seed, Collision, History;
    var w, w' := History(h, t, start, events), History(h, t, start', events');
    AnchorsExact(h, t, start, events);
    AnchorsExact(h, t, start', events');
    InOrderFacts(Covered(w));
    var keys := InOrder(Covered(w));
    if Prior(w.chain).value.root == Prior(w'.chain).value.root && !Collision(h) {
      FoldBinds(h, Seed(start, w.chain), Seed(start', w'.chain), w.chain.log, w'.chain.log, keys, len);
    }
    if Seed(start, w.chain) == Seed(start', w'.chain) && forall k :: k in Covered(w) ==> w.chain.log[k] == w'.chain.log[k] {
      FoldFrame(h, Seed(start, w.chain), w.chain.log, w'.chain.log, keys);
    }
  }

  /** Rows are folded by creation time, and by id where that ties. */
  lemma FoldOrder(keys: set<Key>)
    ensures var r := InOrder(keys);
      && |r| == |keys| && (forall k :: k in r <==> k in keys)
      && forall i, j :: 0 <= i < j < |r| ==>
           r[i].createdAt < r[j].createdAt || (r[i].createdAt == r[j].createdAt && r[i].id < r[j].id)
  {
    hide InOrder;
    InOrderFacts(keys);
  }

  /**
   * What a persisted run anchors: every row but those that arrived at or behind the watermark of their time, on top of what
   * the chain started from. So for a new chain it anchors the whole log, as a from-scratch fold, if and only if no row
   * arrived late.
   */
  lemma WholeLogExact(h: string -> string, t: TenantId, start: Chain, events: seq<Event>)
    requires events != [] && events[|events| - 1] == AnchorRun(true)
    requires (forall s :: h(s) != "") && Unmarked(start)
    ensures var w := History(h, t, start, events);
      && w.chain.anchors != [] && w.late <= w.chain.log.Keys
      && Prior(w.chain).value.root == Fold(h, Seed(start, w.chain), w.chain.log, InOrder(w.chain.log.Keys - w.late))
      && Prior(w.chain).value.entries == Base(start) + |w.chain.log| - |w.late|
      && (Base(start) == 0 ==> (Prior(w.chain).value.entries == |w.chain.log| <==> w.late == {}))
  {
    hide InOrder, Fold, Seed;
    var before := events[..|events| - 1];
    AnchorsExact(h, t, start, before);
    RunKeepsExact(h, t, start, History(h, t, start, before), true);
    AnchorsExact(h, t, start, events);
    var w := History(h, t, start, events);
    var keys := w.chain.log.Keys;
    InOrderFacts(keys - w.late);
    assert w.late <= keys && |keys - w.late| == |keys| - |w.late|;
    RunAnchors(h, t, History(h, t, start, before).chain);
  }

  lemma RunAnchors(h: string -> string, t: TenantId, chain: Chain)
    ensures Run(h, t, chain, true).anchors != []
  {
  }

  /** A history's log is what it started from and every row that arrived, each with the hash it arrived with first. */
  lemma {:induction false} LogIsEverything(h: string -> string, t: TenantId, start: Chain, events: seq<Event>, k: Key)
    ensures var log := History(h, t, start, events).chain.log;
      && start.log.Keys <= log.Keys && (k in start.log ==> log[k] == start.log[k])
      && (k in log <==> k in start.log || exists i :: 0 <= i < |events| && events[i].Append? && events[i].k == k)
      && (k !in start.log && k in log ==>
            exists i :: 0 <= i < |events| && events[i] == Append(k, log[k])
                        && forall j :: 0 <= j < i ==> !(events[j].Append? && events[j].k == k))
  {
    hide Step;
    if events != [] {
      var n := |events| - 1;
      LogIsEverything(h, t, start, events[..n], k);
      assert forall j :: 0 <= j < n ==> events[..n][j] == events[j];
      StepLog(h, t, History(h, t, start, events[..n]), events[n], k);
    }
  }

  lemma StepLog(h: string -> string, t: TenantId, w: World, e: Event, k: Key)
    ensures var log, log' := w.chain.log, Step(h, t, w, e).chain.log;
      && log.Keys <= log'.Keys
      && (k in log ==> k in log' && log'[k] == log[k])
      && (k !in log ==> (k in log' <==> e.Append? && e.k == k) && (k in log' ==> e == Append(k, log'[k])))
  {
    hide Run;
    RunKeepsLog(h, t, w.chain);
  }

  lemma RunKeepsLog(h: string -> string, t: TenantId, chain: Chain)
    ensures forall persists :: Run(h, t, chain, persists).log == chain.log
  {
  }

  /** Which chains these theorems start from: those whose latest anchor, if any, lacks half a watermark. */
  lemma UnmarkedExact(start: Chain)
    ensures Unmarked(start) <==>
      start.anchors == []
      || start.anchors[|start.anchors| - 1].lastEntryId == None || start.anchors[|start.anchors| - 1].lastEntryCreatedAt == None
  {
  }

  /** A run that finds no new row changes nothing, whether or not writes work. */
  lemma IdleRun(h: string -> string, t: TenantId, chain: Chain, persists: bool)
    requires chain.anchors != []
    ensures DeltaKeys(chain) == {} ==> Run(h, t, chain, persists) == chain
    ensures DeltaKeys(chain) != {} && persists ==> |Run(h, t, chain, persists).anchors| == |chain.anchors| + 1
  {
  }

  /**
   * The header of the source says an anchor without a watermark is recomputed from scratch. Over every history from such a
   * chain, the anchors are not those of a new chain over the same rows, unless the old anchor covered nothing: all rows are
   * folded onto the old root, and counted on top of the old count.
   */
  lemma LegacyAnchorFoldsTwice(h: string -> string, t: TenantId, log: Log, legacies: seq<Anchor>, events: seq<Event>)
    requires events != [] && events[|events| - 1] == AnchorRun(true) && (forall s :: h(s) != "")
    requires legacies != [] && Unmarked(Chain(log, legacies))
    ensures var w, legacy := History(h, t, Chain(log, legacies), events), legacies[|legacies| - 1];
      && w.chain.anchors != [] && w.late <= w.chain.log.Keys
      && Prior(w.chain).value.root == Fold(h, legacy.root, w.chain.log, InOrder(w.chain.log.Keys - w.late))
      && Prior(w.chain).value.entries == legacy.entries + |w.chain.log| - |w.late|
      && (Prior(w.chain).value.entries == |w.chain.log| - |w.late| <==> legacy.entries == 0)
  {
    hide InOrder, Fold;
    WholeLogExact(h, t, Chain(log, legacies), events);
  }

  /** And where the old anchor was the fold of rows still in the log, each of those rows is folded twice. */
  lemma CoveredRowsFoldTwice(h: string -> string, t: TenantId, log: Log, legacy: Anchor, rows: set<Key>)
    requires rows <= log.Keys && Unmarked(Chain(log, [legacy])) && (forall s :: h(s) != "") && log != map[]
    requires legacy.root == Fold(h, "", log, InOrder(rows)) && legacy.entries == |rows|
    ensures var a := Prior(Run(h, t, Chain(log, [legacy]), true)).value;
      && a.root == Fold(h, "", log, InOrder(rows) + InOrder(log.Keys)) && a.entries == |rows| + |log|
  {
    hide InOrder, Fold;
    var chain := Chain(log, [legacy]);
    assert DeltaKeys(chain) == log.Keys;
    FoldConcat(h, "", log, InOrder(rows), InOrder(log.Keys));
    InOrderFacts(log.Keys);
    assert log.Keys != {};
    FoldNonEmpty(h, legacy.root, log, InOrder(log.Keys));
  }
}
