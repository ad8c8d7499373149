/**
 * The CRM mirror ingest (apps/backend/src/jobs/v2Ingest.ts): sixteen source tables upserted parents first, with id maps
 * that resolve foreign keys. Source columns are opaque text; each row is written in its own transaction, which may fail.
 */
module Ingest {
  import opened Wrappers

  type Uuid = nat

  datatype Entity =
    | Country | Institution | Course | Lead | Application | LeadCourse | History | Payment
    | Remark | FollowUp | Call | Visit | Assignment | Qualification | LanguageTest | Guardian

  /** The key each mirror table is deduplicated on. */
  datatype Key = Id(id: int) | LeadCourseKey(leadId: int, courseId: int) | AssignmentKey(kind: string, id: int)

  /** A row of the dump. `refs` are the v2 keys of its parents; `extra` is the one column a null does not overwrite. */
  datatype DumpRow = DumpRow(key: Key, columns: string, extra: Option<string>, refs: seq<Option<Key>>)

  /** A row of the mirror. `owned` and `erased` belong to this system, not to the source. */
  datatype Row = Row(uuid: Uuid, columns: string, extra: Option<string>, parents: seq<Option<Uuid>>, owned: string,
                     erased: bool)

  type Table = map<Key, Row>
  type IdMap = map<Key, Uuid>
  type Tables = map<Entity, Table>
  type Ids = map<Entity, IdMap>
  type Dump = Entity -> seq<DumpRow>

  datatype Parent = Parent(entity: Entity, required: bool)

  const NEW_OWNED := "defaults"

  /**
   * The foreign keys of each table. A missing required parent fails the row; a missing optional one is stored as null.
   */
  function Parents(e: Entity): seq<Parent> {
    match e
    case Country => []
    case Institution => [Parent(Country, false)]
    case Course => [Parent(Institution, false)]
    case Lead => []
    case Application => [Parent(Lead, true), Parent(Course, true)]
    case LeadCourse => [Parent(Lead, true), Parent(Course, true)]
    case History => [Parent(Lead, true), Parent(Course, false)]
    case _ => [Parent(Lead, true)]
  }

  function Order(): seq<Entity> {
    [Country, Institution, Course, Lead, Application, LeadCourse, History, Payment,
     Remark, FollowUp, Call, Visit, Assignment, Qualification, LanguageTest, Guardian]
  }

  function Rank(e: Entity): nat {
    match e
    case Country => 0 case Institution => 1 case Course => 2 case Lead => 3 case Application => 4 case LeadCourse => 5
    case History => 6 case Payment => 7 case Remark => 8 case FollowUp => 9 case Call => 10 case Visit => 11
    case Assignment => 12 case Qualification => 13 case LanguageTest => 14 case Guardian => 15
  }

  /** The order is topological: every parent comes first. */
  lemma OrderIsTopological()
    ensures |Order()| == 16 && forall e :: Rank(e) < 16 && Order()[Rank(e)] == e
    ensures forall i :: 0 <= i < 16 ==> Rank(Order()[i]) == i
    ensures forall e, i :: 0 <= i < |Parents(e)| ==> Rank(Parents(e)[i].entity) < Rank(e)
  {
  }

  /** Which parents each table has, and which it cannot do without. */
  lemma ForeignKeys(e: Entity)
    ensures Rank(e) > Rank(Lead) <==> Parents(e) != [] && Parents(e)[0] == Parent(Lead, true)
    ensures Parents(e) == [] <==> e in {Country, Lead}
    ensures Parents(Institution) == [Parent(Country, false)] && Parents(Course) == [Parent(Institution, false)]
    ensures |Parents(e)| == 2 <==> e in {Application, LeadCourse, History}
    ensures |Parents(e)| == 2 ==> Parents(e)[1] == Parent(Course, e != History)
    ensures |Parents(e)| <= 2
  {
  }

  function TableOf(tables: Tables, e: Entity): Table {
    if e in tables then tables[e] else map[]
  }

  function IdsOf(ids: Ids, e: Entity): IdMap {
    if e in ids then ids[e] else map[]
  }

  // ---- One table ----

  function Resolve(ids: Ids, p: Parent, ref: Option<Key>): Option<Uuid> {
    if ref.Some? && ref.value in IdsOf(ids, p.entity) then Some(IdsOf(ids, p.entity)[ref.value]) else None
  }

  ghost predicate ShapeOk(e: Entity, r: DumpRow) {
    |r.refs| == |Parents(e)|
  }

  function ResolveAll(ids: Ids, e: Entity, r: DumpRow): seq<Option<Uuid>>
    requires ShapeOk(e, r)
  {
    seq(|r.refs|, i requires 0 <= i < |r.refs| => Resolve(ids, Parents(e)[i], r.refs[i]))
  }

  /** The row is not about an erased lead, and every required parent resolved. */
  predicate Usable(ids: Ids, e: Entity, skip: set<Key>, r: DumpRow)
    requires ShapeOk(e, r)
  {
    r.key !in skip && forall i :: 0 <= i < |r.refs| && Parents(e)[i].required ==> Resolve(ids, Parents(e)[i], r.refs[i]).Some?
  }

  /** INSERT ... ON CONFLICT (key) DO UPDATE: identity and owned columns of an existing row stay. */
  function Upsert(old': Option<Row>, r: DumpRow, parents: seq<Option<Uuid>>, newId: Uuid): Row {
    match old'
    case None => Row(newId, r.columns, r.extra, parents, NEW_OWNED, false)
    case Some(row) => row.(columns := r.columns, extra := if r.extra.Some? then r.extra else row.extra, parents := parents)
  }

  function Get(t: Table, k: Key): Option<Row> {
    if k in t then Some(t[k]) else None
  }

  /** The rows that will be written if nothing fails. */
  function UsableRows(ids: Ids, e: Entity, skip: set<Key>, rows: seq<DumpRow>): (us: seq<DumpRow>)
    requires forall r :: r in rows ==> ShapeOk(e, r)
    ensures forall r :: r in us <==> r in rows && Usable(ids, e, skip, r)
  {
    if rows == [] then []
    else
      var front, last := UsableRows(ids, e, skip, rows[..|rows| - 1]), rows[|rows| - 1];
      assert rows == rows[..|rows| - 1] + [last];
      if Usable(ids, e, skip, last) then front + [last] else front
  }

  /** The last row with this key: later rows overwrite earlier ones. */
  function Latest(rows: seq<DumpRow>, k: Key): (source: Option<DumpRow>)
    ensures source.Some? <==> exists r :: r in rows && r.key == k
    ensures source.Some? ==> source.value in rows && source.value.key == k
  {
    if rows == [] then None
    else
      var last := rows[|rows| - 1];
      assert rows == rows[..|rows| - 1] + [last];
      if last.key == k then Some(last) else Latest(rows[..|rows| - 1], k)
  }

  /** The last non-null `extra` with this key, or the given one if there is none. */
  function LatestExtra(rows: seq<DumpRow>, k: Key, initial: Option<string>): Option<string> {
    if rows == [] then initial
    else
      var last := rows[|rows| - 1];
      if last.key == k && last.extra.Some? then last.extra else LatestExtra(rows[..|rows| - 1], k, initial)
  }

  function ExtraIn(row: Option<Row>): Option<string> {
    if row.Some? then row.value.extra else None
  }

  function Lookup(m: IdMap, k: Key): Option<Uuid> {
    if k in m then Some(m[k]) else None
  }

  function Skipped(rows: seq<DumpRow>, skip: set<Key>): nat {
    if rows == [] then 0 else Skipped(rows[..|rows| - 1], skip) + if rows[|rows| - 1].key in skip then 1 else 0
  }

  ghost predicate SameIdentity(a: Row, b: Row) {
    a.uuid == b.uuid && a.owned == b.owned && a.erased == b.erased
  }

  /** One key after any loop: identity and owned columns stay, and only a key with a usable row is written or mapped. */
  ghost predicate KeySafe(source: Option<DumpRow>, pre: Option<Row>, post: Option<Row>, mapped: Option<Uuid>) {
    && (pre.Some? ==> post.Some? && SameIdentity(pre.value, post.value))
    && (pre.None? && post.Some? ==> post.value.owned == NEW_OWNED && !post.value.erased)
    && (post != pre ==> source.Some?)
    && (mapped.Some? ==> source.Some? && post.Some? && post.value.uuid == mapped.value)
  }

  /** One key after a loop without failures: if it has a usable row, it is mapped and holds the latest one. */
  ghost predicate KeyClean(ids: Ids, e: Entity, source: Option<DumpRow>, extra: Option<string>, post: Option<Row>,
                           mapped: Option<Uuid>) {
    && ExtraIn(post) == extra
    && (source.Some? ==>
          && mapped.Some? && post.Some? && ShapeOk(e, source.value)
          && post.value.columns == source.value.columns
          && post.value.parents == ResolveAll(ids, e, source.value))
  }

  ghost predicate LevelSafe(us: seq<DumpRow>, pre: Table, post: Table, idMap: IdMap) {
    forall k :: KeySafe(Latest(us, k), Get(pre, k), Get(post, k), Lookup(idMap, k))
  }

  ghost predicate LevelClean(ids: Ids, e: Entity, us: seq<DumpRow>, pre: Table, post: Table, idMap: IdMap) {
    forall k :: KeyClean(ids, e, Latest(us, k), LatestExtra(us, k, ExtraIn(Get(pre, k))), Get(post, k), Lookup(idMap, k))
  }

  lemma UsableSnoc(ids: Ids, e: Entity, skip: set<Key>, rows: seq<DumpRow>, i: nat)
    requires i < |rows| && forall r :: r in rows ==> ShapeOk(e, r)
    ensures forall r :: r in rows[..i + 1] ==> ShapeOk(e, r)
    ensures var front := UsableRows(ids, e, skip, rows[..i]);
      UsableRows(ids, e, skip, rows[..i + 1]) == if Usable(ids, e, skip, rows[i]) then front + [rows[i]] else front
    ensures Skipped(rows[..i + 1], skip) == Skipped(rows[..i], skip) + if rows[i].key in skip then 1 else 0
  {
    hide Usable;
    var upto := rows[..i + 1];
    assert upto[|upto| - 1] == rows[i] && upto[..|upto| - 1] == rows[..i];
  }

  lemma LatestSnoc(us: seq<DumpRow>, r: DumpRow, k: Key, initial: Option<string>)
    ensures Latest(us + [r], k) == if r.key == k then Some(r) else Latest(us, k)
    ensures LatestExtra(us + [r], k, initial) ==
        if r.key == k && r.extra.Some? then r.extra else LatestExtra(us, k, initial)
  {
    assert (us + [r])[..|us|] == us;
  }

  /** Writing a usable row keeps a level safe, and clean if it was clean. */
  lemma WriteRow(ids: Ids, e: Entity, us: seq<DumpRow>, r: DumpRow, pre: Table, cur: Table, idMap: IdMap, newId: Uuid)
    requires ShapeOk(e, r) && LevelSafe(us, pre, cur, idMap)
    ensures var row := Upsert(Get(cur, r.key), r, ResolveAll(ids, e, r), newId);
      var post, idMap' := cur[r.key := row], idMap[r.key := row.uuid];
      && LevelSafe(us + [r], pre, post, idMap')
      && (LevelClean(ids, e, us, pre, cur, idMap) ==> LevelClean(ids, e, us + [r], pre, post, idMap'))
  {
    hide Latest, LatestExtra, ResolveAll, KeySafe, KeyClean, Upsert, ExtraIn;
    var row := Upsert(Get(cur, r.key), r, ResolveAll(ids, e, r), newId);
    var post, idMap' := cur[r.key := row], idMap[r.key := row.uuid];
    var clean := LevelClean(ids, e, us, pre, cur, idMap);
    forall k
      ensures KeySafe(Latest(us + [r], k), Get(pre, k), Get(post, k), Lookup(idMap', k))
      ensures clean ==>
        KeyClean(ids, e, Latest(us + [r], k), LatestExtra(us + [r], k, ExtraIn(Get(pre, k))), Get(post, k), Lookup(idMap', k))
    {
      var extra := LatestExtra(us, k, ExtraIn(Get(pre, k)));
      LatestSnoc(us, r, k, ExtraIn(Get(pre, k)));
      assert KeySafe(Latest(us, k), Get(pre, k), Get(cur, k), Lookup(idMap, k));
      assert clean ==> KeyClean(ids, e, Latest(us, k), extra, Get(cur, k), Lookup(idMap, k));
      if k == r.key {
        WriteKey(ids, e, Latest(us, k), extra, r, Get(pre, k), Get(cur, k), Lookup(idMap, k), newId);
      } else {
        assert Get(post, k) == Get(cur, k) && Lookup(idMap', k) == Lookup(idMap, k);
      }
    }
  }

  lemma WriteKey(ids: Ids, e: Entity, source: Option<DumpRow>, extra: Option<string>, r: DumpRow, pre: Option<Row>,
                 cur: Option<Row>, mapped: Option<Uuid>, newId: Uuid)
    requires ShapeOk(e, r) && KeySafe(source, pre, cur, mapped)
    ensures var row := Upsert(cur, r, ResolveAll(ids, e, r), newId);
      && KeySafe(Some(r), pre, Some(row), Some(row.uuid))
      && (KeyClean(ids, e, source, extra, cur, mapped) ==>
            KeyClean(ids, e, Some(r), if r.extra.Some? then r.extra else extra, Some(row), Some(row.uuid)))
  {
  }

  /** A usable row whose transaction fails leaves a level safe. */
  lemma LoseRow(us: seq<DumpRow>, r: DumpRow, pre: Table, cur: Table, idMap: IdMap)
    requires LevelSafe(us, pre, cur, idMap)
    ensures LevelSafe(us + [r], pre, cur, idMap)
  {
    hide Latest;
    forall k ensures KeySafe(Latest(us + [r], k), Get(pre, k), Get(cur, k), Lookup(idMap, k)) {
      LatestSnoc(us, r, k, None);
      assert KeySafe(Latest(us, k), Get(pre, k), Get(cur, k), Lookup(idMap, k));
    }
  }

  // ---- The run ----

  datatype Env = Env(fails: nat -> bool, uuid: nat -> Uuid) {
    ghost predicate Clean() { forall n :: !fails(n) }
  }

  /** The lead's stored row carries the mark. */
  ghost predicate Marked(tables: Tables, lead: Key) {
    Lead in tables && lead in tables[Lead] && tables[Lead][lead].erased
  }

  /** A dump row for a marked lead, or one that points at a marked lead. */
  ghost predicate ForMarked(tables: Tables, e: Entity, r: DumpRow) {
    if e == Lead then Marked(tables, r.key)
    else e !in {Country, Institution, Course} && |r.refs| > 0 && r.refs[0].Some? && Marked(tables, r.refs[0].value)
  }

  ghost predicate OnlyForMarked(tables: Tables, dump: Dump, e: Entity, k: Key) {
    forall r :: r in dump(e) && r.key == k ==> ForMarked(tables, e, r)
  }

  ghost function MarkedRows(tables: Tables, e: Entity, rows: seq<DumpRow>): nat {
    if rows == [] then 0
    else MarkedRows(tables, e, rows[..|rows| - 1]) + if ForMarked(tables, e, rows[|rows| - 1]) then 1 else 0
  }

  /** The rows of all tables that are for marked leads. */
  ghost function AllMarkedRows(tables: Tables, dump: Dump, n: nat): nat
    requires n <= |Order()|
  {
    if n == 0 then 0 else AllMarkedRows(tables, dump, n - 1) + MarkedRows(tables, Order()[n - 1], dump(Order()[n - 1]))
  }

  function Erased(tables: Tables): (marked: set<Key>)
    ensures forall k :: k in marked <==> Marked(tables, k)
  {
    set k | k in TableOf(tables, Lead) && TableOf(tables, Lead)[k].erased
  }

  function SkipSet(tables: Tables, e: Entity): set<Key> {
    if e == Lead then Erased(tables) else {}
  }

  ghost predicate DumpOk(dump: Dump) {
    forall e, r :: r in dump(e) ==> ShapeOk(e, r)
  }

  function TotalRows(dump: Dump, n: nat): nat
    requires n <= |Order()|
  {
    if n == 0 then 0 else TotalRows(dump, n - 1) + |dump(Order()[n - 1])|
  }

  class Mirror {
    var tables: Tables
    var clock: nat

    constructor (tables: Tables)
      ensures this.tables == tables
    {
      this.tables, clock := tables, 0;
    }

    /** The loop every table goes through: resolve parents, upsert in a transaction of its own, count. */
    method UpsertRows(e: Entity, rows: seq<DumpRow>, ids: Ids, skip: set<Key>, env: Env)
      returns (idMap: IdMap, processed: nat, failed: nat)
      requires forall r :: r in rows ==> ShapeOk(e, r)
      modifies this
      ensures tables == old(tables)[e := TableOf(tables, e)]
      ensures processed + failed + Skipped(rows, skip) == |rows|
      ensures processed <= |UsableRows(ids, e, skip, rows)| && (env.Clean() ==> processed == |UsableRows(ids, e, skip, rows)|)
      ensures LevelSafe(UsableRows(ids, e, skip, rows), TableOf(old(tables), e), TableOf(tables, e), idMap)
      ensures env.Clean() ==>
        LevelClean(ids, e, UsableRows(ids, e, skip, rows), TableOf(old(tables), e), TableOf(tables, e), idMap)
    {
      hide LevelSafe, LevelClean, Usable, UsableRows, ResolveAll, Latest, Skipped;
      ghost var pre := TableOf(tables, e);
      var table := TableOf(tables, e);
      idMap, processed, failed := map[], 0, 0;
      EmptyLevel(ids, e, skip, table);
      assert rows[..0] == [];
      ghost var us := UsableRows(ids, e, skip, []);
      for i := 0 to |rows|
        invariant processed + failed + Skipped(rows[..i], skip) == i
        invariant forall r :: r in rows[..i] ==> ShapeOk(e, r)
        invariant us == UsableRows(ids, e, skip, rows[..i])
        invariant processed <= |us| && LevelSafe(us, pre, table, idMap)
        invariant env.Clean() ==> processed == |us| && LevelClean(ids, e, us, pre, table, idMap)
        invariant tables == old(tables)
      {
        var r := rows[i];
        assert r in rows;
        UsableSnoc(ids, e, skip, rows, i);
        SkippedIsUnusable(ids, e, skip, r);
        if r.key in skip {
          continue;
        }
        if !Usable(ids, e, skip, r) {
          failed := failed + 1;
          continue;
        }
        var n := clock;
        clock := clock + 1;
        if env.fails(n) {
          LoseRow(us, r, pre, table, idMap);
          failed := failed + 1;
        } else {
          WriteRow(ids, e, us, r, pre, table, idMap, env.uuid(n));
          var row := Upsert(Get(table, r.key), r, ResolveAll(ids, e, r), env.uuid(n));
          table, idMap := table[r.key := row], idMap[r.key := row.uuid];
          processed := processed + 1;
        }
        us := us + [r];
      }
      assert rows[..|rows|] == rows;
      tables := tables[e := table];
    }

    /** The whole ingest: counts add up whatever fails, and a clean run leaves the mirror converged. */
    method IngestForTenant(dump: Dump, env: Env) returns (processed: nat, failed: nat, ghost ids: Ids)
      requires DumpOk(dump)
      modifies this
      ensures processed + failed + MarkedRows(old(tables), Lead, dump(Lead))
        == |dump(Country)| + |dump(Institution)| + |dump(Course)| + |dump(Lead)| + |dump(Application)| + |dump(LeadCourse)|
          + |dump(History)| + |dump(Payment)| + |dump(Remark)| + |dump(FollowUp)| + |dump(Call)|
          + |dump(Visit)| + |dump(Assignment)| + |dump(Qualification)| + |dump(LanguageTest)| + |dump(Guardian)|
      ensures failed + MarkedRows(old(tables), Lead, dump(Lead)) >= AllMarkedRows(old(tables), dump, |Order()|)
      ensures forall k :: Marked(old(tables), k) ==> Lead in tables && k in tables[Lead] && tables[Lead][k] == old(tables)[Lead][k]
      ensures forall e, k :: OnlyForMarked(old(tables), dump, e, k) ==>
        Get(TableOf(tables, e), k) == Get(TableOf(old(tables), e), k)
      ensures Upto(dump, old(tables), tables, ids, |Order()|)
      ensures env.Clean() ==> Converged(dump, old(tables), tables)
      ensures env.Clean() ==> processed == SourceTotal(dump, Erased(old(tables)), |Order()|)
    {
      hide LevelRows, UsableTotal, SourceTotal, UsableRows, LevelSafe, LevelClean, Skipped, TotalRows, Converged;
      hide Erased, SkipSet, Upto, CleanUpto, SkippedUpto, Order, MarkedRows, AllMarkedRows, OnlyForMarked, Marked;
      ghost var pre := tables;
      var skip := Erased(tables);
      ids := map[];
      var maps: Ids := map[];
      processed, failed := 0, 0;
      OrderIsTopological();
      NothingYet(dump, pre, skip);
      for i := 0 to 16
        invariant Upto(dump, pre, tables, maps, i)
        invariant env.Clean() ==> CleanUpto(dump, pre, tables, maps, i)
        invariant processed + failed + SkippedUpto(dump, skip, i) == TotalRows(dump, i)
        invariant processed <= UsableTotal(dump, pre, maps, i)
        invariant env.Clean() ==> processed == UsableTotal(dump, pre, maps, i)
      {
        var e := Order()[i];
        ghost var before, maps0 := tables, maps;
        TableUntouched(dump, pre, tables, maps, i);
        SkipSetOf(pre, e, skip);
        var idMap, p, f := UpsertRows(e, dump(e), maps, if e == Lead then skip else {}, env);
        maps := maps[e := idMap];
        LevelCounted(dump, pre, maps0, idMap, i);
        processed, failed := processed + p, failed + f;
        LevelDone(dump, pre, before, tables, maps0, idMap, i);
        if env.Clean() {
          LevelDoneCleanly(dump, pre, before, tables, maps0, idMap, i);
        }
        CountLevel(dump, skip, i);
      }
      ids := maps;
      CountDone(dump, skip);
      CountAll(dump);
      SkippedAreMarked(pre, dump(Lead));
      MarkedAreUnusable(dump, pre, tables, maps, 16);
      MarkedStayFrozen(dump, pre, tables, maps);
      if env.Clean() {
        ConvergedFromLevels(dump, pre, tables, maps);
        UsableTotalIsSources(dump, pre, tables, maps, 16);
      }
    }
  }

  lemma EmptyLevel(ids: Ids, e: Entity, skip: set<Key>, table: Table)
    ensures LevelSafe(UsableRows(ids, e, skip, []), table, table, map[])
    ensures LevelClean(ids, e, UsableRows(ids, e, skip, []), table, table, map[])
    ensures Skipped([], skip) == 0 && UsableRows(ids, e, skip, []) == []
  {
  }

  lemma SkippedIsUnusable(ids: Ids, e: Entity, skip: set<Key>, r: DumpRow)
    requires ShapeOk(e, r)
    ensures r.key in skip ==> !Usable(ids, e, skip, r)
  {
  }

  // ---- The levels together ----

  /** The rows of one table that a run with these id maps writes if nothing fails. */
  function LevelRows(dump: Dump, pre: Tables, ids: Ids, e: Entity): seq<DumpRow>
    requires DumpOk(dump)
  {
    UsableRows(ids, e, SkipSet(pre, e), dump(e))
  }

  /** The first i tables are done safely, the others untouched. */
  ghost predicate Upto(dump: Dump, pre: Tables, tables: Tables, ids: Ids, i: nat)
    requires DumpOk(dump)
  {
    && (forall e :: Rank(e) >= i ==> TableOf(tables, e) == TableOf(pre, e) && IdsOf(ids, e) == map[])
    && (forall e :: Rank(e) < i ==> LevelSafe(LevelRows(dump, pre, ids, e), TableOf(pre, e), TableOf(tables, e), IdsOf(ids, e)))
  }

  ghost predicate CleanUpto(dump: Dump, pre: Tables, tables: Tables, ids: Ids, i: nat)
    requires DumpOk(dump)
  {
    forall e :: Rank(e) < i ==>
      LevelClean(ids, e, LevelRows(dump, pre, ids, e), TableOf(pre, e), TableOf(tables, e), IdsOf(ids, e))
  }

  /** All tables are done, and nothing failed. */
  ghost predicate RanClean(dump: Dump, pre: Tables, tables: Tables, ids: Ids) {
    DumpOk(dump) && Upto(dump, pre, tables, ids, 16) && CleanUpto(dump, pre, tables, ids, 16)
  }

  function SkippedUpto(dump: Dump, skip: set<Key>, i: nat): nat {
    if i > 3 then Skipped(dump(Lead), skip) else 0
  }

  lemma NothingYet(dump: Dump, pre: Tables, skip: set<Key>)
    requires DumpOk(dump)
    ensures Upto(dump, pre, pre, map[], 0) && CleanUpto(dump, pre, pre, map[], 0)
    ensures TotalRows(dump, 0) == 0 && SkippedUpto(dump, skip, 0) == 0 && UsableTotal(dump, pre, map[], 0) == 0
  {
  }

  lemma TableUntouched(dump: Dump, pre: Tables, tables: Tables, ids: Ids, i: nat)
    requires i < 16 && DumpOk(dump) && Upto(dump, pre, tables, ids, i)
    ensures forall r :: r in dump(Order()[i]) ==> ShapeOk(Order()[i], r)
    ensures TableOf(tables, Order()[i]) == TableOf(pre, Order()[i])
  {
    hide LevelSafe, LevelRows;
    OrderIsTopological();
  }

  lemma SkipSetOf(pre: Tables, e: Entity, skip: set<Key>)
    requires skip == Erased(pre)
    ensures SkipSet(pre, e) == if e == Lead then skip else {}
  {
  }

  /** Two runs agree on the id maps of this table's parents. */
  ghost predicate SameParents(ids: Ids, ids': Ids, e: Entity) {
    forall j :: 0 <= j < |Parents(e)| ==> IdsOf(ids, Parents(e)[j].entity) == IdsOf(ids', Parents(e)[j].entity)
  }

  /** A level reads only the id maps of its parents. */
  lemma ReadsParents(ids: Ids, ids': Ids, e: Entity, skip: set<Key>, r: DumpRow)
    requires ShapeOk(e, r) && SameParents(ids, ids', e)
    ensures Usable(ids, e, skip, r) == Usable(ids', e, skip, r) && ResolveAll(ids, e, r) == ResolveAll(ids', e, r)
  {
    hide Parents, IdsOf;
  }

  lemma {:induction false} UsableReadsParents(ids: Ids, ids': Ids, e: Entity, skip: set<Key>, rows: seq<DumpRow>)
    requires (forall r :: r in rows ==> ShapeOk(e, r)) && SameParents(ids, ids', e)
    ensures UsableRows(ids, e, skip, rows) == UsableRows(ids', e, skip, rows)
  {
    hide Usable, SameParents;
    if rows != [] {
      ReadsParents(ids, ids', e, skip, rows[|rows| - 1]);
      UsableReadsParents(ids, ids', e, skip, rows[..|rows| - 1]);
    }
  }

  lemma CleanReadsParents(ids: Ids, ids': Ids, e: Entity, us: seq<DumpRow>, pre: Table, post: Table, idMap: IdMap)
    requires SameParents(ids, ids', e) && LevelClean(ids, e, us, pre, post, idMap)
    ensures LevelClean(ids', e, us, pre, post, idMap)
  {
    hide Latest, LatestExtra, SameParents, ResolveAll, Usable, Get, ExtraIn, Lookup;
    forall k
      ensures KeyClean(ids', e, Latest(us, k), LatestExtra(us, k, ExtraIn(Get(pre, k))), Get(post, k), Lookup(idMap, k))
    {
      assert KeyClean(ids, e, Latest(us, k), LatestExtra(us, k, ExtraIn(Get(pre, k))), Get(post, k), Lookup(idMap, k));
      if Latest(us, k).Some? {
        ReadsParents(ids, ids', e, {}, Latest(us, k).value);
      }
    }
  }

  /** A new id map at level i is invisible to the levels up to i. */
  lemma SameParentsBelow(ids: Ids, idMap: IdMap, i: nat, e: Entity)
    requires i < 16 && Rank(e) <= i
    ensures SameParents(ids, ids[Order()[i] := idMap], e)
  {
    OrderIsTopological();
  }

  lemma LevelDone(dump: Dump, pre: Tables, before: Tables, after: Tables,
                  ids: Ids, idMap: IdMap, i: nat)
    requires i < 16 && DumpOk(dump) && Upto(dump, pre, before, ids, i)
    requires after == before[Order()[i] := TableOf(after, Order()[i])]
    requires LevelSafe(LevelRows(dump, pre, ids, Order()[i]), TableOf(pre, Order()[i]), TableOf(after, Order()[i]), idMap)
    ensures Upto(dump, pre, after, ids[Order()[i] := idMap], i + 1)
  {
    hide LevelSafe, SkipSet, Order, UsableRows, SameParents;
    OrderIsTopological();
    var ids' := ids[Order()[i] := idMap];
    forall e | Rank(e) <= i
      ensures LevelSafe(LevelRows(dump, pre, ids', e), TableOf(pre, e), TableOf(after, e), IdsOf(ids', e))
    {
      SameParentsBelow(ids, idMap, i, e);
      UsableReadsParents(ids, ids', e, SkipSet(pre, e), dump(e));
    }
  }

  lemma LevelDoneCleanly(dump: Dump, pre: Tables, before: Tables, after: Tables,
                         ids: Ids, idMap: IdMap, i: nat)
    requires i < 16 && DumpOk(dump) && CleanUpto(dump, pre, before, ids, i)
    requires after == before[Order()[i] := TableOf(after, Order()[i])]
    requires LevelClean(ids, Order()[i], LevelRows(dump, pre, ids, Order()[i]), TableOf(pre, Order()[i]), TableOf(after, Order()[i]), idMap)
    ensures CleanUpto(dump, pre, after, ids[Order()[i] := idMap], i + 1)
  {
    hide LevelClean, SkipSet, Order, UsableRows, SameParents;
    OrderIsTopological();
    var ids' := ids[Order()[i] := idMap];
    forall e | Rank(e) <= i
      ensures LevelClean(ids', e, LevelRows(dump, pre, ids', e), TableOf(pre, e), TableOf(after, e), IdsOf(ids', e))
    {
      SameParentsBelow(ids, idMap, i, e);
      UsableReadsParents(ids, ids', e, SkipSet(pre, e), dump(e));
      CleanReadsParents(ids, ids', e, LevelRows(dump, pre, ids, e), TableOf(pre, e), TableOf(after, e), IdsOf(ids', e));
    }
  }

  function UsableTotal(dump: Dump, pre: Tables, ids: Ids, n: nat): nat
    requires n <= |Order()| && DumpOk(dump)
  {
    if n == 0 then 0 else UsableTotal(dump, pre, ids, n - 1) + |LevelRows(dump, pre, ids, Order()[n - 1])|
  }

  /** The id map of a level does not change what its own and the earlier levels write. */
  lemma {:induction false} UsableTotalFrame(dump: Dump, pre: Tables, ids: Ids, idMap: IdMap, i: nat, n: nat)
    requires i < 16 && n <= i + 1 && DumpOk(dump)
    ensures UsableTotal(dump, pre, ids[Order()[i] := idMap], n) == UsableTotal(dump, pre, ids, n)
  {
    hide Order, UsableRows, SameParents, SkipSet;
    OrderIsTopological();
    if n > 0 {
      var e := Order()[n - 1];
      UsableTotalFrame(dump, pre, ids, idMap, i, n - 1);
      SameParentsBelow(ids, idMap, i, e);
      UsableReadsParents(ids, ids[Order()[i] := idMap], e, SkipSet(pre, e), dump(e));
    }
  }

  lemma LevelCounted(dump: Dump, pre: Tables, ids: Ids, idMap: IdMap, i: nat)
    requires i < 16 && DumpOk(dump)
    ensures UsableTotal(dump, pre, ids[Order()[i] := idMap], i + 1) ==
        UsableTotal(dump, pre, ids, i) + |LevelRows(dump, pre, ids, Order()[i])|
    ensures LevelRows(dump, pre, ids, Order()[i]) == UsableRows(ids, Order()[i], SkipSet(pre, Order()[i]), dump(Order()[i]))
  {
    hide UsableRows, SkipSet;
    UsableTotalFrame(dump, pre, ids, idMap, i, i + 1);
  }

  lemma CountLevel(dump: Dump, skip: set<Key>, i: nat)
    requires i < 16
    ensures var e := Order()[i];
      && TotalRows(dump, i + 1) == TotalRows(dump, i) + |dump(e)|
      && SkippedUpto(dump, skip, i + 1) == SkippedUpto(dump, skip, i) + Skipped(dump(e), if e == Lead then skip else {})
  {
    OrderIsTopological();
    SkippedNone(dump(Order()[i]));
  }

  lemma CountDone(dump: Dump, skip: set<Key>)
    ensures SkippedUpto(dump, skip, 16) == Skipped(dump(Lead), skip)
  {
  }

  lemma {:induction false} SkippedNone(rows: seq<DumpRow>)
    ensures Skipped(rows, {}) == 0
  {
    if rows != [] {
      SkippedNone(rows[..|rows| - 1]);
    }
  }

  // ---- Erased leads ----

  /** The row is an erased lead, or belongs to one. */
  ghost predicate AboutErased(e: Entity, erased: set<Key>, r: DumpRow)
    requires ShapeOk(e, r)
  {
    if e == Lead then r.key in erased
    else Rank(e) > Rank(Lead) && r.refs[0].Some? && r.refs[0].value in erased
  }

  /** A key that the dump only mentions on behalf of erased leads is left exactly as it was, and gets no new row. */
  lemma ErasedStayFrozen(dump: Dump, pre: Tables, tables: Tables, ids: Ids, e: Entity, k: Key)
    requires DumpOk(dump) && Upto(dump, pre, tables, ids, 16)
    requires forall r :: r in dump(e) && r.key == k ==> AboutErased(e, Erased(pre), r)
    ensures Get(TableOf(tables, e), k) == Get(TableOf(pre, e), k)
  {
    hide Latest, UsableRows, Erased, LevelSafe, Upto;
    LevelIsSafe(dump, pre, tables, ids, e);
    forall r | r in dump(e) && r.key == k ensures !Usable(ids, e, SkipSet(pre, e), r) {
      if e != Lead {
        ErasedIsUnmapped(dump, pre, tables, ids, r.refs[0].value);
        assert Parents(e)[0] == Parent(Lead, true);
      }
    }
    LevelAtKey(LevelRows(dump, pre, ids, e), TableOf(pre, e), TableOf(tables, e), IdsOf(ids, e), k);
  }

  lemma ErasedIsUnmapped(dump: Dump, pre: Tables, tables: Tables, ids: Ids, k: Key)
    requires DumpOk(dump) && Upto(dump, pre, tables, ids, 16) && k in Erased(pre)
    ensures k !in IdsOf(ids, Lead)
  {
    hide Latest, UsableRows, Erased, LevelSafe, Upto;
    LevelIsSafe(dump, pre, tables, ids, Lead);
    LevelAtKey(LevelRows(dump, pre, ids, Lead), TableOf(pre, Lead), TableOf(tables, Lead), IdsOf(ids, Lead), k);
  }

  /** No run, failed or clean, changes which leads are erased: the frozen set is the same for every later run. */
  lemma ErasedStays(dump: Dump, pre: Tables, tables: Tables, ids: Ids)
    requires DumpOk(dump) && Upto(dump, pre, tables, ids, 16)
    ensures Erased(tables) == Erased(pre)
  {
    hide Latest, UsableRows, LevelSafe, Upto, TableOf;
    LevelIsSafe(dump, pre, tables, ids, Lead);
    forall k ensures k in Erased(tables) <==> k in Erased(pre) {
      LevelAtKey(LevelRows(dump, pre, ids, Lead), TableOf(pre, Lead), TableOf(tables, Lead), IdsOf(ids, Lead), k);
    }
  }

  // ---- Leads erased while the run is under way ----

  /** Erasure redacts the lead, in whatever way, and marks it. */
  function EraseLeads(t: Table, ids: set<Key>, redact: Row -> Row): Table {
    map k | k in t :: if k in ids then redact(t[k]).(erased := true) else t[k]
  }

  /** Erasure marks exactly these leads, and leaves the others. */
  lemma ErasureExact(t: Table, ids: set<Key>, redact: Row -> Row)
    ensures var after := EraseLeads(t, ids, redact);
      && after.Keys == t.Keys
      && (forall k :: k in t && k in ids ==> after[k] == redact(t[k]).(erased := true))
      && (forall k :: k in t && k !in ids ==> after[k] == t[k])
  {
  }

  /** The lead loop, with the erased leads as they were read before it, and erasures between its rows. */
  function LeadLoop(t: Table, skip: set<Key>, rows: seq<DumpRow>, erasures: nat -> set<Key>, redact: Row -> Row, env: Env)
    : Table
  {
    if rows == [] then EraseLeads(t, erasures(0), redact)
    else
      var n := |rows| - 1;
      var cur, r := LeadLoop(t, skip, rows[..n], erasures, redact, env), rows[n];
      var post := if r.key in skip || env.fails(n) then cur else cur[r.key := Upsert(Get(cur, r.key), r, [], env.uuid(n))];
      EraseLeads(post, erasures(n + 1), redact)
  }

  lemma LoopNext(t: Table, skip: set<Key>, rows: seq<DumpRow>, erasures: nat -> set<Key>, redact: Row -> Row, env: Env,
                 n: nat)
    requires n < |rows|
    ensures var cur, r := LeadLoop(t, skip, rows[..n], erasures, redact, env), rows[n];
      var post := if r.key in skip || env.fails(n) then cur else cur[r.key := Upsert(Get(cur, r.key), r, [], env.uuid(n))];
      LeadLoop(t, skip, rows[..n + 1], erasures, redact, env) == EraseLeads(post, erasures(n + 1), redact)
  {
    assert rows[..n + 1][..n] == rows[..n];
  }

  class LeadMirror {
    var leads: Table

    constructor (leads: Table)
      ensures this.leads == leads
    {
      this.leads := leads;
    }

    /** Among erasures: before the first row, and after each. */
    method UpsertLeads(rows: seq<DumpRow>, erasures: nat -> set<Key>, redact: Row -> Row, env: Env)
      modifies this
      ensures var skip := set k | k in old(leads) && old(leads)[k].erased;
        leads == LeadLoop(old(leads), skip, rows, erasures, redact, env)
    {
      hide EraseLeads, Upsert;
      ghost var t := leads;
      var skip := set k | k in leads && leads[k].erased;
      leads := EraseLeads(leads, erasures(0), redact);
      for n := 0 to |rows|
        invariant leads == LeadLoop(t, skip, rows[..n], erasures, redact, env)
      {
        var r := rows[n];
        LoopNext(t, skip, rows, erasures, redact, env, n);
        if r.key !in skip && !env.fails(n) {
          leads := leads[r.key := Upsert(Get(leads, r.key), r, [], env.uuid(n))];
        }
        leads := EraseLeads(leads, erasures(n + 1), redact);
      }
      assert rows[..|rows|] == rows;
    }
  }

  /** The last row from j on that writes this lead. */
  function LastWrite(rows: seq<DumpRow>, j: nat, k: Key, env: Env): Option<DumpRow> {
    if |rows| <= j then None
    else
      var n := |rows| - 1;
      if rows[n].key == k && !env.fails(n) then Some(rows[n]) else LastWrite(rows[..n], j, k, env)
  }

  /**
   * The erased leads are read once, before the loop. A lead erased after row j - 1 stays redacted exactly if no later row
   * writes it; otherwise the dump fills it in again, and it only keeps the mark.
   */
  lemma {:induction false} LateErasureExact(t: Table, skip: set<Key>, rows: seq<DumpRow>, erasures: nat -> set<Key>,
                                            redact: Row -> Row, env: Env, j: nat, k: Key)
    requires j <= |rows| && k in erasures(j) && (forall i: nat :: i > j ==> k !in erasures(i)) && k !in skip
    requires k in LeadLoop(t, skip, rows[..j], erasures, redact, env)
    ensures var erased, end := LeadLoop(t, skip, rows[..j], erasures, redact, env), LeadLoop(t, skip, rows, erasures, redact, env);
      var last := LastWrite(rows, j, k, env);
      && k in end && end[k].erased && end[k].uuid == erased[k].uuid
      && (if last.Some? then end[k].columns == last.value.columns else end[k] == erased[k])
  {
    hide EraseLeads, Upsert;
    if |rows| == j {
      assert rows[..j] == rows;
      MarkedWhenErased(t, skip, rows, erasures, redact, env, k);
    } else {
      var n := |rows| - 1;
      assert rows[..n][..j] == rows[..j] && rows[..n + 1] == rows;
      LateErasureExact(t, skip, rows[..n], erasures, redact, env, j, k);
      LoopNext(t, skip, rows, erasures, redact, env, n);
      var cur := LeadLoop(t, skip, rows[..n], erasures, redact, env);
      RowAfter(cur, skip, rows[n], erasures(n + 1), redact, env, n, k);
    }
  }

  /** One turn of the loop, as it concerns a lead that is neither skipped nor erased at its end. */
  lemma RowAfter(cur: Table, skip: set<Key>, r: DumpRow, ids: set<Key>, redact: Row -> Row, env: Env, n: nat, k: Key)
    requires k in cur && k !in ids && k !in skip
    ensures var post := if r.key in skip || env.fails(n) then cur else cur[r.key := Upsert(Get(cur, r.key), r, [], env.uuid(n))];
      var end := EraseLeads(post, ids, redact);
      && k in end && end[k].erased == cur[k].erased && end[k].uuid == cur[k].uuid
      && if r.key == k && !env.fails(n) then end[k].columns == r.columns else end[k] == cur[k]
  {
  }

  lemma MarkedWhenErased(t: Table, skip: set<Key>, rows: seq<DumpRow>, erasures: nat -> set<Key>, redact: Row -> Row,
                         env: Env, k: Key)
    requires k in erasures(|rows|) && k in LeadLoop(t, skip, rows, erasures, redact, env)
    ensures LeadLoop(t, skip, rows, erasures, redact, env)[k].erased
  {
  }

  /** On the stored marks: a marked lead keeps its row, and so does every key named only on behalf of marked leads. */
  lemma MarkedStayFrozen(dump: Dump, pre: Tables, tables: Tables, ids: Ids)
    requires DumpOk(dump) && Upto(dump, pre, tables, ids, 16)
    ensures forall e, k :: OnlyForMarked(pre, dump, e, k) ==> Get(TableOf(tables, e), k) == Get(TableOf(pre, e), k)
    ensures forall k :: Marked(pre, k) ==> Lead in tables && k in tables[Lead] && tables[Lead][k] == pre[Lead][k]
  {
    hide Upto;
    forall e, k | OnlyForMarked(pre, dump, e, k) ensures Get(TableOf(tables, e), k) == Get(TableOf(pre, e), k) {
      forall r | r in dump(e) && r.key == k ensures AboutErased(e, Erased(pre), r) {
        assert ForMarked(pre, e, r);
      }
      ErasedStayFrozen(dump, pre, tables, ids, e, k);
    }
    forall k | Marked(pre, k) ensures Get(TableOf(tables, Lead), k) == Some(pre[Lead][k]) {
      assert OnlyForMarked(pre, dump, Lead, k);
    }
  }

  lemma {:induction false} SkippedAreMarked(pre: Tables, rows: seq<DumpRow>)
    ensures Skipped(rows, Erased(pre)) == MarkedRows(pre, Lead, rows)
  {
    if rows != [] {
      SkippedAreMarked(pre, rows[..|rows| - 1]);
    }
  }

  /** No row for a marked lead is usable, so each of them is skipped or counts as failed. */
  lemma {:induction false} MarkedAreUnusable(dump: Dump, pre: Tables, tables: Tables, ids: Ids, n: nat)
    requires DumpOk(dump) && Upto(dump, pre, tables, ids, 16) && n <= |Order()|
    ensures UsableTotal(dump, pre, ids, n) + AllMarkedRows(pre, dump, n) <= TotalRows(dump, n)
  {
    hide Upto, UsableRows, MarkedRows, Order;
    if n > 0 {
      MarkedAreUnusable(dump, pre, tables, ids, n - 1);
      var e := Order()[n - 1];
      forall r | r in dump(e) && ForMarked(pre, e, r) ensures !Usable(ids, e, SkipSet(pre, e), r) {
        MarkedIsUnusable(dump, pre, tables, ids, e, r);
      }
      UsableAndMarked(ids, e, SkipSet(pre, e), dump(e), pre);
    }
  }

  lemma MarkedIsUnusable(dump: Dump, pre: Tables, tables: Tables, ids: Ids, e: Entity, r: DumpRow)
    requires DumpOk(dump) && Upto(dump, pre, tables, ids, 16) && r in dump(e) && ForMarked(pre, e, r)
    ensures !Usable(ids, e, SkipSet(pre, e), r)
  {
    hide Upto;
    if e != Lead {
      ErasedIsUnmapped(dump, pre, tables, ids, r.refs[0].value);
      assert Parents(e)[0] == Parent(Lead, true);
    }
  }

  lemma {:induction false} UsableAndMarked(ids: Ids, e: Entity, skip: set<Key>, rows: seq<DumpRow>, pre: Tables)
    requires forall r :: r in rows ==> ShapeOk(e, r) && (ForMarked(pre, e, r) ==> !Usable(ids, e, skip, r))
    ensures |UsableRows(ids, e, skip, rows)| + MarkedRows(pre, e, rows) <= |rows|
  {
    hide Usable, ForMarked;
    if rows != [] {
      UsableAndMarked(ids, e, skip, rows[..|rows| - 1], pre);
      assert rows[|rows| - 1] in rows;
    }
  }

  lemma CountAll(dump: Dump)
    ensures TotalRows(dump, |Order()|)
      == |dump(Country)| + |dump(Institution)| + |dump(Course)| + |dump(Lead)| + |dump(Application)| + |dump(LeadCourse)|
         + |dump(History)| + |dump(Payment)| + |dump(Remark)| + |dump(FollowUp)| + |dump(Call)|
         + |dump(Visit)| + |dump(Assignment)| + |dump(Qualification)| + |dump(LanguageTest)| + |dump(Guardian)|
  {
    assert TotalRows(dump, 4) == |dump(Country)| + |dump(Institution)| + |dump(Course)| + |dump(Lead)| by {
      assert TotalRows(dump, 2) == |dump(Country)| + |dump(Institution)|;
    }
    assert TotalRows(dump, 8) == TotalRows(dump, 4) + |dump(Application)| + |dump(LeadCourse)| + |dump(History)| + |dump(Payment)| by {
      assert TotalRows(dump, 6) == TotalRows(dump, 4) + |dump(Application)| + |dump(LeadCourse)|;
    }
    assert TotalRows(dump, 12) == TotalRows(dump, 8) + |dump(Remark)| + |dump(FollowUp)| + |dump(Call)| + |dump(Visit)| by {
      assert TotalRows(dump, 10) == TotalRows(dump, 8) + |dump(Remark)| + |dump(FollowUp)|;
    }
    assert TotalRows(dump, 14) == TotalRows(dump, 12) + |dump(Assignment)| + |dump(Qualification)|;
  }

  lemma LevelIsSafe(dump: Dump, pre: Tables, tables: Tables, ids: Ids, e: Entity)
    requires DumpOk(dump) && Upto(dump, pre, tables, ids, 16)
    ensures LevelSafe(LevelRows(dump, pre, ids, e), TableOf(pre, e), TableOf(tables, e), IdsOf(ids, e))
  {
    hide LevelSafe, LevelRows;
    OrderIsTopological();
  }

  lemma LevelIsClean(dump: Dump, pre: Tables, tables: Tables, ids: Ids, e: Entity)
    requires DumpOk(dump) && CleanUpto(dump, pre, tables, ids, 16)
    ensures LevelClean(ids, e, LevelRows(dump, pre, ids, e), TableOf(pre, e), TableOf(tables, e), IdsOf(ids, e))
  {
    hide LevelClean, LevelRows;
    OrderIsTopological();
  }

  lemma LevelAtKey(us: seq<DumpRow>, pre: Table, post: Table, idMap: IdMap, k: Key)
    requires LevelSafe(us, pre, post, idMap)
    ensures KeySafe(Latest(us, k), Get(pre, k), Get(post, k), Lookup(idMap, k))
  {
  }

  lemma CleanAtKey(ids: Ids, e: Entity, us: seq<DumpRow>, pre: Table, post: Table, idMap: IdMap, k: Key)
    requires LevelClean(ids, e, us, pre, post, idMap)
    ensures KeyClean(ids, e, Latest(us, k), LatestExtra(us, k, ExtraIn(Get(pre, k))), Get(post, k), Lookup(idMap, k))
  {
  }

  // ---- Convergence ----

  /** Whether a dump row can be mirrored at all: decided by the dump and the erased leads alone. */
  ghost predicate Mirrorable(dump: Dump, erased: set<Key>, e: Entity, r: DumpRow)
    requires ShapeOk(e, r)
    decreases Rank(e), 0
  {
    && (e == Lead ==> r.key !in erased)
    && forall i :: 0 <= i < |Parents(e)| && Parents(e)[i].required ==>
         r.refs[i].Some? && Rank(Parents(e)[i].entity) < Rank(e) && Present(dump, erased, Parents(e)[i].entity, r.refs[i].value)
  }

  ghost predicate Present(dump: Dump, erased: set<Key>, e: Entity, k: Key)
    decreases Rank(e), 1
  {
    exists r :: r in dump(e) && r.key == k && ShapeOk(e, r) && Mirrorable(dump, erased, e, r)
  }

  ghost function SourceRows(dump: Dump, erased: set<Key>, e: Entity, rows: seq<DumpRow>): seq<DumpRow>
    requires forall r :: r in rows ==> ShapeOk(e, r)
  {
    if rows == [] then []
    else
      var front, last := SourceRows(dump, erased, e, rows[..|rows| - 1]), rows[|rows| - 1];
      if Mirrorable(dump, erased, e, last) then front + [last] else front
  }

  /** A foreign key points at the mirror row of the v2 parent if the dump can provide it, and is null otherwise. */
  ghost predicate PointsRight(dump: Dump, erased: set<Key>, parents: Table, p: Parent, ref: Option<Key>,
                              fk: Option<Uuid>) {
    if ref.Some? && Present(dump, erased, p.entity, ref.value)
    then ref.value in parents && fk == Some(parents[ref.value].uuid)
    else fk == None
  }

  /**
   * The converged mirror: for every key the dump can provide, source columns and foreign keys are a function of the dump
   * and the erased leads alone; `extra` is the last non-null one, and stays as it was if there is none.
   */
  ghost predicate Converged(dump: Dump, pre: Tables, tables: Tables)
    requires DumpOk(dump)
  {
    forall e, k :: Present(dump, Erased(pre), e, k) ==> RowConverged(dump, pre, tables, e, k)
  }

  ghost predicate RowConverged(dump: Dump, pre: Tables, tables: Tables, e: Entity, k: Key)
    requires DumpOk(dump)
  {
    var sources, row := SourceRows(dump, Erased(pre), e, dump(e)), Get(TableOf(tables, e), k);
    var source := Latest(sources, k);
    && source.Some? && row.Some? && ShapeOk(e, source.value)
    && row.value.columns == source.value.columns
    && row.value.extra == LatestExtra(sources, k, ExtraIn(Get(TableOf(pre, e), k)))
    && ParentsRight(dump, Erased(pre), tables, e, source.value.refs, row.value.parents)
  }

  ghost predicate ParentsRight(dump: Dump, erased: set<Key>, tables: Tables, e: Entity, refs: seq<Option<Key>>,
                               parents: seq<Option<Uuid>>) {
    && |refs| == |parents| == |Parents(e)|
    && forall i :: 0 <= i < |refs| ==>
         PointsRight(dump, erased, TableOf(tables, Parents(e)[i].entity), Parents(e)[i], refs[i], parents[i])
  }

  /** After a clean run the id maps hold exactly the keys the dump can provide. */
  lemma {:induction false} MappedIsPresent(dump: Dump, pre: Tables, tables: Tables, ids: Ids, e: Entity, k: Key)
    requires RanClean(dump, pre, tables, ids)
    ensures k in IdsOf(ids, e) <==> Present(dump, Erased(pre), e, k)
    decreases Rank(e), 1
  {
    hide Upto, CleanUpto, LevelSafe, LevelClean, Latest, LatestExtra, Usable, UsableRows, Mirrorable, Erased;
    hide SkipSet, ResolveAll;
    forall r | r in dump(e) ensures Usable(ids, e, SkipSet(pre, e), r) <==> Mirrorable(dump, Erased(pre), e, r) {
      UsableIsMirrorable(dump, pre, tables, ids, e, r);
    }
    var us := LevelRows(dump, pre, ids, e);
    LevelIsSafe(dump, pre, tables, ids, e);
    LevelIsClean(dump, pre, tables, ids, e);
    LevelAtKey(us, TableOf(pre, e), TableOf(tables, e), IdsOf(ids, e), k);
    CleanAtKey(ids, e, us, TableOf(pre, e), TableOf(tables, e), IdsOf(ids, e), k);
  }

  lemma {:induction false} UsableIsMirrorable(dump: Dump, pre: Tables, tables: Tables, ids: Ids, e: Entity, r: DumpRow)
    requires RanClean(dump, pre, tables, ids)
    requires ShapeOk(e, r)
    ensures Usable(ids, e, SkipSet(pre, e), r) <==> Mirrorable(dump, Erased(pre), e, r)
    decreases Rank(e), 0
  {
    hide Upto, CleanUpto, Present, Erased, IdsOf;
    OrderIsTopological();
    forall i | 0 <= i < |Parents(e)| && r.refs[i].Some?
      ensures r.refs[i].value in IdsOf(ids, Parents(e)[i].entity) <==> Present(dump, Erased(pre), Parents(e)[i].entity, r.refs[i].value)
    {
      MappedIsPresent(dump, pre, tables, ids, Parents(e)[i].entity, r.refs[i].value);
    }
  }

  lemma {:induction false} UsableAreSources(dump: Dump, pre: Tables, tables: Tables, ids: Ids, e: Entity,
                                            rows: seq<DumpRow>)
    requires RanClean(dump, pre, tables, ids)
    requires forall r :: r in rows ==> ShapeOk(e, r)
    ensures UsableRows(ids, e, SkipSet(pre, e), rows) == SourceRows(dump, Erased(pre), e, rows)
    decreases |rows|
  {
    hide Upto, CleanUpto, Usable, Mirrorable;
    if rows != [] {
      UsableIsMirrorable(dump, pre, tables, ids, e, rows[|rows| - 1]);
      UsableAreSources(dump, pre, tables, ids, e, rows[..|rows| - 1]);
    }
  }

  /** How many dump rows of the first n tables can be mirrored at all. */
  ghost function SourceTotal(dump: Dump, erased: set<Key>, n: nat): nat
    requires n <= |Order()| && DumpOk(dump)
  {
    if n == 0 then 0
    else SourceTotal(dump, erased, n - 1) + |SourceRows(dump, erased, Order()[n - 1], dump(Order()[n - 1]))|
  }

  lemma {:induction false} UsableTotalIsSources(dump: Dump, pre: Tables, tables: Tables, ids: Ids, n: nat)
    requires RanClean(dump, pre, tables, ids) && n <= 16
    ensures UsableTotal(dump, pre, ids, n) == SourceTotal(dump, Erased(pre), n)
  {
    hide Upto, CleanUpto, UsableRows, SourceRows, Erased, SkipSet, Order;
    OrderIsTopological();
    if n > 0 {
      UsableTotalIsSources(dump, pre, tables, ids, n - 1);
      UsableAreSources(dump, pre, tables, ids, Order()[n - 1], dump(Order()[n - 1]));
    }
  }

  lemma ConvergedFromLevels(dump: Dump, pre: Tables, tables: Tables, ids: Ids)
    requires RanClean(dump, pre, tables, ids)
    ensures Converged(dump, pre, tables)
  {
    hide Upto, CleanUpto, Present, RowConverged;
    forall e, k | Present(dump, Erased(pre), e, k) ensures RowConverged(dump, pre, tables, e, k) {
      RowConverges(dump, pre, tables, ids, e, k);
    }
  }

  lemma RowConverges(dump: Dump, pre: Tables, tables: Tables, ids: Ids, e: Entity, k: Key)
    requires RanClean(dump, pre, tables, ids)
    requires Present(dump, Erased(pre), e, k)
    ensures RowConverged(dump, pre, tables, e, k)
  {
    hide Upto, CleanUpto, LevelSafe, LevelClean, Present, Latest, LatestExtra, UsableRows, SourceRows, Erased;
    hide SkipSet, ParentsRight, ResolveAll;
    var us := LevelRows(dump, pre, ids, e);
    MappedIsPresent(dump, pre, tables, ids, e, k);
    UsableAreSources(dump, pre, tables, ids, e, dump(e));
    LevelIsSafe(dump, pre, tables, ids, e);
    LevelIsClean(dump, pre, tables, ids, e);
    LevelAtKey(us, TableOf(pre, e), TableOf(tables, e), IdsOf(ids, e), k);
    CleanAtKey(ids, e, us, TableOf(pre, e), TableOf(tables, e), IdsOf(ids, e), k);
    ResolvedRight(dump, pre, tables, ids, e, Latest(us, k).value);
  }

  lemma ResolvedRight(dump: Dump, pre: Tables, tables: Tables, ids: Ids, e: Entity, r: DumpRow)
    requires RanClean(dump, pre, tables, ids) && ShapeOk(e, r)
    ensures ParentsRight(dump, Erased(pre), tables, e, r.refs, ResolveAll(ids, e, r))
  {
    hide Upto, CleanUpto, PointsRight, Resolve, TableOf, Erased;
    forall i | 0 <= i < |r.refs|
      ensures PointsRight(dump, Erased(pre), TableOf(tables, Parents(e)[i].entity), Parents(e)[i], r.refs[i], Resolve(ids, Parents(e)[i], r.refs[i]))
    {
      PointsAtParent(dump, pre, tables, ids, Parents(e)[i], r.refs[i]);
    }
  }

  lemma PointsAtParent(dump: Dump, pre: Tables, tables: Tables, ids: Ids, p: Parent, ref: Option<Key>)
    requires RanClean(dump, pre, tables, ids)
    ensures PointsRight(dump, Erased(pre), TableOf(tables, p.entity), p, ref, Resolve(ids, p, ref))
  {
    hide Upto, CleanUpto, Present, LevelSafe, Latest, TableOf, Erased, IdsOf;
    if ref.Some? {
      MappedIsPresent(dump, pre, tables, ids, p.entity, ref.value);
      LevelIsSafe(dump, pre, tables, ids, p.entity);
      LevelAtKey(LevelRows(dump, pre, ids, p.entity), TableOf(pre, p.entity), TableOf(tables, p.entity),
                 IdsOf(ids, p.entity), ref.value);
    }
  }

  /**
   * Two mirrors of the same dump with the same erased leads end up the same, whatever partial failures came before:
   * equal columns, and foreign keys that are null together and otherwise name the row of the same v2 parent.
   */
  lemma MirrorsAgree(dump: Dump, preA: Tables, a: Tables, preB: Tables, b: Tables, e: Entity, k: Key)
    requires DumpOk(dump) && Converged(dump, preA, a) && Converged(dump, preB, b) && Erased(preA) == Erased(preB)
    requires Present(dump, Erased(preA), e, k)
    ensures k in TableOf(a, e) && k in TableOf(b, e)
    ensures TableOf(a, e)[k].columns == TableOf(b, e)[k].columns
    ensures var fa, fb := TableOf(a, e)[k].parents, TableOf(b, e)[k].parents;
      && |fa| == |fb| == |Parents(e)|
      && forall i :: 0 <= i < |fa| ==> SameParentRow(TableOf(a, Parents(e)[i].entity), TableOf(b, Parents(e)[i].entity), fa[i], fb[i])
  {
    hide Present, SourceRows, Latest, LatestExtra, Erased, TableOf;
    assert RowConverged(dump, preA, a, e, k) && RowConverged(dump, preB, b, e, k);
    var refs := Latest(SourceRows(dump, Erased(preA), e, dump(e)), k).value.refs;
    var fa, fb := TableOf(a, e)[k].parents, TableOf(b, e)[k].parents;
    forall i | 0 <= i < |fa|
      ensures SameParentRow(TableOf(a, Parents(e)[i].entity), TableOf(b, Parents(e)[i].entity), fa[i], fb[i])
    {
      var p := Parents(e)[i];
      assert PointsRight(dump, Erased(preA), TableOf(a, p.entity), p, refs[i], fa[i]);
      assert PointsRight(dump, Erased(preB), TableOf(b, p.entity), p, refs[i], fb[i]);
    }
  }

  ghost predicate SameParentRow(a: Table, b: Table, fa: Option<Uuid>, fb: Option<Uuid>) {
    || fa == fb == None
    || exists k :: k in a && k in b && fa == Some(a[k].uuid) && fb == Some(b[k].uuid)
  }
}
