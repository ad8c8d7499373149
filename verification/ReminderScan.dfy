/**
 * The reminder scanner (apps/backend/src/jobs/reminderScanner.ts): rows generated from ten kinds of source, inserted in
 * chunks that may fail one by one. Times are integers, in milliseconds since the epoch.
 */
module ReminderScan {
  import opened Arith

  const DAY := 86_400_000
  const NINE := 32_400_000
  const INSERT_CHUNK := 500

  datatype Kind =
    | ProgramIntake | FinanceItem | StudentVisa | Passport | Insurance | ComplianceCheck | Document | CrmLeadFee
    | CommissionClaim | Enrollment

  /** The unique key of a reminder; the tenant is fixed. */
  datatype Key = Key(kind: Kind, entity: nat, scheduledFor: int)
  datatype Row = Row(key: Key, dueOn: int, detail: string, status: string)
  datatype Source = Source(entity: nat, deadline: int, detail: string)

  function Kinds(): seq<Kind> {
    [ProgramIntake, FinanceItem, StudentVisa, Passport, Insurance, ComplianceCheck, Document, CrmLeadFee, CommissionClaim, Enrollment]
  }

  function OffsetsOf(k: Kind): seq<nat> {
    match k
    case ProgramIntake => [30, 14, 7]
    case FinanceItem | CrmLeadFee | CommissionClaim | Enrollment => [14, 7, 3]
    case StudentVisa | Passport | Insurance | Document => [60, 30, 14]
    case ComplianceCheck => [14, 7, 3, 1]
  }

  /** The staircase of each kind of deadline, in days. */
  lemma Staircases(k: Kind)
    ensures OffsetsOf(k) == if k == ProgramIntake then [30, 14, 7] else if k == ComplianceCheck then [14, 7, 3, 1]
                            else if k in {FinanceItem, CrmLeadFee, CommissionClaim, Enrollment} then [14, 7, 3] else [60, 30, 14]
    ensures forall i, j :: 0 <= i < j < |OffsetsOf(k)| ==> OffsetsOf(k)[i] > OffsetsOf(k)[j] > 0
  {
  }

  // ---- When a reminder fires ----

  function StartOfUtcDay(t: int): int {
    t - t % DAY
  }

  /** 09:00 UTC, so many days before the deadline's day. */
  function ScheduledForOffset(deadline: int, daysBefore: nat): int {
    StartOfUtcDay(StartOfUtcDay(deadline) - daysBefore * DAY) + NINE
  }

  /**
   * It is nine o'clock on the right calendar day, never after the deadline's morning, and each offset has its own
   * time.
   */
  lemma ScheduledAtNine(deadline: int, n: nat, m: nat)
    ensures var at := ScheduledForOffset(deadline, n);
      && at % DAY == NINE && at / DAY == deadline / DAY - n
      && deadline - (n + 1) * DAY < at - NINE <= deadline - n * DAY
    ensures ScheduledForOffset(deadline, n) == ScheduledForOffset(deadline, m) <==> n == m
  {
    DayShift(deadline, n);
    DayShift(deadline, m);
  }

  lemma DayShift(t: int, n: nat)
    ensures ScheduledForOffset(t, n) == (t / DAY - n) * DAY + NINE
  {
    var q, r := t / DAY, t % DAY;
    assert t == q * DAY + r;
    assert StartOfUtcDay(t) - n * DAY == (q - n) * DAY;
    assert ((q - n) * DAY) % DAY == 0;
  }

  // ---- The rows a source offers ----

  function RowFor(k: Kind, s: Source, offset: nat): Row {
    Row(Key(k, s.entity, ScheduledForOffset(s.deadline, offset)), s.deadline, s.detail, "PENDING")
  }

  function OffersOf(k: Kind, s: Source, offsets: seq<nat>, now: int): seq<Row> {
    if offsets == [] then []
    else
      var front, row := OffersOf(k, s, offsets[..|offsets| - 1], now), RowFor(k, s, offsets[|offsets| - 1]);
      if row.key.scheduledFor < now then front else front + [row]
  }

  function Offers(k: Kind, sources: seq<Source>, now: int): seq<Row> {
    if sources == [] then []
    else Offers(k, sources[..|sources| - 1], now) + OffersOf(k, sources[|sources| - 1], OffsetsOf(k), now)
  }

  lemma {:induction false} OffersOfExact(k: Kind, s: Source, offsets: seq<nat>, now: int)
    ensures forall r :: r in OffersOf(k, s, offsets, now) <==>
      r.key.scheduledFor >= now && exists o :: o in offsets && r == RowFor(k, s, o)
  {
    hide RowFor;
    if offsets != [] {
      var front := offsets[..|offsets| - 1];
      assert offsets == front + [offsets[|offsets| - 1]];
      OffersOfExact(k, s, front, now);
    }
  }

  /** Exactly the future rows of the sources are offered. */
  lemma {:induction false} OffersExact(k: Kind, sources: seq<Source>, now: int)
    ensures forall r :: r in Offers(k, sources, now) <==>
      r.key.scheduledFor >= now && exists s, o :: s in sources && o in OffsetsOf(k) && r == RowFor(k, s, o)
  {
    hide RowFor, OffsetsOf, OffersOf;
    if sources != [] {
      var front, last := sources[..|sources| - 1], sources[|sources| - 1];
      assert sources == front + [last];
      OffersExact(k, front, now);
      OffersOfExact(k, last, OffsetsOf(k), now);
    }
  }

  /** With the same sources, a later scan offers exactly those of an earlier scan's rows that are not yet past. */
  lemma LaterOffersFewer(k: Kind, sources: seq<Source>, now: int, later: int)
    requires now <= later
    ensures forall r :: r in Offers(k, sources, later) <==> r in Offers(k, sources, now) && r.key.scheduledFor >= later
  {
    hide RowFor, OffsetsOf, Offers;
    OffersExact(k, sources, now);
    OffersExact(k, sources, later);
  }

  // ---- The insert ----

  type Table = map<Key, Row>

  /** INSERT ... ON CONFLICT DO NOTHING: the first row with a key wins, and rows already there are not touched. */
  function InsertRows(t: Table, rows: seq<Row>): Table {
    if rows == [] then t else InsertOne(InsertRows(t, rows[..|rows| - 1]), rows[|rows| - 1])
  }

  function InsertOne(t: Table, row: Row): Table {
    if row.key in t then t else t[row.key := row]
  }

  function Duplicates(t: Table, rows: seq<Row>): nat {
    if rows == [] then 0
    else
      var n := |rows| - 1;
      Duplicates(t, rows[..n]) + if rows[n].key in InsertRows(t, rows[..n]) then 1 else 0
  }

  /** The rows of the chunks that did not fail. */
  function Landed(rows: seq<Row>, fails: nat -> bool): seq<Row> {
    if rows == [] then []
    else
      var n := |rows| - 1;
      Landed(rows[..n], fails) + if fails(n / INSERT_CHUNK) then [] else [rows[n]]
  }

  ghost predicate HasKey(rows: seq<Row>, k: Key) {
    exists r :: r in rows && r.key == k
  }

  lemma OneFacts(t: Table, row: Row)
    ensures var after := InsertOne(t, row);
      && |after| == |t| + (if row.key in t then 0 else 1)
      && row.key in after
      && (forall k :: k in t ==> k in after && after[k] == t[k])
      && (forall k :: k in after && k != row.key ==> k in t)
  {
    if row.key !in t {
      assert t[row.key := row].Keys == t.Keys + {row.key};
    }
  }

  lemma {:induction false} InsertKeys(t: Table, rows: seq<Row>, k: Key)
    ensures k in InsertRows(t, rows) <==> k in t || HasKey(rows, k)
  {
    hide InsertOne;
    if rows != [] {
      var front, last := rows[..|rows| - 1], rows[|rows| - 1];
      InsertKeys(t, front, k);
      assert rows == front + [last];
      OneFacts(InsertRows(t, front), last);
    }
  }

  lemma {:induction false} InsertCounts(t: Table, rows: seq<Row>)
    ensures |InsertRows(t, rows)| - |t| + Duplicates(t, rows) == |rows|
  {
    hide InsertOne;
    if rows != [] {
      InsertCounts(t, rows[..|rows| - 1]);
      OneFacts(InsertRows(t, rows[..|rows| - 1]), rows[|rows| - 1]);
    }
  }

  /** A reminder that is already there, sent or not, is never rewritten. */
  lemma {:induction false} InsertKeepsOld(t: Table, rows: seq<Row>, k: Key)
    requires k in t
    ensures k in InsertRows(t, rows) && InsertRows(t, rows)[k] == t[k]
  {
    hide InsertOne;
    if rows != [] {
      InsertKeepsOld(t, rows[..|rows| - 1], k);
      OneFacts(InsertRows(t, rows[..|rows| - 1]), rows[|rows| - 1]);
    }
  }

  /** A new reminder is the first one offered with its key. */
  lemma {:induction false} FirstWins(t: Table, rows: seq<Row>, i: nat)
    requires i < |rows| && rows[i].key !in t && forall j :: 0 <= j < i ==> rows[j].key != rows[i].key
    ensures rows[i].key in InsertRows(t, rows) && InsertRows(t, rows)[rows[i].key] == rows[i]
  {
    var n := |rows| - 1;
    if i < n {
      FirstWins(t, rows[..n], i);
    } else {
      InsertKeys(t, rows[..n], rows[i].key);
    }
  }

  lemma {:induction false} InsertConcat(t: Table, a: seq<Row>, b: seq<Row>)
    ensures InsertRows(InsertRows(t, a), b) == InsertRows(t, a + b)
  {
    hide InsertOne;
    if b == [] {
      assert a + b == a;
    } else {
      var n := |b| - 1;
      InsertConcat(t, a, b[..n]);
      assert (a + b)[..|a| + n] == a + b[..n];
    }
  }

  /** One chunk at a time: all of it lands or none. */
  lemma {:induction false} LandedChunk(rows: seq<Row>, fails: nat -> bool, k: nat, end: nat)
    requires k * INSERT_CHUNK <= end <= |rows| && end <= k * INSERT_CHUNK + INSERT_CHUNK
    ensures Landed(rows[..end], fails) ==
      var front := Landed(rows[..k * INSERT_CHUNK], fails); if fails(k) then front else front + rows[k * INSERT_CHUNK..end]
  {
    var start := k * INSERT_CHUNK;
    if end > start {
      LandedChunk(rows, fails, k, end - 1);
      assert rows[..end][..end - 1] == rows[..end - 1];
      ChunkOf(k, end - 1);
      assert rows[start..end] == rows[start..end - 1] + [rows[end - 1]];
    }
  }

  lemma ChunkOf(k: nat, i: nat)
    requires k * INSERT_CHUNK <= i < k * INSERT_CHUNK + INSERT_CHUNK
    ensures i / INSERT_CHUNK == k
  {
    DivMod(i, INSERT_CHUNK, k, i - k * INSERT_CHUNK);
  }

  class Reminders {
    var table: Table

    constructor (table: Table)
      ensures this.table == table
    {
      this.table := table;
    }

    /**
     * One statement per chunk, and no statement over the limit. Chunking is invisible: the table is what one insert of the
     * rows that landed would make it, and every row is counted as inserted, a duplicate, or failed.
     */
    method BulkInsert(rows: seq<Row>, fails: nat -> bool) returns (inserted: nat, failed: nat, statements: seq<nat>)
      modifies this
      ensures table == InsertRows(old(table), Landed(rows, fails))
      ensures inserted == |table| - |old(table)| && failed == |rows| - |Landed(rows, fails)|
      ensures inserted + Duplicates(old(table), Landed(rows, fails)) + failed == |rows|
      ensures forall i :: 0 <= i < |statements| ==> 0 < statements[i] <= INSERT_CHUNK
    {
      hide InsertRows, Landed, Duplicates;
      inserted, failed, statements := 0, 0, [];
      NothingLanded(table, fails);
      var k: nat, at := 0, 0;
      while at < |rows|
        invariant at == (if k * INSERT_CHUNK < |rows| then k * INSERT_CHUNK else |rows|)
        invariant table == InsertRows(old(table), Landed(rows[..at], fails))
        invariant inserted == |table| - |old(table)| && failed == at - |Landed(rows[..at], fails)|
        invariant forall i :: 0 <= i < |statements| ==> 0 < statements[i] <= INSERT_CHUNK
        decreases |rows| - at
      {
        var end := if at + INSERT_CHUNK < |rows| then at + INSERT_CHUNK else |rows|;
        var chunk := rows[at..end];
        LandedChunk(rows, fails, k, end);
        statements := statements + [|chunk|];
        if fails(k) {
          failed := failed + |chunk|;
        } else {
          InsertConcat(old(table), Landed(rows[..at], fails), chunk);
          Grows(table, chunk);
          var after := InsertRows(table, chunk);
          inserted := inserted + (|after| - |table|);
          table := after;
        }
        at, k := end, k + 1;
      }
      assert rows[..|rows|] == rows;
      InsertCounts(old(table), Landed(rows, fails));
    }

    /** One source table: generate, count, insert. */
    method ScanSection(k: Kind, sources: seq<Source>, now: int, fails: nat -> bool)
      returns (attempted: nat, skipped: nat, inserted: nat, failed: nat)
      modifies this
      ensures table == InsertRows(old(table), Landed(Offers(k, sources, now), fails))
      ensures attempted == |Offers(k, sources, now)| && attempted + skipped == |sources| * |OffsetsOf(k)|
      ensures inserted == |table| - |old(table)| && failed == attempted - |Landed(Offers(k, sources, now), fails)|
    {
      hide InsertRows, Landed, Duplicates, RowFor, OffsetsOf, Offers, OffersOf;
      NoOffers(k, now);
      var rows: seq<Row> := [];
      var offsets := OffsetsOf(k);
      skipped := 0;
      for i := 0 to |sources|
        invariant rows == Offers(k, sources[..i], now) && |rows| + skipped == i * |offsets|
        invariant table == old(table)
      {
        ghost var before, skipped0 := rows, skipped;
        for j := 0 to |offsets|
          invariant skipped >= skipped0
          invariant rows == before + OffersOf(k, sources[i], offsets[..j], now) && |rows| - |before| + skipped - skipped0 == j
          invariant table == old(table)
        {
          OffersOfSnoc(k, sources[i], offsets, j, now);
          var row := RowFor(k, sources[i], offsets[j]);
          if row.key.scheduledFor < now {
            skipped := skipped + 1;
          } else {
            rows := rows + [row];
          }
        }
        assert offsets[..|offsets|] == offsets;
        OffersSnoc(k, sources, i, now);
      }
      assert sources[..|sources|] == sources;
      attempted := |rows|;
      var statements;
      inserted, failed, statements := BulkInsert(rows, fails);
    }

    /** The whole scan of a tenant; a source query that fails yields no rows, and the other sections still run. */
    method ScanForTenant(sources: Kind -> seq<Source>, now: int, env: Env)
      returns (attempted: nat, skipped: nat, inserted: nat, failed: nat)
      modifies this
      ensures table == ScanUpto(old(table), sources, now, env, |Kinds()|)
      ensures inserted == |table| - |old(table)|
      ensures attempted == AttemptedUpto(sources, now, env, |Kinds()|)
      ensures attempted + skipped == StairsUpto(sources, env, |Kinds()|)
      ensures failed == LostUpto(sources, now, env, |Kinds()|) && inserted + failed <= attempted
    {
      hide InsertRows, Landed, Offers, OffsetsOf;
      attempted, skipped, inserted, failed := 0, 0, 0, 0;
      for i := 0 to |Kinds()|
        invariant table == ScanUpto(old(table), sources, now, env, i)
        invariant inserted == |table| - |old(table)|
        invariant attempted == AttemptedUpto(sources, now, env, i) && attempted + skipped == StairsUpto(sources, env, i)
        invariant failed == LostUpto(sources, now, env, i) && inserted + failed <= attempted
      {
        var kind := Kinds()[i];
        var found := Found(sources, env, kind);
        GrowsBy(table, Landed(Offers(kind, found, now), (c: nat) => env.fails(kind, c)));
        LandedIsShorter(Offers(kind, found, now), (c: nat) => env.fails(kind, c));
        var a, s, ins, f := ScanSection(kind, found, now, (c: nat) => env.fails(kind, c));
        attempted, skipped, inserted, failed := attempted + a, skipped + s, inserted + ins, failed + f;
      }
    }
  }

  lemma NoOffers(k: Kind, now: int)
    ensures Offers(k, [], now) == [] && forall s :: OffersOf(k, s, [], now) == []
  {
  }

  lemma OffersSnoc(k: Kind, sources: seq<Source>, i: nat, now: int)
    requires i < |sources|
    ensures Offers(k, sources[..i + 1], now) == Offers(k, sources[..i], now) + OffersOf(k, sources[i], OffsetsOf(k), now)
  {
    assert sources[..i + 1][..i] == sources[..i];
  }

  lemma OffersOfSnoc(k: Kind, s: Source, offsets: seq<nat>, j: nat, now: int)
    requires j < |offsets|
    ensures var front, row := OffersOf(k, s, offsets[..j], now), RowFor(k, s, offsets[j]);
      OffersOf(k, s, offsets[..j + 1], now) == if row.key.scheduledFor < now then front else front + [row]
  {
    assert offsets[..j + 1][..j] == offsets[..j];
  }

  lemma NothingLanded(t: Table, fails: nat -> bool)
    ensures Landed([], fails) == [] && InsertRows(t, []) == t
  {
  }

  lemma Grows(t: Table, rows: seq<Row>)
    ensures |t| <= |InsertRows(t, rows)|
  {
    GrowsBy(t, rows);
  }

  lemma {:induction false} GrowsBy(t: Table, rows: seq<Row>)
    ensures |t| <= |InsertRows(t, rows)| <= |t| + |rows|
  {
    if rows != [] {
      GrowsBy(t, rows[..|rows| - 1]);
    }
  }

  lemma {:induction false} LandedIsShorter(rows: seq<Row>, fails: nat -> bool)
    ensures |Landed(rows, fails)| <= |rows|
  {
    if rows != [] {
      LandedIsShorter(rows[..|rows| - 1], fails);
    }
  }

  // ---- Scans ----

  datatype Env = Env(broken: Kind -> bool, fails: (Kind, nat) -> bool) {
    ghost predicate Clean() {
      (forall k :: !broken(k)) && forall k, c :: !fails(k, c)
    }
  }

  /** What the section's query returned: a query that throws yields no rows. */
  function Found(sources: Kind -> seq<Source>, env: Env, k: Kind): seq<Source> {
    if env.broken(k) then [] else sources(k)
  }

  function AttemptedUpto(sources: Kind -> seq<Source>, now: int, env: Env, i: nat): nat
    requires i <= |Kinds()|
  {
    if i == 0 then 0
    else AttemptedUpto(sources, now, env, i - 1) + |Offers(Kinds()[i - 1], Found(sources, env, Kinds()[i - 1]), now)|
  }

  /** Every reminder step of every source that was read, past or future. */
  function StairsUpto(sources: Kind -> seq<Source>, env: Env, i: nat): nat
    requires i <= |Kinds()|
  {
    if i == 0 then 0
    else StairsUpto(sources, env, i - 1) + |Found(sources, env, Kinds()[i - 1])| * |OffsetsOf(Kinds()[i - 1])|
  }

  function SectionRows(sources: Kind -> seq<Source>, now: int, env: Env, k: Kind): seq<Row> {
    Landed(Offers(k, Found(sources, env, k), now), (c: nat) => env.fails(k, c))
  }

  function ScanUpto(t: Table, sources: Kind -> seq<Source>, now: int, env: Env, i: nat): Table
    requires i <= |Kinds()|
  {
    if i == 0 then t else InsertRows(ScanUpto(t, sources, now, env, i - 1), SectionRows(sources, now, env, Kinds()[i - 1]))
  }

  function Scan(t: Table, sources: Kind -> seq<Source>, now: int, env: Env): Table {
    ScanUpto(t, sources, now, env, |Kinds()|)
  }

  function LostUpto(sources: Kind -> seq<Source>, now: int, env: Env, i: nat): int
    requires i <= |Kinds()|
  {
    if i == 0 then 0
    else
      var k := Kinds()[i - 1];
      var offered := Offers(k, Found(sources, env, k), now);
      LostUpto(sources, now, env, i - 1) + |offered| - |SectionRows(sources, now, env, k)|
  }

  ghost function Total(f: Kind -> int): int {
    f(ProgramIntake) + f(FinanceItem) + f(StudentVisa) + f(Passport) + f(Insurance) + f(ComplianceCheck) + f(Document)
    + f(CrmLeadFee) + f(CommissionClaim) + f(Enrollment)
  }

  ghost function SumUpto(f: Kind -> int, i: nat): int
    requires i <= |Kinds()|
  {
    if i == 0 then 0 else SumUpto(f, i - 1) + f(Kinds()[i - 1])
  }

  lemma SumIsTotal(f: Kind -> int)
    ensures SumUpto(f, |Kinds()|) == Total(f)
  {
    assert SumUpto(f, 2) == f(ProgramIntake) + f(FinanceItem);
    assert SumUpto(f, 4) == SumUpto(f, 2) + f(StudentVisa) + f(Passport);
    assert SumUpto(f, 6) == SumUpto(f, 4) + f(Insurance) + f(ComplianceCheck);
    assert SumUpto(f, 8) == SumUpto(f, 6) + f(Document) + f(CrmLeadFee);
    assert SumUpto(f, 10) == SumUpto(f, 8) + f(CommissionClaim) + f(Enrollment);
  }

  /** What one kind adds to each counter of a scan: nothing, if its query failed. */
  ghost function AttemptedOf(sources: Kind -> seq<Source>, now: int, env: Env): Kind -> int {
    k => if env.broken(k) then 0 else |Offers(k, sources(k), now)|
  }

  ghost function StairsOf(sources: Kind -> seq<Source>, env: Env): Kind -> int {
    k => if env.broken(k) then 0 else |sources(k)| * |OffsetsOf(k)|
  }

  ghost function LostOf(sources: Kind -> seq<Source>, now: int, env: Env): Kind -> int {
    k => if env.broken(k) then 0
         else |Offers(k, sources(k), now)| - |Landed(Offers(k, sources(k), now), (c: nat) => env.fails(k, c))|
  }

  /** The counters of a scan, as sums over the ten kinds. */
  lemma CountersExact(sources: Kind -> seq<Source>, now: int, env: Env)
    ensures AttemptedUpto(sources, now, env, |Kinds()|) == Total(AttemptedOf(sources, now, env))
    ensures StairsUpto(sources, env, |Kinds()|) == Total(StairsOf(sources, env))
    ensures LostUpto(sources, now, env, |Kinds()|) == Total(LostOf(sources, now, env))
  {
    hide Kinds, Total, SumUpto, AttemptedUpto, StairsUpto, LostUpto, AttemptedOf, StairsOf, LostOf;
    CountersUpto(sources, now, env, |Kinds()|);
    SumIsTotal(AttemptedOf(sources, now, env));
    SumIsTotal(StairsOf(sources, env));
    SumIsTotal(LostOf(sources, now, env));
  }

  lemma {:induction false} CountersUpto(sources: Kind -> seq<Source>, now: int, env: Env, i: nat)
    requires i <= |Kinds()|
    ensures AttemptedUpto(sources, now, env, i) == SumUpto(AttemptedOf(sources, now, env), i)
    ensures StairsUpto(sources, env, i) == SumUpto(StairsOf(sources, env), i)
    ensures LostUpto(sources, now, env, i) == SumUpto(LostOf(sources, now, env), i)
  {
    hide Kinds, Offers, OffsetsOf, Landed;
    if i > 0 {
      CountersUpto(sources, now, env, i - 1);
      var k := Kinds()[i - 1];
      NoOffers(k, now);
      NothingLanded(map[], (c: nat) => env.fails(k, c));
    }
  }

  /** A kind whose query fails gets no reminder from this scan. */
  lemma BrokenKindIsSkipped(t: Table, sources: Kind -> seq<Source>, now: int, env: Env, key: Key)
    requires env.broken(key.kind)
    ensures key in Scan(t, sources, now, env) <==> key in t
  {
    BrokenUpto(t, sources, now, env, key, |Kinds()|);
  }

  lemma {:induction false} BrokenUpto(t: Table, sources: Kind -> seq<Source>, now: int, env: Env, key: Key, i: nat)
    requires env.broken(key.kind) && i <= |Kinds()|
    ensures key in ScanUpto(t, sources, now, env, i) <==> key in t
  {
    hide Offers, Landed, InsertRows, Kinds;
    if i > 0 {
      BrokenUpto(t, sources, now, env, key, i - 1);
      var k := Kinds()[i - 1];
      var rows := SectionRows(sources, now, env, k);
      InsertKeys(ScanUpto(t, sources, now, env, i - 1), rows, key);
      LandedAmong(Offers(k, Found(sources, env, k), now), (c: nat) => env.fails(k, c));
      NoOffers(k, now);
      OffersExact(k, Found(sources, env, k), now);
    }
  }

  /** A key some source offers at this time. */
  ghost predicate Offered(sources: Kind -> seq<Source>, now: int, key: Key) {
    exists r :: r in Offers(key.kind, sources(key.kind), now) && r.key == key
  }

  lemma {:induction false} LandedAmong(rows: seq<Row>, fails: nat -> bool)
    ensures forall r :: r in Landed(rows, fails) ==> r in rows
    ensures (forall c :: !fails(c)) ==> Landed(rows, fails) == rows
  {
    if rows != [] {
      var n := |rows| - 1;
      LandedAmong(rows[..n], fails);
      assert rows == rows[..n] + [rows[n]];
    }
  }

  lemma SectionFacts(sources: Kind -> seq<Source>, now: int, env: Env, k: Kind)
    ensures forall r :: r in SectionRows(sources, now, env, k) ==> r in Offers(k, sources(k), now) && r.key.kind == k
    ensures env.Clean() ==> SectionRows(sources, now, env, k) == Offers(k, sources(k), now)
  {
    hide Landed, Offers;
    OffersExact(k, sources(k), now);
    OffersExact(k, [], now);
    LandedAmong(Offers(k, Found(sources, env, k), now), (c: nat) => env.fails(k, c));
  }

  lemma SectionKeys(t: Table, sources: Kind -> seq<Source>, now: int, env: Env, k: Kind, key: Key)
    ensures var after := InsertRows(t, SectionRows(sources, now, env, k));
      && (key in t ==> key in after && after[key] == t[key])
      && (key in after ==> key in t || Offered(sources, now, key))
      && (env.Clean() && Offered(sources, now, key) && key.kind == k ==> key in after)
  {
    hide InsertRows, SectionRows, Offers;
    InsertKeys(t, SectionRows(sources, now, env, k), key);
    if key in t {
      InsertKeepsOld(t, SectionRows(sources, now, env, k), key);
    }
    SectionFacts(sources, now, env, k);
  }

  lemma {:induction false} ScanKeys(t: Table, sources: Kind -> seq<Source>, now: int, env: Env, i: nat, key: Key)
    requires i <= |Kinds()|
    ensures var after := ScanUpto(t, sources, now, env, i);
      && (key in t ==> key in after && after[key] == t[key])
      && (key in after ==> key in t || Offered(sources, now, key))
      && (env.Clean() && Offered(sources, now, key) && key.kind in Kinds()[..i] ==> key in after)
  {
    hide InsertRows, SectionRows, Offered, Kinds, Env.Clean;
    if i > 0 {
      ScanKeys(t, sources, now, env, i - 1, key);
      SectionKeys(ScanUpto(t, sources, now, env, i - 1), sources, now, env, Kinds()[i - 1], key);
      assert Kinds()[..i] == Kinds()[..i - 1] + [Kinds()[i - 1]];
    }
  }

  lemma AllKinds(k: Kind)
    ensures k in Kinds()[..|Kinds()|]
  {
    assert Kinds()[..|Kinds()|] == Kinds();
    assert forall i :: 0 <= i < 10 ==> Kinds()[i] in Kinds();
    match k
    case ProgramIntake => assert Kinds()[0] == k;
    case FinanceItem => assert Kinds()[1] == k;
    case StudentVisa => assert Kinds()[2] == k;
    case Passport => assert Kinds()[3] == k;
    case Insurance => assert Kinds()[4] == k;
    case ComplianceCheck => assert Kinds()[5] == k;
    case Document => assert Kinds()[6] == k;
    case CrmLeadFee => assert Kinds()[7] == k;
    case CommissionClaim => assert Kinds()[8] == k;
    case Enrollment => assert Kinds()[9] == k;
  }

  /** A scan that loses nothing reaches exactly the old keys and the offered ones, and rewrites no old reminder. */
  lemma CleanScanReaches(t: Table, sources: Kind -> seq<Source>, now: int, env: Env)
    requires env.Clean()
    ensures forall key :: key in Scan(t, sources, now, env) <==> key in t || Offered(sources, now, key)
    ensures forall key :: key in t ==> key in Scan(t, sources, now, env) && Scan(t, sources, now, env)[key] == t[key]
  {
    hide ScanUpto, Offered, Kinds;
    forall key
      ensures key in Scan(t, sources, now, env) <==> key in t || Offered(sources, now, key)
      ensures key in t ==> key in Scan(t, sources, now, env) && Scan(t, sources, now, env)[key] == t[key]
    {
      AllKinds(key.kind);
      ScanKeys(t, sources, now, env, |Kinds()|, key);
    }
  }

  lemma OfferedLater(sources: Kind -> seq<Source>, now: int, later: int, key: Key)
    requires now <= later
    ensures Offered(sources, later, key) <==> Offered(sources, now, key) && key.scheduledFor >= later
  {
    LaterOffersFewer(key.kind, sources(key.kind), now, later);
  }

  /** With unchanged sources, nothing that ran after a clean scan, failing or not, changes the table. */
  lemma RescanAddsNothing(t: Table, sources: Kind -> seq<Source>, now: int, env: Env, later: int, env': Env)
    requires env.Clean() && now <= later
    ensures Scan(Scan(t, sources, now, env), sources, later, env') == Scan(t, sources, now, env)
  {
    hide ScanUpto, Offered, Kinds;
    var once := Scan(t, sources, now, env);
    var twice := Scan(once, sources, later, env');
    CleanScanReaches(t, sources, now, env);
    forall key ensures (key in twice <==> key in once) && (key in once ==> twice[key] == once[key]) {
      ScanKeys(once, sources, later, env', |Kinds()|, key);
      OfferedLater(sources, now, later, key);
    }
  }

  /** What the first scan lost, the next clean one recovers exactly when its time has not passed in between. */
  lemma LostRowsRecovered(t: Table, sources: Kind -> seq<Source>, now: int, env: Env, later: int, env': Env, key: Key)
    requires env'.Clean() && now <= later && Offered(sources, now, key)
    ensures var first := Scan(t, sources, now, env);
      key in Scan(first, sources, later, env') <==> key in first || key.scheduledFor >= later
  {
    hide ScanUpto, Offered, Kinds;
    CleanScanReaches(Scan(t, sources, now, env), sources, later, env');
    OfferedLater(sources, now, later, key);
  }

  // ---- Sources that share a reminder ----

  /** The table holds this very reminder, not another one with its key. */
  predicate Reminded(t: Table, row: Row) {
    row.key in t && t[row.key] == row
  }

  lemma {:induction false} InsertedFrom(t: Table, rows: seq<Row>, k: Key)
    requires k in InsertRows(t, rows) && k !in t
    ensures InsertRows(t, rows)[k] in rows && InsertRows(t, rows)[k].key == k
  {
    if rows != [] {
      var front, last := rows[..|rows| - 1], rows[|rows| - 1];
      assert rows == front + [last];
      if k in InsertRows(t, front) {
        InsertedFrom(t, front, k);
      }
    }
  }

  /** Rows of different entities, kinds or times have different keys. */
  lemma KeysApart(k: Kind, s: Source, o: nat, k': Kind, s': Source, o': nat)
    ensures RowFor(k, s, o).key == RowFor(k', s', o').key <==>
      k == k' && s.entity == s'.entity && s.deadline / DAY - o == s'.deadline / DAY - o'
  {
    DayShift(s.deadline, o);
    DayShift(s'.deadline, o');
  }

  /**
   * Every row a section adds is PENDING, for one of its sources and offsets, with that source's entity, deadline and
   * text.
   */
  lemma AddedArePending(k: Kind, sources: seq<Source>, now: int, fails: nat -> bool, t: Table, key: Key)
    requires key !in t && key in InsertRows(t, Landed(Offers(k, sources, now), fails))
    ensures var row := InsertRows(t, Landed(Offers(k, sources, now), fails))[key];
      && row.status == "PENDING" && row.key == key && key.kind == k && key.scheduledFor >= now
      && exists s, o :: s in sources && o in OffsetsOf(k) && AddedFor(row, s, o)
  {
    hide InsertRows, Landed, Offers, OffsetsOf;
    var offered := Offers(k, sources, now);
    InsertedFrom(t, Landed(offered, fails), key);
    LandedAmong(offered, fails);
    OffersExact(k, sources, now);
    var row := InsertRows(t, Landed(offered, fails))[key];
    var s, o :| s in sources && o in OffsetsOf(k) && row == RowFor(k, s, o);
    assert AddedFor(row, s, o);
  }

  ghost predicate AddedFor(row: Row, s: Source, o: nat) {
    && row.key.entity == s.entity && row.key.scheduledFor == ScheduledForOffset(s.deadline, o)
    && row.dueOn == s.deadline && row.detail == s.detail
  }

  /** Row n lands exactly if its chunk of 500 does not fail, and the rows that land keep their order. */
  lemma {:induction false} LandedExact(rows: seq<Row>, fails: nat -> bool, n: nat)
    requires n < |rows|
    ensures Landed(rows[..n + 1], fails) == Landed(rows[..n], fails) + if fails(n / 500) then [] else [rows[n]]
  {
    assert rows[..n + 1][..n] == rows[..n];
  }

  /** A step of a source's staircase that is still ahead. */
  ghost predicate Ahead(k: Kind, s: Source, o: nat, now: int) {
    o in OffsetsOf(k) && RowFor(k, s, o).key.scheduledFor >= now
  }

  ghost predicate EveryoneReminded(k: Kind, sources: seq<Source>, now: int, t: Table) {
    forall s, o :: s in sources && Ahead(k, s, o, now) ==> Reminded(t, RowFor(k, s, o))
  }

  /** No two sources want different reminders under one key. */
  ghost predicate NoneShare(k: Kind, sources: seq<Source>, now: int) {
    forall s, o, s', o' :: s in sources && s' in sources && Ahead(k, s, o, now) && Ahead(k, s', o', now) ==>
      Apart(k, s, o, s', o')
  }

  predicate Apart(k: Kind, s: Source, o: nat, s': Source, o': nat) {
    RowFor(k, s, o).key == RowFor(k, s', o').key ==> RowFor(k, s, o) == RowFor(k, s', o')
  }

  /**
   * The key of an intake reminder names the intake, not the enrollment. So a section that inserts everything it offers, into
   * a table without any of it, reminds on behalf of every source if and only if no two sources share a key.
   */
  lemma EveryoneRemindedExact(k: Kind, sources: seq<Source>, now: int, t: Table)
    requires forall r :: r in Offers(k, sources, now) ==> r.key !in t
    ensures EveryoneReminded(k, sources, now, InsertRows(t, Offers(k, sources, now))) <==> NoneShare(k, sources, now)
  {
    hide InsertRows, RowFor, OffsetsOf, Offers;
    var rows := Offers(k, sources, now);
    var after := InsertRows(t, rows);
    OffersExact(k, sources, now);
    if NoneShare(k, sources, now) {
      forall s, o | s in sources && Ahead(k, s, o, now) ensures Reminded(after, RowFor(k, s, o)) {
        var row := RowFor(k, s, o);
        assert row in rows;
        InsertKeys(t, rows, row.key);
        InsertedFrom(t, rows, row.key);
        var s', o' :| s' in sources && o' in OffsetsOf(k) && after[row.key] == RowFor(k, s', o');
        assert Ahead(k, s', o', now) && Apart(k, s, o, s', o');
      }
    }
    if EveryoneReminded(k, sources, now, after) {
      forall s, o, s', o' | s in sources && s' in sources && Ahead(k, s, o, now) && Ahead(k, s', o', now)
        ensures Apart(k, s, o, s', o')
      {
        assert Reminded(after, RowFor(k, s, o)) && Reminded(after, RowFor(k, s', o'));
      }
    }
  }

  lemma {:induction false} OffersConcat(k: Kind, a: seq<Source>, b: seq<Source>, now: int)
    ensures Offers(k, a + b, now) == Offers(k, a, now) + Offers(k, b, now)
  {
    hide OffersOf, OffsetsOf;
    if b == [] {
      assert a + b == a;
    } else {
      assert (a + b)[..|a + b| - 1] == a + b[..|b| - 1];
      OffersConcat(k, a, b[..|b| - 1], now);
    }
  }

  /** Of the enrollments that share an intake, the first in the scan is the one whose reminder lands. */
  lemma FirstSourceWins(k: Kind, sources: seq<Source>, now: int, t: Table, i: nat, o: nat)
    requires i < |sources| && Ahead(k, sources[i], o, now) && RowFor(k, sources[i], o).key !in t
    requires forall j, o' :: 0 <= j < i && o' in OffsetsOf(k) ==> RowFor(k, sources[j], o').key != RowFor(k, sources[i], o).key
    ensures Reminded(InsertRows(t, Offers(k, sources, now)), RowFor(k, sources[i], o))
  {
    hide InsertRows, OffsetsOf, Offers;
    var row, before, rest := RowFor(k, sources[i], o), sources[..i], sources[i + 1..];
    var mine := OffersOf(k, sources[i], OffsetsOf(k), now);
    assert sources == sources[..i + 1] + rest;
    OffersConcat(k, sources[..i + 1], rest, now);
    OffersSnoc(k, sources, i, now);
    var t0, t1 := InsertRows(t, Offers(k, before, now)), InsertRows(InsertRows(t, Offers(k, before, now)), mine);
    InsertConcat(t, Offers(k, before, now), mine);
    InsertConcat(t, Offers(k, before, now) + mine, Offers(k, rest, now));
    OffersExact(k, before, now);
    InsertKeys(t, Offers(k, before, now), row.key);
    NotOffered(k, before, now, row);
    OffersOfExact(k, sources[i], OffsetsOf(k), now);
    assert row in mine;
    InsertKeys(t0, mine, row.key);
    InsertedFrom(t0, mine, row.key);
    InsertKeepsOld(t1, Offers(k, rest, now), row.key);
  }

  lemma NotOffered(k: Kind, before: seq<Source>, now: int, row: Row)
    requires forall j, o' :: 0 <= j < |before| && o' in OffsetsOf(k) ==> RowFor(k, before[j], o').key != row.key
    ensures !HasKey(Offers(k, before, now), row.key)
  {
    hide RowFor, OffsetsOf, Offers;
    OffersExact(k, before, now);
  }
}
