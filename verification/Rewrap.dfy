/**
 * The KEK re-wrap script (apps/backend/scripts/rewrap-secrets.ts): page through every encrypted column by key,
 * re-encrypt each cell under the active key, and record progress so that a crashed run can be resumed.
 */
module Rewrap {
  import opened Wrappers
  import opened Ordering
  import opened Kms
  import opened Envelope

  /** Row ids stand for the text of their primary keys, in text order. */
  type RowId = nat
  type TenantId = nat

  datatype Cell = Cell(tenant: TenantId, blob: Option<Bytes>)

  /** One encrypted column, with its part of kek_rotation_progress. */
  datatype Column = Column(cells: map<RowId, Cell>, progress: set<RowId>)

  datatype ColumnId = ColumnId(table: string, column: string)

  function EncryptedColumns(): seq<ColumnId> { [
    ColumnId("users", "mfa_secret_enc"),
    ColumnId("students", "name_in_passport_enc"),
    ColumnId("student_identifications", "document_number_enc"),
    ColumnId("student_visas", "visa_number_enc"),
    ColumnId("student_regulator_identifiers", "value_enc"),
    ColumnId("student_dependents", "passport_number_enc"),
    ColumnId("student_contacts", "annual_income_minor_enc"),
    ColumnId("insurance_records", "policy_number_enc"),
    ColumnId("audit_logs", "before_enc"),
    ColumnId("audit_logs", "after_enc")] }

  datatype Args = Args(dryRun: bool, batchSize: nat, tenantId: Option<TenantId>, table: Option<string>)

  datatype RewrapError = UnknownTable | Unreadable(id: RowId) | CannotEncrypt(id: RowId) | RoundTripFailed(id: RowId) | Died

  /** What the environment does to the process around the n-th page. */
  datatype Fate = Proceed | DieBeforeCommit | DieAfterCommit

  predicate Before(a: RowId, b: RowId) { a < b }

  predicate InScope(cell: Cell, tenantId: Option<TenantId>) {
    cell.blob.Some? && (tenantId.Some? ==> cell.tenant == tenantId.value)
  }

  /** The WHERE clause of the page query. */
  function Candidates(col: Column, tenantId: Option<TenantId>, cursor: Option<RowId>): set<RowId> {
    set id | id in col.cells && InScope(col.cells[id], tenantId) && id !in col.progress
             && (cursor.Some? ==> cursor.value < id)
  }

  /** Which rows a run is after: with a value, of the tenant if one is named, without a progress row, past the cursor. */
  lemma CandidatesExact(col: Column, tenantId: Option<TenantId>, cursor: Option<RowId>, id: RowId)
    ensures id in Candidates(col, tenantId, cursor) <==>
      && id in col.cells && col.cells[id].blob != None && id !in col.progress
      && (tenantId == None || tenantId == Some(col.cells[id].tenant)) && (cursor == None || cursor.value < id)
  {
  }

  /** The page query: candidates past the cursor, in key order, at most `limit`. */
  function SelectPage(col: Column, tenantId: Option<TenantId>, cursor: Option<RowId>, limit: nat): seq<RowId> {
    assert StrictTotal(Before);
    Ascending(Candidates(col, tenantId, cursor), Before, limit)
  }

  /** The page transaction: every UPDATE and progress INSERT, or none. */
  function Commit(col: Column, written: map<RowId, Bytes>): Column {
    Column(
      map id | id in col.cells ::
        if id in written then col.cells[id].(blob := Some(written[id])) else col.cells[id],
      col.progress + written.Keys)
  }

  predicate IsCurrent(kms: LocalKms, blob: Bytes) {
    EnvelopeKekId(blob) == Some(kms.kekId)
  }

  /** `after` is `before` moved to the active key: same plaintext, and the move was needed and possible. */
  ghost predicate Moved(g: Aead, kms: LocalKms, before: Cell, after: Cell) {
    && before.blob.Some? && after.blob.Some? && after.tenant == before.tenant
    && !IsCurrent(kms, before.blob.value)
    && EnvelopeKekId(after.blob.value) == Some(AsciiDecode(AsciiEncode(kms.kekId)))
    && DecryptFieldRaw(g, kms, before.blob.value).Ok?
    && DecryptFieldRaw(g, kms, after.blob.value) == DecryptFieldRaw(g, kms, before.blob.value)
  }

  ghost predicate CellStep(g: Aead, kms: LocalKms, tenantId: Option<TenantId>, pre: Column, post: Column, id: RowId)
    requires id in pre.cells && id in post.cells
  {
    || (post.cells[id] == pre.cells[id] && (id in post.progress <==> id in pre.progress))
    || (id in Candidates(pre, tenantId, None) && id in post.progress && Moved(g, kms, pre.cells[id], post.cells[id]))
  }

  /** All that any run, crashed or not, may do to a column. */
  ghost predicate RunStep(g: Aead, kms: LocalKms, tenantId: Option<TenantId>, pre: Column, post: Column) {
    && post.cells.Keys == pre.cells.Keys
    && pre.progress <= post.progress <= pre.progress + pre.cells.Keys
    && forall id :: id in pre.cells ==> CellStep(g, kms, tenantId, pre, post, id)
  }

  /** The cells of every other tenant, and their progress rows, are as they were. */
  ghost predicate OtherTenantsUntouched(tenant: TenantId, pre: Column, post: Column) {
    forall id :: id in pre.cells && pre.cells[id].tenant != tenant ==>
      id in post.cells && post.cells[id] == pre.cells[id] && (id in post.progress <==> id in pre.progress)
  }

  lemma StepSparesOthers(g: Aead, kms: LocalKms, tenant: TenantId, pre: Column, post: Column)
    requires RunStep(g, kms, Some(tenant), pre, post)
    ensures OtherTenantsUntouched(tenant, pre, post)
  {
    forall id | id in pre.cells && pre.cells[id].tenant != tenant
      ensures id in post.cells && post.cells[id] == pre.cells[id] && (id in post.progress <==> id in pre.progress)
    {
      assert CellStep(g, kms, Some(tenant), pre, post, id);
    }
  }

  /** Every row the run selected is under the active key. */
  ghost predicate Completed(kms: LocalKms, tenantId: Option<TenantId>, pre: Column, post: Column) {
    forall id :: id in Candidates(pre, tenantId, None) ==>
      id in post.cells && post.cells[id].blob.Some? && IsCurrent(kms, post.cells[id].blob.value)
  }

  ghost predicate Readable(g: Aead, kms: LocalKms, col: Column, ids: set<RowId>) {
    forall id :: id in ids ==>
      id in col.cells && col.cells[id].blob.Some? &&
      Handled(g, kms, col.cells[id].blob.value)
  }

  /**
   * A run that returned normally selected every candidate once, could read each of them and, unless it was a dry run,
   * left each of them under the active key.
   */
  ghost predicate RunDone(g: Aead, kms: LocalKms, args: Args, pre: Column, post: Column, touched: nat) {
    && touched == |Candidates(pre, args.tenantId, None)|
    && Readable(g, kms, pre, Candidates(pre, args.tenantId, None))
    && (!args.dryRun && IsAscii(kms.kekId) ==> Completed(kms, args.tenantId, pre, post))
  }

  /** What ReencryptPage promises about the blobs it hands to the transaction. */
  ghost predicate Reencrypted(g: Aead, kms: LocalKms, col: Column, page: seq<RowId>, written: map<RowId, Bytes>) {
    && (forall i :: 0 <= i < |page| ==> page[i] in col.cells && col.cells[page[i]].blob.Some?)
    && (forall id :: id in written <==> id in page && !IsCurrent(kms, col.cells[id].blob.value))
    && (forall id :: id in written ==> Moved(g, kms, col.cells[id], col.cells[id].(blob := Some(written[id]))))
  }

  /**
   * A key service that can write: a sound cipher, good randomness, and an ASCII active id of 1 to 255 units that is
   * not retired.
   */
  ghost predicate Working(g: Aead, kms: LocalKms, coins: RowId -> Coins) {
    && g.Correct() && (forall id :: coins(id).Valid())
    && 1 <= |kms.kekId| <= MAX_KEK_ID && IsAscii(kms.kekId) && !Lists(kms.previous, kms.kekId)
  }

  lemma WorkingWrites(g: Aead, kms: LocalKms, coins: RowId -> Coins, id: RowId, plain: Bytes)
    requires Working(g, kms, coins)
    ensures EncryptField(g, kms, plain, coins(id)).Ok?
    ensures DecryptFieldRaw(g, kms, EncryptField(g, kms, plain, coins(id)).value) == Ok(plain)
  {
    hide EncryptField, DecryptFieldRaw, Aead.Correct;
    EncryptStamps(g, kms, plain, coins(id));
    AsciiExact(kms.kekId);
    FreshWriteReads(g, kms, plain, coins(id));
  }

  /** The row needs no work, or can be read. */
  predicate Handled(g: Aead, kms: LocalKms, blob: Bytes) {
    IsCurrent(kms, blob) || DecryptFieldRaw(g, kms, blob).Ok?
  }

  /** The per-row loop: skip rows already current, decrypt, re-encrypt, and check the round trip before keeping it. */
  method ReencryptPage(g: Aead, kms: LocalKms, col: Column, page: seq<RowId>, coins: RowId -> Coins)
    returns (r: Result<map<RowId, Bytes>, RewrapError>)
    requires forall i :: 0 <= i < |page| ==> page[i] in col.cells && col.cells[page[i]].blob.Some?
    ensures r.Ok? ==> Reencrypted(g, kms, col, page, r.value)
    ensures Working(g, kms, coins) ==>
      (r.Ok? <==> forall i :: 0 <= i < |page| ==> Handled(g, kms, col.cells[page[i]].blob.value))
  {
    hide EncryptField, DecryptFieldRaw, EnvelopeKekId, Working;
    var activeKekId := kms.kekId;
    var rewrapped: map<RowId, Bytes> := map[];
    for i := 0 to |page|
      invariant forall k :: 0 <= k < i ==> Handled(g, kms, col.cells[page[k]].blob.value)
      invariant forall id :: id in rewrapped <==> id in page[..i] && !IsCurrent(kms, col.cells[id].blob.value)
      invariant forall id :: id in rewrapped ==> Moved(g, kms, col.cells[id], col.cells[id].(blob := Some(rewrapped[id])))
    {
      assert page[..i + 1] == page[..i] + [page[i]];
      var id, blob := page[i], col.cells[page[i]].blob.value;
      if EnvelopeKekId(blob) == Some(activeKekId) {
        continue;
      }
      var plain := DecryptFieldRaw(g, kms, blob);
      if plain.Err? {
        return Err(Unreadable(id));
      }
      if Working(g, kms, coins) {
        WorkingWrites(g, kms, coins, id, plain.value);
      }
      var newBlob := EncryptField(g, kms, plain.value, coins(id));
      if newBlob.Err? {
        return Err(CannotEncrypt(id));
      }
      EncryptNamesId(g, kms, plain.value, coins(id));
      var roundtrip := DecryptFieldRaw(g, kms, newBlob.value);
      if roundtrip != plain {
        return Err(RoundTripFailed(id));
      }
      rewrapped := rewrapped[id := newBlob.value];
    }
    assert page[..|page|] == page;
    r := Ok(rewrapped);
  }

  function UpTo(all: set<RowId>, last: RowId): set<RowId> {
    set id | id in all && id <= last
  }

  lemma AscendingIsPrefix(all: set<RowId>, limit: nat)
    requires StrictTotal(Before) && Ascending(all, Before, limit) != []
    ensures var page := Ascending(all, Before, limit);
      var last := page[|page| - 1];
      last in all && Members(page) == UpTo(all, last) && |page| == |UpTo(all, last)|
  {
    hide Ascending, UpTo;
    AscendingTakes(all, Before, limit);
    TakesPrefix(all, Ascending(all, Before, limit));
  }

  lemma TakesPrefix(all: set<RowId>, page: seq<RowId>)
    requires page != [] && forall k :: 0 <= k < |page| ==> page[k] in all
    requires forall i, j :: 0 <= i < j < |page| ==> page[i] < page[j]
    requires forall x :: x in all && x !in page ==> page[|page| - 1] < x
    ensures page[|page| - 1] in all
    ensures Members(page) == UpTo(all, page[|page| - 1]) && |page| == |UpTo(all, page[|page| - 1])|
  {
    var last := page[|page| - 1];
    forall id | id in page ensures id in all && id <= last {
      var k :| 0 <= k < |page| && page[k] == id;
    }
    DistinctSize(page);
    assert Members(page) == UpTo(all, last);
  }

  lemma PastCursor(col: Column, tenantId: Option<TenantId>, cursor: Option<RowId>, last: RowId)
    requires last in Candidates(col, tenantId, cursor)
    ensures Candidates(col, tenantId, Some(last)) ==
        Candidates(col, tenantId, cursor) - UpTo(Candidates(col, tenantId, cursor), last)
    ensures cursor.Some? ==> cursor.value < last
  {
  }

  /** A page holds exactly the candidates up to its last row, and is empty only if there are none. */
  lemma PageCoversPrefix(col: Column, tenantId: Option<TenantId>, cursor: Option<RowId>, limit: nat)
    requires SelectPage(col, tenantId, cursor, limit) != []
    ensures var page := SelectPage(col, tenantId, cursor, limit);
      var last, all := page[|page| - 1], Candidates(col, tenantId, cursor);
      && last in all
      && |page| + |Candidates(col, tenantId, Some(last))| == |all|
      && Members(page) == all - Candidates(col, tenantId, Some(last))
      && (cursor.Some? ==> cursor.value < last)
  {
    hide Candidates, Ascending;
    var all, page := Candidates(col, tenantId, cursor), SelectPage(col, tenantId, cursor, limit);
    var last := page[|page| - 1];
    AscendingIsPrefix(all, limit);
    PastCursor(col, tenantId, cursor, last);
    assert UpTo(all, last) <= all;
  }

  /** Where a run stands between two pages: settled up to the cursor, untouched past it. */
  ghost predicate AtCursor(g: Aead, kms: LocalKms, args: Args, pre: Column, cur: Column, cursor: Option<RowId>) {
    var settled := Candidates(pre, args.tenantId, None) - Candidates(pre, args.tenantId, cursor);
    && RunStep(g, kms, args.tenantId, pre, cur)
    && (args.dryRun ==> cur == pre)
    && (forall id :: id in pre.cells && (cursor.Some? ==> cursor.value < id) ==>
         cur.cells[id] == pre.cells[id] && (id in cur.progress <==> id in pre.progress))
    && Readable(g, kms, pre, settled)
    && (!args.dryRun && IsAscii(kms.kekId) ==>
         forall id :: id in settled ==> cur.cells[id].blob.Some? && IsCurrent(kms, cur.cells[id].blob.value))
  }

  lemma AtStart(g: Aead, kms: LocalKms, args: Args, pre: Column)
    ensures AtCursor(g, kms, args, pre, pre, None)
  {
    assert Candidates(pre, args.tenantId, None) - Candidates(pre, args.tenantId, None) == {};
  }

  lemma AtCursorSteps(g: Aead, kms: LocalKms, args: Args, pre: Column, cur: Column, cursor: Option<RowId>)
    requires AtCursor(g, kms, args, pre, cur, cursor)
    ensures RunStep(g, kms, args.tenantId, pre, cur) && (args.dryRun ==> cur == pre) && cur.cells.Keys == pre.cells.Keys
    ensures args.tenantId.Some? ==> OtherTenantsUntouched(args.tenantId.value, pre, cur)
  {
    if args.tenantId.Some? {
      StepSparesOthers(g, kms, args.tenantId.value, pre, cur);
    }
  }

  lemma AtEnd(g: Aead, kms: LocalKms, args: Args, pre: Column, cur: Column, cursor: Option<RowId>, touched: nat)
    requires AtCursor(g, kms, args, pre, cur, cursor)
    requires Candidates(pre, args.tenantId, cursor) == {} && touched == |Candidates(pre, args.tenantId, None)|
    ensures RunDone(g, kms, args, pre, cur, touched)
  {
    var all := Candidates(pre, args.tenantId, None);
    assert all - Candidates(pre, args.tenantId, cursor) == all;
  }

  lemma AtCursorCandidates(g: Aead, kms: LocalKms, args: Args, pre: Column, cur: Column, cursor: Option<RowId>)
    requires AtCursor(g, kms, args, pre, cur, cursor)
    ensures Candidates(cur, args.tenantId, cursor) == Candidates(pre, args.tenantId, cursor)
    ensures Candidates(cur, args.tenantId, cursor) <= Candidates(pre, args.tenantId, None)
  {
  }

  lemma PageRows(col: Column, tenantId: Option<TenantId>, cursor: Option<RowId>, limit: nat)
    ensures var page := SelectPage(col, tenantId, cursor, limit);
      && (page == [] && limit > 0 ==> Candidates(col, tenantId, cursor) == {})
      && forall i :: 0 <= i < |page| ==> page[i] in col.cells && col.cells[page[i]].blob.Some?
  {
    var page := SelectPage(col, tenantId, cursor, limit);
    assert forall i :: 0 <= i < |page| ==> page[i] in Candidates(col, tenantId, cursor);
  }

  /** What remains past the page is what remained of the original candidates. */
  lemma PageRest(g: Aead, kms: LocalKms, args: Args, pre: Column, cur: Column, cursor: Option<RowId>, last: RowId)
    requires AtCursor(g, kms, args, pre, cur, cursor) && (cursor.Some? ==> cursor.value < last)
    ensures Candidates(cur, args.tenantId, Some(last)) == Candidates(pre, args.tenantId, Some(last))
  {
  }

  /** The rows of a page are the candidates between the cursor and its last row, and none has been touched yet. */
  lemma PageIsFresh(g: Aead, kms: LocalKms, args: Args, pre: Column, cur: Column, cursor: Option<RowId>, id: RowId)
    requires AtCursor(g, kms, args, pre, cur, cursor)
    requires SelectPage(cur, args.tenantId, cursor, args.batchSize) != []
    ensures var page := SelectPage(cur, args.tenantId, cursor, args.batchSize);
      var last := page[|page| - 1];
      && (id in page <==>
            id in Candidates(pre, args.tenantId, cursor) && id !in Candidates(pre, args.tenantId, Some(last)))
      && (id in page ==> id <= last && id in Candidates(pre, args.tenantId, None) && cur.cells[id] == pre.cells[id] && id !in cur.progress)
      && (cursor.Some? ==> cursor.value < last)
  {
    PageCoversPrefix(cur, args.tenantId, cursor, args.batchSize);
    AtCursorCandidates(g, kms, args, pre, cur, cursor);
    var page := SelectPage(cur, args.tenantId, cursor, args.batchSize);
    assert id in page <==> id in Members(page);
  }

  lemma CommitSteps(g: Aead, kms: LocalKms, tenantId: Option<TenantId>, pre: Column, cur: Column,
                    written: map<RowId, Bytes>)
    requires RunStep(g, kms, tenantId, pre, cur)
    requires forall id :: id in written ==>
      id in Candidates(pre, tenantId, None) && id in cur.cells && cur.cells[id] == pre.cells[id]
    requires forall id :: id in written ==> Moved(g, kms, cur.cells[id], cur.cells[id].(blob := Some(written[id])))
    ensures RunStep(g, kms, tenantId, pre, Commit(cur, written))
  {
    forall id | id in pre.cells ensures CellStep(g, kms, tenantId, pre, Commit(cur, written), id) {
      assert CellStep(g, kms, tenantId, pre, cur, id);
    }
  }

  lemma PageCommits(g: Aead, kms: LocalKms, args: Args, pre: Column, cur: Column, cursor: Option<RowId>,
                    written: map<RowId, Bytes>)
    requires AtCursor(g, kms, args, pre, cur, cursor)
    requires SelectPage(cur, args.tenantId, cursor, args.batchSize) != []
    requires Reencrypted(g, kms, cur, SelectPage(cur, args.tenantId, cursor, args.batchSize), written)
    ensures RunStep(g, kms, args.tenantId, pre, Commit(cur, written))
  {
    hide DecryptFieldRaw, EnvelopeKekId, SelectPage, Candidates, Moved, CellStep, Readable;
    forall id | id in written
      ensures id in Candidates(pre, args.tenantId, None) && cur.cells[id] == pre.cells[id] && id !in cur.progress
    {
      PageIsFresh(g, kms, args, pre, cur, cursor, id);
    }
    CommitSteps(g, kms, args.tenantId, pre, cur, written);
  }

  /** Rows past the page are as they were. */
  lemma PageUntouched(g: Aead, kms: LocalKms, args: Args, pre: Column, cur: Column, cursor: Option<RowId>,
                      written: map<RowId, Bytes>, id: RowId)
    requires AtCursor(g, kms, args, pre, cur, cursor)
    requires SelectPage(cur, args.tenantId, cursor, args.batchSize) != []
    requires Reencrypted(g, kms, cur, SelectPage(cur, args.tenantId, cursor, args.batchSize), written)
    ensures var page := SelectPage(cur, args.tenantId, cursor, args.batchSize);
      var post := if args.dryRun then cur else Commit(cur, written);
      id in pre.cells && page[|page| - 1] < id ==>
        id in post.cells && post.cells[id] == pre.cells[id] && (id in post.progress <==> id in pre.progress)
  {
    hide DecryptFieldRaw, EnvelopeKekId, Ascending, Moved, CellStep, Candidates, SelectPage, Readable;
    PageIsFresh(g, kms, args, pre, cur, cursor, id);
  }

  /** Committing a page settles the rows up to its last one. */
  lemma PageAdvances(g: Aead, kms: LocalKms, args: Args, pre: Column, cur: Column, cursor: Option<RowId>,
                     written: map<RowId, Bytes>)
    requires AtCursor(g, kms, args, pre, cur, cursor)
    requires SelectPage(cur, args.tenantId, cursor, args.batchSize) != []
    requires Reencrypted(g, kms, cur, SelectPage(cur, args.tenantId, cursor, args.batchSize), written)
    ensures var page := SelectPage(cur, args.tenantId, cursor, args.batchSize);
      AtCursor(g, kms, args, pre, if args.dryRun then cur else Commit(cur, written), Some(page[|page| - 1]))
  {
    hide DecryptFieldRaw, EnvelopeKekId, SelectPage, Moved, CellStep, Reencrypted, Commit;
    var page := SelectPage(cur, args.tenantId, cursor, args.batchSize);
    var last := page[|page| - 1];
    var post := if args.dryRun then cur else Commit(cur, written);
    forall id | id in pre.cells && last < id
      ensures id in post.cells && post.cells[id] == pre.cells[id] && (id in post.progress <==> id in pre.progress)
    {
      PageUntouched(g, kms, args, pre, cur, cursor, written, id);
    }
    if !args.dryRun {
      PageCommits(g, kms, args, pre, cur, cursor, written);
    }
    var settled := Candidates(pre, args.tenantId, None) - Candidates(pre, args.tenantId, Some(last));
    forall id | id in settled
      ensures IsCurrent(kms, pre.cells[id].blob.value) || DecryptFieldRaw(g, kms, pre.cells[id].blob.value).Ok?
      ensures !args.dryRun && IsAscii(kms.kekId) ==>
        post.cells[id].blob.Some? && IsCurrent(kms, post.cells[id].blob.value)
    {
      PageSettles(g, kms, args, pre, cur, cursor, written, id);
    }
  }

  lemma PageSettles(g: Aead, kms: LocalKms, args: Args, pre: Column, cur: Column, cursor: Option<RowId>,
                    written: map<RowId, Bytes>, id: RowId)
    requires AtCursor(g, kms, args, pre, cur, cursor)
    requires SelectPage(cur, args.tenantId, cursor, args.batchSize) != []
    requires Reencrypted(g, kms, cur, SelectPage(cur, args.tenantId, cursor, args.batchSize), written)
    requires var page := SelectPage(cur, args.tenantId, cursor, args.batchSize);
      id in Candidates(pre, args.tenantId, None) && id !in Candidates(pre, args.tenantId, Some(page[|page| - 1]))
    ensures IsCurrent(kms, pre.cells[id].blob.value) || DecryptFieldRaw(g, kms, pre.cells[id].blob.value).Ok?
    ensures !args.dryRun && IsAscii(kms.kekId) ==>
      && Commit(cur, written).cells[id].blob.Some?
      && IsCurrent(kms, Commit(cur, written).cells[id].blob.value)
  {
    PageIsFresh(g, kms, args, pre, cur, cursor, id);
    AsciiExact(kms.kekId);
    var page := SelectPage(cur, args.tenantId, cursor, args.batchSize);
    if id in page {
      assert id in written ==> Moved(g, kms, cur.cells[id], cur.cells[id].(blob := Some(written[id])));
    } else {
      assert id in Candidates(pre, args.tenantId, None) - Candidates(pre, args.tenantId, cursor);
      assert id !in written;
    }
  }

  /** Nothing kills the process. */
  ghost predicate Survives(fate: nat -> Fate) {
    forall n :: fate(n) == Proceed
  }

  /** A page that fails holds a candidate of the start that cannot be read. */
  lemma PageUnreadable(g: Aead, kms: LocalKms, args: Args, pre: Column, cur: Column, cursor: Option<RowId>)
    requires AtCursor(g, kms, args, pre, cur, cursor)
    requires forall i :: 0 <= i < |SelectPage(cur, args.tenantId, cursor, args.batchSize)| ==>
      SelectPage(cur, args.tenantId, cursor, args.batchSize)[i] in cur.cells
      && cur.cells[SelectPage(cur, args.tenantId, cursor, args.batchSize)[i]].blob.Some?
    requires !forall i :: 0 <= i < |SelectPage(cur, args.tenantId, cursor, args.batchSize)| ==>
      Handled(g, kms, cur.cells[SelectPage(cur, args.tenantId, cursor, args.batchSize)[i]].blob.value)
    ensures !Readable(g, kms, pre, Candidates(pre, args.tenantId, None))
  {
    hide AtCursor, SelectPage, Candidates, Handled;
    var page := SelectPage(cur, args.tenantId, cursor, args.batchSize);
    var i :| 0 <= i < |page| && !Handled(g, kms, cur.cells[page[i]].blob.value);
    PageIsFresh(g, kms, args, pre, cur, cursor, page[i]);
  }

  lemma DoneIsReadable(g: Aead, kms: LocalKms, args: Args, pre: Column, post: Column, touched: nat)
    requires RunDone(g, kms, args, pre, post, touched)
    ensures Readable(g, kms, pre, Candidates(pre, args.tenantId, None))
  {
  }

  class Database {
    var columns: map<ColumnId, Column>

    constructor (columns: map<ColumnId, Column>)
      ensures this.columns == columns
    {
      this.columns := columns;
    }

    /**
     * One column. Whatever happens, the column makes a RunStep and no other column changes; a dry run writes nothing.
     * A normal return has selected every candidate exactly once.
     */
    method RewrapColumn(g: Aead, kms: LocalKms, c: ColumnId, args: Args, coins: RowId -> Coins, fate: nat -> Fate)
      returns (r: Result<nat, RewrapError>)
      requires c in columns
      modifies this
      ensures c in columns && columns == old(columns)[c := columns[c]]
      ensures args.dryRun ==> columns == old(columns)
      ensures RunStep(g, kms, args.tenantId, old(columns)[c], columns[c])
      ensures args.tenantId.Some? ==> OtherTenantsUntouched(args.tenantId.value, old(columns)[c], columns[c])
      ensures r.Ok? && args.batchSize > 0 ==> RunDone(g, kms, args, old(columns)[c], columns[c], r.value)
      ensures Working(g, kms, coins) && Survives(fate) && args.batchSize > 0 ==>
        (r.Ok? <==> Readable(g, kms, old(columns)[c], Candidates(old(columns)[c], args.tenantId, None)))
    {
      hide DecryptFieldRaw, EnvelopeKekId, AtCursor, RunStep, RunDone, Reencrypted, Candidates, SelectPage, Commit;
      hide Readable, Handled, Working, OtherTenantsUntouched;
      ghost var pre := columns[c];
      ghost var all := Candidates(pre, args.tenantId, None);
      var touched, cursor, n := 0, None, 0;
      AtStart(g, kms, args, pre);
      AtCursorSteps(g, kms, args, pre, pre, None);
      while true
        invariant c in columns && columns == old(columns)[c := columns[c]]
        invariant AtCursor(g, kms, args, pre, columns[c], cursor)
        invariant RunStep(g, kms, args.tenantId, pre, columns[c]) && (args.dryRun ==> columns[c] == pre)
        invariant args.tenantId.Some? ==> OtherTenantsUntouched(args.tenantId.value, pre, columns[c])
        invariant touched + |Candidates(pre, args.tenantId, cursor)| == |all|
        decreases |Candidates(pre, args.tenantId, cursor)|
      {
        var page := SelectPage(columns[c], args.tenantId, cursor, args.batchSize);
        AtCursorCandidates(g, kms, args, pre, columns[c], cursor);
        PageRows(columns[c], args.tenantId, cursor, args.batchSize);
        if page == [] {
          break;
        }
        PageCoversPrefix(columns[c], args.tenantId, cursor, args.batchSize);
        var last := page[|page| - 1];
        var rewrapped := ReencryptPage(g, kms, columns[c], page, coins);
        if rewrapped.Err? {
          if Working(g, kms, coins) {
            PageUnreadable(g, kms, args, pre, columns[c], cursor);
          }
          return Err(rewrapped.error);
        }
        if fate(n) == DieBeforeCommit {
          return Err(Died);
        }
        PageAdvances(g, kms, args, pre, columns[c], cursor, rewrapped.value);
        ghost var before := columns[c];
        if !args.dryRun {
          columns := columns[c := Commit(columns[c], rewrapped.value)];
        }
        AtCursorSteps(g, kms, args, pre, columns[c], Some(last));
        if fate(n) == DieAfterCommit {
          return Err(Died);
        }
        PageRest(g, kms, args, pre, before, cursor, last);
        touched := touched + |page|;
        cursor := Some(last);
        n := n + 1;
      }
      if args.batchSize > 0 {
        AtEnd(g, kms, args, pre, columns[c], cursor, touched);
        DoneIsReadable(g, kms, args, pre, columns[c], touched);
      }
      r := Ok(touched);
    }

    /** Every selected column in turn; an unknown table fails before anything is read. */
    method RunRewrap(g: Aead, kms: LocalKms, args: Args, coins: (ColumnId, RowId) -> Coins,
                     fate: (ColumnId, nat) -> Fate)
      returns (r: Result<(map<ColumnId, nat>, nat), RewrapError>)
      requires forall c :: c in EncryptedColumns() ==> c in columns
      modifies this
      ensures Selected(args) == [] ==> r == Err(UnknownTable)
      ensures ColumnsStep(g, kms, args, old(columns), columns, Selected(args))
      ensures r.Ok? && args.batchSize > 0 ==>
        ColumnsDone(g, kms, args, old(columns), columns, Selected(args), r.value.0, r.value.1)
      ensures AllWork(g, kms, coins, fate) && args.batchSize > 0 && Selected(args) != [] ==>
        (r.Ok? <==> AllReadable(g, kms, args, old(columns), Selected(args)))
    {
      hide AllReadable, Readable, Working, Survives, Candidates;
      hide RunDone, EncryptedColumns, Selected, ColumnsStep, ColumnsDone;
      ghost var pre := columns;
      var selected := Selected(args);
      SelectedColumns(args);
      ColumnsStart(g, kms, args, columns, selected);
      NoneReadable(g, kms, args, pre);
      if selected == [] {
        return Err(UnknownTable);
      }
      var totals: map<ColumnId, nat>, grandTotal := map[], 0;
      for i := 0 to |selected|
        invariant columns.Keys == pre.Keys
        invariant forall k :: i <= k < |selected| ==> columns[selected[k]] == pre[selected[k]]
        invariant ColumnsStep(g, kms, args, pre, columns, selected)
        invariant args.batchSize > 0 ==> ColumnsDone(g, kms, args, pre, columns, selected[..i], totals, grandTotal)
        invariant AllWork(g, kms, coins, fate) && args.batchSize > 0 ==> AllReadable(g, kms, args, pre, selected[..i])
      {
        var c := selected[i];
        ghost var before := columns;
        var n := RewrapColumn(g, kms, c, args, (id: RowId) => coins(c, id), (k: nat) => fate(c, k));
        OneMoreStep(g, kms, args, pre, before, c, columns[c], selected);
        if AllWork(g, kms, coins, fate) {
          WorksOn(g, kms, coins, fate, c);
          OneMoreReadable(g, kms, args, pre, selected, i);
        }
        if n.Err? {
          return Err(n.error);
        }
        if args.batchSize > 0 {
          OneMoreDone(g, kms, args, pre, before, selected, i, columns[c], totals, grandTotal, n.value);
        }
        totals, grandTotal := totals[c := n.value], grandTotal + n.value;
      }
      assert selected[..|selected|] == selected;
      r := Ok((totals, grandTotal));
    }
  }

  ghost predicate AllWork(g: Aead, kms: LocalKms, coins: (ColumnId, RowId) -> Coins, fate: (ColumnId, nat) -> Fate) {
    forall c :: WorksOnColumn(g, kms, coins, fate, c)
  }

  ghost predicate WorksOnColumn(g: Aead, kms: LocalKms, coins: (ColumnId, RowId) -> Coins,
                                fate: (ColumnId, nat) -> Fate, c: ColumnId) {
    Working(g, kms, (id: RowId) => coins(c, id)) && Survives((k: nat) => fate(c, k))
  }

  /** Every cell the run will come to can be read, or is already under the active key. */
  ghost predicate AllReadable(g: Aead, kms: LocalKms, args: Args, pre: map<ColumnId, Column>, selected: seq<ColumnId>) {
    forall c :: c in selected ==> c in pre && Readable(g, kms, pre[c], Candidates(pre[c], args.tenantId, None))
  }

  lemma WorksOn(g: Aead, kms: LocalKms, coins: (ColumnId, RowId) -> Coins, fate: (ColumnId, nat) -> Fate, c: ColumnId)
    requires AllWork(g, kms, coins, fate)
    ensures Working(g, kms, (id: RowId) => coins(c, id)) && Survives((k: nat) => fate(c, k))
  {
    assert WorksOnColumn(g, kms, coins, fate, c);
  }

  lemma NoneReadable(g: Aead, kms: LocalKms, args: Args, pre: map<ColumnId, Column>)
    ensures AllReadable(g, kms, args, pre, [])
  {
  }

  lemma OneMoreReadable(g: Aead, kms: LocalKms, args: Args, pre: map<ColumnId, Column>, selected: seq<ColumnId>, i: nat)
    requires i < |selected| && selected[i] in pre
    ensures AllReadable(g, kms, args, pre, selected[..i + 1]) <==>
      AllReadable(g, kms, args, pre, selected[..i]) && Readable(g, kms, pre[selected[i]], Candidates(pre[selected[i]], args.tenantId, None))
    ensures AllReadable(g, kms, args, pre, selected) ==> AllReadable(g, kms, args, pre, selected[..i + 1])
  {
    hide Readable, Candidates;
    assert selected[..i + 1] == selected[..i] + [selected[i]];
  }

  /** A run makes a step on each selected column, none if it is dry, and leaves every other column alone. */
  ghost predicate ColumnsStep(g: Aead, kms: LocalKms, args: Args, pre: map<ColumnId, Column>, post: map<ColumnId,
                              Column>,
                              selected: seq<ColumnId>) {
    && post.Keys == pre.Keys
    && forall c :: c in pre ==>
         && (c in selected && !args.dryRun ==> RunStep(g, kms, args.tenantId, pre[c], post[c]))
         && (c !in selected || args.dryRun ==> post[c] == pre[c])
  }

  /** Each of these columns is done, and the totals count their candidates. */
  ghost predicate ColumnsDone(g: Aead, kms: LocalKms, args: Args, pre: map<ColumnId, Column>, post: map<ColumnId,
                              Column>,
                              done: seq<ColumnId>, totals: map<ColumnId, nat>, grandTotal: nat) {
    && totals.Keys == (set c | c in done)
    && grandTotal == SumOver(done, totals)
    && forall c :: c in done ==> c in pre && c in post && RunDone(g, kms, args, pre[c], post[c], totals[c])
  }

  lemma ColumnsStart(g: Aead, kms: LocalKms, args: Args, pre: map<ColumnId, Column>, selected: seq<ColumnId>)
    ensures ColumnsStep(g, kms, args, pre, pre, selected)
    ensures ColumnsDone(g, kms, args, pre, pre, [], map[], 0)
  {
  }

  lemma OneMoreStep(g: Aead, kms: LocalKms, args: Args, pre: map<ColumnId, Column>, cur: map<ColumnId, Column>,
                    c: ColumnId, col: Column, selected: seq<ColumnId>)
    requires ColumnsStep(g, kms, args, pre, cur, selected) && c in selected && c in cur && cur[c] == pre[c]
    requires RunStep(g, kms, args.tenantId, pre[c], col) && (args.dryRun ==> col == pre[c])
    ensures ColumnsStep(g, kms, args, pre, cur[c := col], selected)
  {
    hide RunStep;
  }

  lemma OneMoreDone(g: Aead, kms: LocalKms, args: Args, pre: map<ColumnId, Column>, cur: map<ColumnId, Column>,
                    selected: seq<ColumnId>, i: nat, col: Column, totals: map<ColumnId, nat>, grandTotal: nat, n: nat)
    requires i < |selected| && forall j, k :: 0 <= j < k < |selected| ==> selected[j] != selected[k]
    requires ColumnsDone(g, kms, args, pre, cur, selected[..i], totals, grandTotal)
    requires selected[i] in pre && selected[i] in cur && RunDone(g, kms, args, pre[selected[i]], col, n)
    ensures ColumnsDone(g, kms, args, pre, cur[selected[i] := col], selected[..i + 1], totals[selected[i] := n], grandTotal + n)
  {
    hide RunDone;
    var c := selected[i];
    assert selected[..i + 1] == selected[..i] + [c];
    SumOverSnoc(selected[..i], c, totals, n);
  }

  /** The columns a run works on: all of them, or those of the one named table. */
  function Selected(args: Args): seq<ColumnId> {
    if args.table.Some? && args.table.value != "" then OfTable(EncryptedColumns(), args.table.value)
    else EncryptedColumns()
  }

  function OfTable(columns: seq<ColumnId>, table: string): seq<ColumnId> {
    if columns == [] then []
    else (if columns[0].table == table then [columns[0]] else []) + OfTable(columns[1..], table)
  }

  lemma {:induction false} OfTableColumns(columns: seq<ColumnId>, table: string)
    requires forall i, j :: 0 <= i < j < |columns| ==> columns[i] != columns[j]
    ensures var r := OfTable(columns, table);
      && (forall c :: c in r <==> c in columns && c.table == table)
      && forall i, j :: 0 <= i < j < |r| ==> r[i] != r[j]
  {
    if columns != [] {
      OfTableColumns(columns[1..], table);
      assert columns == [columns[0]] + columns[1..];
    }
  }

  /** A run works on each selected column once, and selects nothing exactly for a table that holds no encrypted column. */
  lemma SelectedColumns(args: Args)
    ensures var r := Selected(args);
      && (forall c :: c in r <==> c in EncryptedColumns() && (args.table in {None, Some("")} || c.table == args.table.value))
      && forall i, j :: 0 <= i < j < |r| ==> r[i] != r[j]
  {
    hide EncryptedColumns, OfTable;
    ColumnsDistinct();
    if args.table.Some? {
      OfTableColumns(EncryptedColumns(), args.table.value);
    }
  }

  function TableLengths(): seq<nat> {
    [5, 8, 23, 13, 29, 18, 16, 17, 10, 10]
  }

  lemma ColumnsDistinct()
    ensures forall i, j :: 0 <= i < j < |EncryptedColumns()| ==> EncryptedColumns()[i] != EncryptedColumns()[j]
  {
    var cs := EncryptedColumns();
    assert |cs[0].table| == 5 && |cs[1].table| == 8 && |cs[2].table| == 23 && |cs[3].table| == 13 && |cs[4].table| == 29;
    assert |cs[5].table| == 18 && |cs[6].table| == 16 && |cs[7].table| == 17 && |cs[8].table| == 10 && |cs[9].table| == 10;
    assert |cs[8].column| == 10 && |cs[9].column| == 9;
    assert forall i :: 0 <= i < 10 ==> |cs[i].table| == TableLengths()[i];
  }

  function SumOver(cs: seq<ColumnId>, totals: map<ColumnId, nat>): nat
    requires forall c :: c in cs ==> c in totals
  {
    if cs == [] then 0 else SumOver(cs[..|cs| - 1], totals) + totals[cs[|cs| - 1]]
  }

  lemma SumOverSnoc(cs: seq<ColumnId>, c: ColumnId, totals: map<ColumnId, nat>, n: nat)
    requires c !in cs && forall x :: x in cs ==> x in totals
    ensures SumOver(cs + [c], totals[c := n]) == SumOver(cs, totals) + n
  {
    SumOverFrame(cs, c, totals, n);
    assert (cs + [c])[..|cs|] == cs;
  }

  lemma {:induction false} SumOverFrame(cs: seq<ColumnId>, c: ColumnId, totals: map<ColumnId, nat>, n: nat)
    requires c !in cs && forall x :: x in cs ==> x in totals
    ensures SumOver(cs, totals[c := n]) == SumOver(cs, totals)
  {
    if cs != [] {
      SumOverFrame(cs[..|cs| - 1], c, totals, n);
    }
  }

  // ---- Runs, crashes and resumption ----

  lemma RunStepReflexive(g: Aead, kms: LocalKms, tenantId: Option<TenantId>, col: Column)
    ensures RunStep(g, kms, tenantId, col, col)
  {
  }

  lemma RunStepTransitive(g: Aead, kms: LocalKms, tenantId: Option<TenantId>, a: Column, b: Column, c: Column)
    requires RunStep(g, kms, tenantId, a, b) && RunStep(g, kms, tenantId, b, c)
    ensures RunStep(g, kms, tenantId, a, c)
  {
    hide DecryptFieldRaw, EnvelopeKekId;
    forall id | id in a.cells ensures CellStep(g, kms, tenantId, a, c, id) {
      assert CellStep(g, kms, tenantId, a, b, id) && CellStep(g, kms, tenantId, b, c, id);
    }
  }

  /** The states of one column before, between and after any number of runs, each of which may have crashed. */
  ghost predicate Runs(g: Aead, kms: LocalKms, tenantId: Option<TenantId>, states: seq<Column>) {
    states != [] && forall i :: 0 <= i < |states| - 1 ==> RunStep(g, kms, tenantId, states[i], states[i + 1])
  }

  lemma {:induction false} RunsCompose(g: Aead, kms: LocalKms, tenantId: Option<TenantId>, states: seq<Column>)
    requires Runs(g, kms, tenantId, states)
    ensures RunStep(g, kms, tenantId, states[0], states[|states| - 1])
    decreases |states|
  {
    hide RunStep;
    if |states| == 1 {
      RunStepReflexive(g, kms, tenantId, states[0]);
    } else {
      var front := states[..|states| - 1];
      RunsCompose(g, kms, tenantId, front);
      assert RunStep(g, kms, tenantId, states[|states| - 2], states[|states| - 2 + 1]);
      RunStepTransitive(g, kms, tenantId, states[0], states[|states| - 2], states[|states| - 1]);
    }
  }

  ghost predicate AllCurrent(kms: LocalKms, tenantId: Option<TenantId>, col: Column) {
    forall id :: id in col.cells && InScope(col.cells[id], tenantId) ==> IsCurrent(kms, col.cells[id].blob.value)
  }

  /** Rows the anti-join will skip are already under the active key. */
  ghost predicate ProgressCurrent(kms: LocalKms, tenantId: Option<TenantId>, col: Column) {
    forall id :: id in col.cells && id in col.progress && InScope(col.cells[id], tenantId) ==>
      IsCurrent(kms, col.cells[id].blob.value)
  }

  /**
   * Crash, resume, finish: after any number of runs of which the last returned normally, every in-scope cell is under
   * the active key if and only if the progress rows present at the start named cells that already were.
   */
  lemma ResumedRewrapExact(g: Aead, kms: LocalKms, tenantId: Option<TenantId>, states: seq<Column>)
    requires Runs(g, kms, tenantId, states) && |states| >= 2 && IsAscii(kms.kekId)
    requires Completed(kms, tenantId, states[|states| - 2], states[|states| - 1])
    ensures AllCurrent(kms, tenantId, states[|states| - 1]) <==> ProgressCurrent(kms, tenantId, states[0])
  {
    hide DecryptFieldRaw, EnvelopeKekId;
    var pre, mid, post := states[0], states[|states| - 2], states[|states| - 1];
    assert Runs(g, kms, tenantId, states[..|states| - 1]);
    RunsCompose(g, kms, tenantId, states[..|states| - 1]);
    RunsCompose(g, kms, tenantId, states);
    AsciiExact(kms.kekId);
    forall id | id in post.cells && InScope(post.cells[id], tenantId)
      ensures id in pre.cells && (id in pre.progress ==> post.cells[id] == pre.cells[id])
      ensures id !in pre.progress ==> IsCurrent(kms, post.cells[id].blob.value)
    {
      assert CellStep(g, kms, tenantId, pre, mid, id) && CellStep(g, kms, tenantId, pre, post, id);
    }
    forall id | id in pre.cells && id in pre.progress ensures post.cells[id] == pre.cells[id] {
      assert CellStep(g, kms, tenantId, pre, post, id);
    }
  }

  /** No run, finished or not, changes what any cell decrypts to. */
  lemma RunsKeepPlaintext(g: Aead, kms: LocalKms, tenantId: Option<TenantId>, states: seq<Column>, id: RowId)
    requires Runs(g, kms, tenantId, states) && id in states[0].cells
    ensures var pre, post := states[0], states[|states| - 1];
      && id in post.cells && post.cells[id].blob.Some? == pre.cells[id].blob.Some?
      && (pre.cells[id].blob.Some? ==>
           DecryptFieldRaw(g, kms, post.cells[id].blob.value) == DecryptFieldRaw(g, kms, pre.cells[id].blob.value))
  {
    hide DecryptFieldRaw, EnvelopeKekId;
    RunsCompose(g, kms, tenantId, states);
    assert CellStep(g, kms, tenantId, states[0], states[|states| - 1], id);
  }

  /**
   * The purpose of the script. Once a run has finished, a key service that no longer loads any retired key reads every
   * in-scope cell exactly as the old one read it before the first run. Nothing is assumed of the cipher: the script's
   * own round-trip check is what makes this so.
   */
  lemma RetiredKeysCanGo(g: Aead, kms: LocalKms, tenantId: Option<TenantId>, states: seq<Column>, id: RowId)
    requires Runs(g, kms, tenantId, states) && |states| >= 2 && IsAscii(kms.kekId)
    requires Completed(kms, tenantId, states[|states| - 2], states[|states| - 1])
    requires ProgressCurrent(kms, tenantId, states[0])
    requires id in states[0].cells && InScope(states[0].cells[id], tenantId)
    ensures var post := states[|states| - 1];
      && id in post.cells && post.cells[id].blob.Some?
      && DecryptFieldRaw(g, kms.(previous := []), post.cells[id].blob.value)
         == DecryptFieldRaw(g, kms, states[0].cells[id].blob.value)
  {
    hide DecryptFieldRaw, EnvelopeKekId;
    ResumedRewrapExact(g, kms, tenantId, states);
    RunsKeepPlaintext(g, kms, tenantId, states, id);
    RunsCompose(g, kms, tenantId, states);
    var post := states[|states| - 1];
    assert CellStep(g, kms, tenantId, states[0], post, id);
    ActiveBlobNeedsNoRetired(g, kms, post.cells[id].blob.value);
  }

  /**
   * Why the precondition matters: the anti-join ignores which key a progress row was for. Whatever one rotation moved,
   * the next rotation's runs skip, and dropping the retired keys then makes it unreadable.
   */
  lemma NextRotationSkips(g: Aead, first: LocalKms, second: LocalKms, tenantId: Option<TenantId>,
                          states: seq<Column>, later: seq<Column>, id: RowId)
    requires Runs(g, first, tenantId, states) && Runs(g, second, tenantId, later)
    requires later[0] == states[|states| - 1] && second.kekId != first.kekId && IsAscii(first.kekId)
    requires id in states[0].cells && id in states[|states| - 1].cells
    requires states[|states| - 1].cells[id] != states[0].cells[id]
    ensures var post := later[|later| - 1];
      && id in post.cells && post.cells[id] == states[|states| - 1].cells[id] && post.cells[id].blob.Some?
      && DecryptFieldRaw(g, first, post.cells[id].blob.value).Ok?
      && DecryptFieldRaw(g, second.(previous := []), post.cells[id].blob.value)
         == Err(KmsFailure(UnknownKek(first.kekId)))
  {
    hide EnvelopeKekId;
    var moved, post := states[|states| - 1], later[|later| - 1];
    RunsCompose(g, first, tenantId, states);
    RunsCompose(g, second, tenantId, later);
    AsciiExact(first.kekId);
    assert CellStep(g, first, tenantId, states[0], moved, id);
    assert CellStep(g, second, tenantId, moved, post, id);
    var blob := post.cells[id].blob.value;
    ScanAgreesWithParse(blob);
  }
}
