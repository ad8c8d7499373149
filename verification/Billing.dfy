/**
 * The receivables pipeline (apps/backend/src/jobs/billingDaily.ts): aging of installments and completion of plans, with
 * the state machines of modules/billing/fsm-def.ts. Late fees are in LateFees.
 */
module Billing {
  import opened Ordering
  import opened Wrappers

  type Day = int
  type Id = nat

  datatype Status =
    | Scheduled | Invoiced | Due | Overdue | PartlyPaid | Paid | Waived | Suspended | Cancelled | Refunded

  datatype PlanStatus = Draft | Active | Paused | Completed | PlanCancelled

  datatype Installment = Installment(plan: Id, status: Status, dueOn: Day, deleted: bool, version: nat)

  datatype Plan = Plan(status: PlanStatus, deleted: bool, endsOn: Option<Day>, version: nat)

  /** One tenant's tables. */
  datatype Ledger = Ledger(installments: map<Id, Installment>, plans: map<Id, Plan>)

  const INVOICE_LEAD_DAYS := 7
  const OVERDUE_GRACE_DAYS := 7
  const SCAN_CAP := 5000

  // ---- State machines ----

  datatype Rule = NoRule | System | AdminWithReason

  function InstallmentRule(from: Status, to: Status): Rule {
    match (from, to)
    case (Scheduled, Invoiced) => System
    case (Invoiced, Due) => System
    case (Due, Overdue) => System
    case (Invoiced, PartlyPaid) => System
    case (Due, PartlyPaid) => System
    case (Overdue, PartlyPaid) => System
    case (Invoiced, Paid) => System
    case (Due, Paid) => System
    case (Overdue, Paid) => System
    case (PartlyPaid, Paid) => System
    case (Scheduled, Suspended) => System
    case (Invoiced, Suspended) => System
    case (Suspended, Invoiced) => System
    case (_, Waived) => if from in {Scheduled, Invoiced, Due, Overdue, PartlyPaid} then AdminWithReason else NoRule
    case (_, Cancelled) =>
      if from in {Scheduled, Invoiced, Due, Overdue, PartlyPaid, Suspended} then AdminWithReason else NoRule
    case (_, Refunded) => if from in {Paid, PartlyPaid, Waived} then AdminWithReason else NoRule
    case (_, PartlyPaid) => if from in {Paid, Waived} then AdminWithReason else NoRule
    case (_, Invoiced) => if from in {Paid, PartlyPaid, Waived} then AdminWithReason else NoRule
    case _ => NoRule
  }

  function PlanRule(from: PlanStatus, to: PlanStatus): Rule {
    match (from, to)
    case (Draft, Active) => System
    case (Active, Paused) => System
    case (Paused, Active) => System
    case (Active, Completed) => System
    case (Active, PlanCancelled) => AdminWithReason
    case (Paused, PlanCancelled) => AdminWithReason
    case _ => NoRule
  }

  /** assertOrThrow for an ADMIN actor: same to same is a no-op, and some edges need a reason. */
  predicate MayTake(same: bool, rule: Rule, reason: bool) {
    same || rule == System || (rule == AdminWithReason && reason)
  }

  /** Every edge of the installment machine, without and with a reason. */
  lemma InstallmentEdges(a: Status, b: Status)
    ensures InstallmentRule(a, b) == System <==> (a, b) in {
      (Scheduled, Invoiced), (Invoiced, Due), (Due, Overdue), (Invoiced, PartlyPaid), (Due, PartlyPaid), (Overdue, PartlyPaid),
      (Invoiced, Paid), (Due, Paid), (Overdue, Paid), (PartlyPaid, Paid), (Scheduled, Suspended), (Invoiced, Suspended),
      (Suspended, Invoiced)}
    ensures InstallmentRule(a, b) == AdminWithReason <==> (a, b) in {
      (Scheduled, Waived), (Invoiced, Waived), (Due, Waived), (Overdue, Waived), (PartlyPaid, Waived),
      (Scheduled, Cancelled), (Invoiced, Cancelled), (Due, Cancelled), (Overdue, Cancelled), (PartlyPaid, Cancelled),
      (Suspended, Cancelled), (Paid, Refunded), (PartlyPaid, Refunded), (Waived, Refunded),
      (Paid, PartlyPaid), (Waived, PartlyPaid), (Paid, Invoiced), (PartlyPaid, Invoiced), (Waived, Invoiced)}
  {
  }

  /** Every edge of the plan machine; and what an ADMIN may do with and without a reason. */
  lemma PlanEdges(a: PlanStatus, b: PlanStatus)
    ensures PlanRule(a, b) == System <==> (a, b) in {(Draft, Active), (Active, Paused), (Paused, Active), (Active, Completed)}
    ensures PlanRule(a, b) == AdminWithReason <==> (a, b) in {(Active, PlanCancelled), (Paused, PlanCancelled)}
    ensures forall same, rule :: MayTake(same, rule, true) <==> same || rule != NoRule
    ensures forall same, rule :: MayTake(same, rule, false) <==> same || rule == System
  {
  }

  predicate Settled(s: Status) {
    s in {Paid, Waived, Cancelled, Refunded}
  }

  /**
   * Settled are exactly the states the system cannot leave on its own: out of them leads at most an ADMIN with a
   * reason.
   */
  lemma SettledExact(s: Status)
    ensures Settled(s) <==> s == Paid || s == Waived || s == Cancelled || s == Refunded
    ensures Settled(s) <==> forall b :: b != s ==> InstallmentRule(s, b) != System
  {
    if !Settled(s) {
      assert InstallmentRule(s, match s case Scheduled => Invoiced case Invoiced => Due case Due => Overdue case Overdue => Paid
                                        case PartlyPaid => Paid case _ => Invoiced) == System;
    }
  }

  /** derivePlanStatusFromInstallments, on the set of statuses. */
  function DerivePlanStatus(statuses: set<Status>): PlanStatus {
    if statuses == {} then Active
    else if Suspended in statuses then Paused
    else if forall s :: s in statuses ==> Settled(s) then Completed
    else Active
  }

  /**
   * The status a plan's installments call for: PAUSED if any is suspended, COMPLETED if there are some and all are
   * settled.
   */
  lemma DeriveExact(statuses: set<Status>)
    ensures DerivePlanStatus(statuses) == Paused <==> Suspended in statuses
    ensures DerivePlanStatus(statuses) == Completed <==> statuses != {} && forall s :: s in statuses ==> Settled(s)
    ensures DerivePlanStatus(statuses) in {Active, Paused, Completed}
  {
  }

  // ---- The steps, as set operations on the ledger ----

  datatype Step = Invoice | FallDue | FallOverdue

  function From(step: Step): Status {
    match step case Invoice => Scheduled case FallDue => Invoiced case FallOverdue => Due
  }

  function To(step: Step): Status {
    match step case Invoice => Invoiced case FallDue => Due case FallOverdue => Overdue
  }

  predicate PlanActive(plans: map<Id, Plan>, plan: Id) {
    plan in plans && plans[plan].status == Active && !plans[plan].deleted
  }

  /** A plan counts as active exactly if it is there, ACTIVE and not deleted. */
  lemma PlanActiveExact(plans: map<Id, Plan>, p: Id)
    ensures PlanActive(plans, p) <==> p in plans && plans[p].status == Active && !plans[p].deleted
  {
  }

  /** The WHERE clause of each scan. */
  predicate Matches(step: Step, row: Installment, plans: map<Id, Plan>, today: Day) {
    && !row.deleted && row.status == From(step)
    && match step
       case Invoice => row.dueOn <= today + INVOICE_LEAD_DAYS && PlanActive(plans, row.plan)
       case FallDue => row.dueOn <= today
       case FallOverdue => row.dueOn < today - OVERDUE_GRACE_DAYS
  }

  function Eligible(db: Ledger, step: Step, today: Day): set<Id> {
    set id | id in db.installments && Matches(step, db.installments[id], db.plans, today)
  }

  function Moved(row: Installment, to: Status): Installment {
    row.(status := to, version := row.version + 1)
  }

  function MoveAll(db: Ledger, ids: set<Id>, to: Status): Ledger {
    db.(installments := map id | id in db.installments ::
          if id in ids then Moved(db.installments[id], to) else db.installments[id])
  }

  function AgeStep(db: Ledger, step: Step, today: Day): Ledger {
    MoveAll(db, Eligible(db, step, today), To(step))
  }

  function PlanStatuses(db: Ledger, plan: Id): set<Status> {
    set id | id in db.installments && db.installments[id].plan == plan && !db.installments[id].deleted
      :: db.installments[id].status
  }

  function Completable(db: Ledger): set<Id> {
    set p | p in db.plans && PlanActive(db.plans, p) && DerivePlanStatus(PlanStatuses(db, p)) == Completed
  }

  function ActivePlans(db: Ledger): set<Id> {
    set p | p in db.plans && PlanActive(db.plans, p)
  }

  function Closed(plan: Plan, today: Day): Plan {
    plan.(status := Completed, endsOn := Some(today), version := plan.version + 1)
  }

  function CloseAll(db: Ledger, ids: set<Id>, today: Day): Ledger {
    db.(plans := map p | p in db.plans :: if p in ids then Closed(db.plans[p], today) else db.plans[p])
  }

  /** What completing does to a plan, and which plans the scan of step 4 is about. */
  lemma ClosingExact(db: Ledger, p: Id, today: Day)
    requires p in db.plans
    ensures Closed(db.plans[p], today) == Plan(Completed, db.plans[p].deleted, Some(today), db.plans[p].version + 1)
    ensures p in ActivePlans(db) <==> db.plans[p].status == Active && !db.plans[p].deleted
    ensures forall row, to :: Moved(row, to) == Installment(row.plan, to, row.dueOn, row.deleted, row.version + 1)
  {
  }

  function Aged(db: Ledger, today: Day): Ledger {
    AgeStep(AgeStep(AgeStep(db, Invoice, today), FallDue, today), FallOverdue, today)
  }

  /** One undisturbed pass within the scan cap. */
  function Pass(db: Ledger, today: Day): Ledger {
    CloseAll(Aged(db, today), Completable(Aged(db, today)), today)
  }

  /** No scan of this pass meets its row limit. */
  ghost predicate WithinCap(db: Ledger, today: Day) {
    var a := AgeStep(db, Invoice, today);
    var b := AgeStep(a, FallDue, today);
    && |Eligible(db, Invoice, today)| <= SCAN_CAP
    && |Eligible(a, FallDue, today)| <= SCAN_CAP
    && |Eligible(b, FallOverdue, today)| <= SCAN_CAP
    && |ActivePlans(db)| <= SCAN_CAP
  }

  // ---- Histories of the committed tables ----

  /**
   * One thing that happens to the committed tables: another actor's transaction, whatever it does, or one write of the
   * cron. The cron's WHERE clause names the status it expects, so a write from a stale scan may find nothing to change.
   */
  datatype Event =
    | Elsewhere(after: Ledger)
    | Aging(step: Step, id: Id)
    | Closing(plan: Id, today: Day)

  /** The WHERE clause still matches. */
  predicate Takes(db: Ledger, e: Event) {
    match e
    case Elsewhere(_) => false
    case Aging(step, id) => id in db.installments && db.installments[id].status == From(step)
    case Closing(p, _) => p in db.plans && db.plans[p].status == Active
  }

  function Next(db: Ledger, e: Event): Ledger {
    match e
    case Elsewhere(after) => after
    case Aging(step, id) =>
      if Takes(db, e) then db.(installments := db.installments[id := Moved(db.installments[id], To(step))]) else db
    case Closing(p, today) =>
      if Takes(db, e) then db.(plans := db.plans[p := Closed(db.plans[p], today)]) else db
  }

  function Play(db: Ledger, events: seq<Event>): Ledger {
    if events == [] then db else Next(Play(db, events[..|events| - 1]), events[|events| - 1])
  }

  // ---- The job: one transaction per step ----

  /**
   * What happens at the n-th statement of the job: first the other actors commit what they commit, then the statement may
   * fail. The statements of a step are its scan, its writes, and its COMMIT.
   */
  datatype Env = Env(others: (nat, Ledger) -> Ledger, fails: nat -> bool) {
    ghost predicate Quiet() {
      (forall n: nat, db: Ledger :: others(n, db) == db) && (forall n: nat :: !fails(n))
    }
  }

  /** The step's own writes: installments moved along one edge, or plans completed. */
  datatype Work = Ages(step: Step) | Closes

  function WriteOf(work: Work, today: Day, id: Id): Event {
    match work case Ages(step) => Aging(step, id) case Closes => Closing(id, today)
  }

  predicate Finds(work: Work, db: Ledger, id: Id) {
    match work
    case Ages(step) => id in db.installments && db.installments[id].status == From(step)
    case Closes => id in db.plans && db.plans[id].status == Active
  }

  function Applied(work: Work, db: Ledger, today: Day, ids: set<Id>): Ledger {
    match work case Ages(step) => MoveAll(db, ids, To(step)) case Closes => CloseAll(db, ids, today)
  }

  predicate SameRow(before: Ledger, after: Ledger, id: Id) {
    id in before.installments ==> id in after.installments && after.installments[id] == before.installments[id]
  }

  predicate SamePlan(before: Ledger, after: Ledger, p: Id) {
    p in before.plans ==> p in after.plans && after.plans[p] == before.plans[p]
  }

  predicate SameTarget(work: Work, before: Ledger, after: Ledger, id: Id) {
    match work case Ages(_) => SameRow(before, after, id) case Closes => SamePlan(before, after, id)
  }

  predicate SpareOwn(work: Work, before: Ledger, after: Ledger, own: seq<Id>) {
    forall k :: 0 <= k < |own| ==> SameTarget(work, before, after, own[k])
  }

  /**
   * A transaction among others (READ COMMITTED): the committed tables, the rows it has written and not yet committed, and
   * whether a statement of it has failed. From then on PostgreSQL refuses its every statement and undoes its writes.
   */
  datatype Tx = Tx(db: Ledger, clock: nat, own: seq<Id>, aborted: bool)

  /** The others do not see the writes of an open transaction; one that would touch such a row waits for its end. */
  function Others(work: Work, t: Tx, env: Env): Ledger {
    var after := env.others(t.clock, t.db);
    if SpareOwn(work, t.db, after, t.own) then after else t.db
  }

  /** One guarded UPDATE: how many rows it wrote, or an error. */
  function Write(work: Work, t: Tx, env: Env, id: Id): (Tx, Result<nat, ()>) {
    var mid := Others(work, t, env);
    if t.aborted || env.fails(t.clock) then (Tx(mid, t.clock + 1, [], true), Err(()))
    else if Finds(work, mid, id) && id !in t.own then (Tx(mid, t.clock + 1, t.own + [id], false), Ok(1))
    else (Tx(mid, t.clock + 1, t.own, false), Ok(0))
  }

  /** COMMIT: of an aborted transaction it is a rollback, and if it throws itself nothing is committed either. */
  function Commit(work: Work, t: Tx, today: Day, env: Env): (Ledger, bool) {
    var mid := Others(work, t, env);
    if t.aborted || env.fails(t.clock) then (mid, !env.fails(t.clock)) else (Applied(work, mid, today, Members(t.own)), true)
  }

  /** Between two turns of a step's loop: the transaction, and what the loop has counted. */
  datatype Loop = Loop(tx: Tx, taken: nat, failed: nat)

  function Turn(loop: Loop, result: (Tx, Result<nat, ()>)): Loop {
    Loop(result.0, loop.taken + (if result.1 == Ok(1) then 1 else 0), loop.failed + if result.1.Err? then 1 else 0)
  }

  function Writes(work: Work, t: Tx, env: Env, ids: seq<Id>): Loop {
    if ids == [] then Loop(t, 0, 0)
    else
      var loop := Writes(work, t, env, ids[..|ids| - 1]);
      Turn(loop, Write(work, loop.tx, env, ids[|ids| - 1]))
  }

  function Filter(scanned: seq<Id>, ready: set<Id>): seq<Id> {
    if scanned == [] then []
    else
      var front, last := Filter(scanned[..|scanned| - 1], ready), scanned[|scanned| - 1];
      if last in ready then front + [last] else front
  }

  /** The rows a step writes, all decided from its scan. The row limit of the last step is on all ACTIVE plans. */
  function Targets(work: Work, db: Ledger, today: Day): seq<Id> {
    match work
    case Ages(step) => Scan(Eligible(db, step, today))
    case Closes => Filter(Scan(ActivePlans(db)), Completable(db))
  }

  /** Where a step leaves the committed tables, and what it reports. */
  datatype StepEnd = StepEnd(db: Ledger, clock: nat, taken: nat, failed: nat)

  function EndOf(work: Work, loop: Loop, today: Day, env: Env): StepEnd {
    var (db, ok) := Commit(work, loop.tx, today, env);
    StepEnd(db, loop.tx.clock + 1, loop.taken, loop.failed + if ok then 0 else 1)
  }

  function RunStep(work: Work, db: Ledger, today: Day, env: Env, clock: nat): StepEnd {
    var seen := env.others(clock, db);
    if env.fails(clock) then StepEnd(seen, clock + 1, 0, 1)
    else EndOf(work, Writes(work, Tx(seen, clock + 1, [], false), env, Targets(work, seen, today)), today, env)
  }

  predicate Less(a: Id, b: Id) { a < b }

  /** A scan: at most the cap, in id order. */
  function Scan(ids: set<Id>): (r: seq<Id>)
    ensures |ids| <= SCAN_CAP ==> Members(r) == ids
    ensures forall id :: id in r ==> id in ids
    ensures forall i, j :: 0 <= i < j < |r| ==> r[i] != r[j]
  {
    assert StrictTotal(Less);
    AscendingTakes(ids, Less, SCAN_CAP);
    Ascending(ids, Less, SCAN_CAP)
  }

  lemma MembersSnoc(s: seq<Id>, i: nat)
    requires i < |s| && forall j, k :: 0 <= j < k < |s| ==> s[j] != s[k]
    ensures Members(s[..i + 1]) == Members(s[..i]) + {s[i]} && s[i] !in Members(s[..i]) && s[i] in s
  {
    assert s[..i + 1] == s[..i] + [s[i]];
  }

  datatype Counters = Counters(invoiced: nat, due: nat, overdue: nat, completed: nat, errors: nat)

  /** The four steps in a row, each from the tables the previous one left. */
  function RunTenant(db: Ledger, today: Day, env: Env, clock: nat): (Ledger, Counters) {
    var a := RunStep(Ages(Invoice), db, today, env, clock);
    var b := RunStep(Ages(FallDue), a.db, today, env, a.clock);
    var c := RunStep(Ages(FallOverdue), b.db, today, env, b.clock);
    var d := RunStep(Closes, c.db, today, env, c.clock);
    (d.db, Counters(a.taken, b.taken, c.taken, d.taken, a.failed + b.failed + c.failed + d.failed))
  }

  class TenantBilling {
    var db: Ledger      // the committed tables
    var clock: nat
    var own: seq<Id>    // what the open transaction has written
    var aborted: bool

    constructor (db: Ledger)
      ensures this.db == db
    {
      this.db, clock, own, aborted := db, 0, [], false;
    }

    function Open(): Tx
      reads this
    {
      Tx(db, clock, own, aborted)
    }

    /** updateMany inside the transaction. */
    method Update(work: Work, id: Id, env: Env) returns (count: Result<nat, ()>)
      modifies this
      ensures (Open(), count) == Write(work, old(Open()), env, id)
    {
      db := Others(work, Open(), env);
      aborted := aborted || env.fails(clock);
      clock := clock + 1;
      if aborted {
        own := [];
        return Err(());
      }
      if Finds(work, db, id) && id !in own {
        own := own + [id];
        return Ok(1);
      }
      count := Ok(0);
    }

    /** The end of the transaction; false if it throws. */
    method End(work: Work, today: Day, env: Env) returns (ok: bool)
      modifies this
      ensures (db, ok) == Commit(work, old(Open()), today, env) && clock == old(clock) + 1
    {
      db := Others(work, Open(), env);
      ok := !env.fails(clock);
      if ok && !aborted {
        db := Applied(work, db, today, Members(own));
      }
      clock := clock + 1;
    }

    /** Steps 0 to 2: scan, then one guarded write per scanned row, in one transaction. */
    method Age(step: Step, today: Day, env: Env) returns (moved: nat, errors: nat)
      modifies this
      ensures StepEnd(db, clock, moved, errors) == RunStep(Ages(step), old(db), today, env, old(clock))
    {
      hide Eligible, Scan, Write, Commit;
      moved, errors := 0, 0;
      db := env.others(clock, db);
      var scanFails := env.fails(clock);
      clock := clock + 1;
      if scanFails {
        return 0, 1;
      }
      own, aborted := [], false;
      ghost var start := Open();
      var scanned := Scan(Eligible(db, step, today));
      for i := 0 to |scanned|
        invariant Loop(Open(), moved, errors) == Writes(Ages(step), start, env, scanned[..i])
      {
        assert scanned[..i + 1][..i] == scanned[..i];
        var count := Update(Ages(step), scanned[i], env);
        match count {
          case Err(_) => errors := errors + 1;
          case Ok(n) => if n == 1 { moved := moved + 1; }
        }
      }
      assert scanned[..|scanned|] == scanned;
      var ok := End(Ages(step), today, env);
      if !ok {
        errors := errors + 1;
      }
    }

    /** Step 4: of the ACTIVE plans scanned, complete those whose installments were all settled at the scan. */
    method ClosePlans(today: Day, env: Env) returns (completed: nat, errors: nat)
      modifies this
      ensures StepEnd(db, clock, completed, errors) == RunStep(Closes, old(db), today, env, old(clock))
    {
      hide Completable, ActivePlans, Scan, Write, Commit;
      completed, errors := 0, 0;
      db := env.others(clock, db);
      var scanFails := env.fails(clock);
      clock := clock + 1;
      if scanFails {
        return 0, 1;
      }
      own, aborted := [], false;
      ghost var start := Open();
      var ready := Completable(db);
      var scanned := Scan(ActivePlans(db));
      for i := 0 to |scanned|
        invariant Loop(Open(), completed, errors) == Writes(Closes, start, env, Filter(scanned[..i], ready))
      {
        var p := scanned[i];
        assert scanned[..i + 1][..i] == scanned[..i];
        if p !in ready {
          continue;
        }
        ghost var front := Filter(scanned[..i], ready);
        assert (front + [p])[..|front|] == front;
        var count := Update(Closes, p, env);
        match count {
          case Err(_) => errors := errors + 1;
          case Ok(n) => if n == 1 { completed := completed + 1; }
        }
      }
      assert scanned[..|scanned|] == scanned;
      var ok := End(Closes, today, env);
      if !ok {
        errors := errors + 1;
      }
    }

    /** The four steps in a row, among any other actors and whichever statements fail. */
    method ProcessTenant(enabled: bool, today: Day, env: Env) returns (c: Counters)
      modifies this
      ensures !enabled ==> db == old(db) && c == Counters(0, 0, 0, 0, 0)
      ensures enabled ==> (db, c) == RunTenant(old(db), today, env, old(clock))
    {
      hide RunStep;
      if !enabled {
        return Counters(0, 0, 0, 0, 0);
      }
      var invoiced, e0 := Age(Invoice, today, env);
      var due, e1 := Age(FallDue, today, env);
      var overdue, e2 := Age(FallOverdue, today, env);
      var completed, e4 := ClosePlans(today, env);
      c := Counters(invoiced, due, overdue, completed, e0 + e1 + e2 + e4);
    }
  }

  // ---- What a step commits, and what it counts ----

  ghost predicate Distinct(ids: seq<Id>) {
    forall j, k :: 0 <= j < k < |ids| ==> ids[j] != ids[k]
  }

  lemma {:induction false} FilterFacts(scanned: seq<Id>, ready: set<Id>)
    requires Distinct(scanned)
    ensures Members(Filter(scanned, ready)) == Members(scanned) * ready && Distinct(Filter(scanned, ready))
  {
    if scanned != [] {
      var n := |scanned| - 1;
      FilterFacts(scanned[..n], ready);
      MembersSnoc(scanned, n);
      assert scanned[..n + 1] == scanned;
      var front := Filter(scanned[..n], ready);
      forall k | 0 <= k < |front| ensures front[k] != scanned[n] {
        assert front[k] in Members(front);
      }
      if scanned[n] in ready {
        assert Members(front + [scanned[n]]) == Members(front) + {scanned[n]};
      }
    }
  }

  /** The rows a step would change if nothing came in between and no scan met its limit. */
  function Ready(work: Work, db: Ledger, today: Day): set<Id> {
    match work case Ages(step) => Eligible(db, step, today) case Closes => Completable(db)
  }

  predicate InCap(work: Work, db: Ledger, today: Day) {
    match work
    case Ages(step) => |Eligible(db, step, today)| <= SCAN_CAP
    case Closes => |ActivePlans(db)| <= SCAN_CAP
  }

  lemma TargetsAreReady(work: Work, db: Ledger, today: Day)
    ensures var ids := Targets(work, db, today);
      && Distinct(ids)
      && (forall id :: id in ids ==> id in Ready(work, db, today) && Finds(work, db, id))
      && (InCap(work, db, today) ==> Members(ids) == Ready(work, db, today) && |ids| == |Ready(work, db, today)|)
  {
    hide Scan, DerivePlanStatus, PlanStatuses;
    var ids := Targets(work, db, today);
    if work.Closes? {
      FilterFacts(Scan(ActivePlans(db)), Completable(db));
      assert Completable(db) * ActivePlans(db) == Completable(db);
    }
    DistinctSize(ids);
    forall id | id in ids ensures id in Ready(work, db, today) && Finds(work, db, id) {
      assert id in Members(ids);
    }
  }

  /** The rows a transaction holds are as it found them, and each is held once. */
  ghost predicate Holding(work: Work, t: Tx) {
    && (t.aborted ==> t.own == [])
    && (forall k :: 0 <= k < |t.own| ==> Finds(work, t.db, t.own[k]))
    && Distinct(t.own)
  }

  lemma OthersKeepHold(work: Work, t: Tx, env: Env)
    requires Holding(work, t)
    ensures Holding(work, t.(db := Others(work, t, env)))
  {
    var mid := Others(work, t, env);
    forall k | 0 <= k < |t.own| ensures Finds(work, mid, t.own[k]) {
      assert mid == t.db || SameTarget(work, t.db, mid, t.own[k]);
    }
  }

  lemma WriteHolds(work: Work, t: Tx, env: Env, id: Id)
    requires Holding(work, t)
    ensures var (t', count) := Write(work, t, env, id);
      && Holding(work, t') && t'.clock == t.clock + 1
      && t'.aborted == count.Err? == (t.aborted || env.fails(t.clock))
      && t'.own == (if t'.aborted then [] else if count == Ok(1) then t.own + [id] else t.own)
  {
    hide Others, Finds;
    OthersKeepHold(work, t, env);
  }

  /** The first of n statements that fails, or n. */
  function FirstFailure(env: Env, clock: nat, n: nat): (k: nat)
    ensures k <= n
  {
    if n == 0 then 0
    else
      var k := FirstFailure(env, clock, n - 1);
      if k < n - 1 || env.fails(clock + n - 1) then k else n
  }

  ghost predicate NoneFails(env: Env, from: nat, to: nat) {
    forall c :: from <= c < to ==> !env.fails(c)
  }

  lemma {:induction false} FailureFacts(env: Env, clock: nat, n: nat)
    ensures var k := FirstFailure(env, clock, n);
      NoneFails(env, clock, clock + k) && (k < n ==> env.fails(clock + k))
  {
    if n > 0 {
      FailureFacts(env, clock, n - 1);
    }
  }

  /** The first failure ends it: nothing is counted as written after it, and every later write is an error. */
  lemma {:induction false} WritesFacts(work: Work, t: Tx, env: Env, ids: seq<Id>)
    requires t.own == [] && !t.aborted
    ensures var loop, k := Writes(work, t, env, ids), FirstFailure(env, t.clock, |ids|);
      && Holding(work, loop.tx) && loop.tx.clock == t.clock + |ids|
      && (loop.tx.aborted <==> k < |ids|) && loop.failed == |ids| - k
      && loop.taken == Writes(work, t, env, ids[..k]).taken
      && (!loop.tx.aborted ==> |loop.tx.own| == loop.taken)
      && (forall id :: id in loop.tx.own ==> id in ids)
  {
    hide Write, Holding;
    if ids == [] {
      HoldsNothing(work, t);
    } else {
      var n := |ids| - 1;
      WritesFacts(work, t, env, ids[..n]);
      var loop := Writes(work, t, env, ids[..n]);
      WriteHolds(work, loop.tx, env, ids[n]);
      var k := FirstFailure(env, t.clock, n);
      if k < n {
        assert ids[..n][..k] == ids[..k];
        AbortedHolds(work, loop.tx);
      } else {
        assert ids[..n][..n] == ids[..n] && ids[..n + 1] == ids;
      }
    }
  }

  lemma HoldsNothing(work: Work, t: Tx)
    requires t.own == []
    ensures Holding(work, t)
  {
  }

  lemma AbortedHolds(work: Work, t: Tx)
    requires Holding(work, t) && t.aborted
    ensures t.own == []
  {
  }

  /** The tables as the other actors alone have left them when the step ends. */
  function LeftByOthers(work: Work, db: Ledger, today: Day, env: Env, clock: nat): Ledger {
    var seen := env.others(clock, db);
    if env.fails(clock) then seen else Others(work, TxOf(work, db, today, env, clock), env)
  }

  /** The transaction of a step when it reaches its COMMIT. */
  function TxOf(work: Work, db: Ledger, today: Day, env: Env, clock: nat): Tx {
    var seen := env.others(clock, db);
    Writes(work, Tx(seen, clock + 1, [], false), env, Targets(work, seen, today)).tx
  }

  /** What the step had counted when its first statement failed, or at its end. */
  function TakenByFirstFailure(work: Work, db: Ledger, today: Day, env: Env, clock: nat): nat {
    var seen := env.others(clock, db);
    var ids := Targets(work, seen, today);
    if env.fails(clock) then 0
    else Writes(work, Tx(seen, clock + 1, [], false), env, ids[..FirstFailure(env, clock + 1, |ids|)]).taken
  }

  /** The rows of the step's table that differ. */
  function Changed(work: Work, a: Ledger, b: Ledger): set<Id> {
    match work
    case Ages(_) => set id | id in a.installments && !(id in b.installments && b.installments[id] == a.installments[id])
    case Closes => set p | p in a.plans && !(p in b.plans && b.plans[p] == a.plans[p])
  }

  lemma AppliedChanges(work: Work, db: Ledger, today: Day, ids: set<Id>)
    requires forall id :: id in ids ==> Finds(work, db, id)
    ensures Changed(work, db, Applied(work, db, today, ids)) == ids && Changed(work, db, db) == {}
  {
    if work.Closes? {
      forall id | id in ids ensures id in Changed(work, db, Applied(work, db, today, ids)) {
        assert Finds(work, db, id);
      }
    } else {
      forall id | id in ids ensures id in Changed(work, db, Applied(work, db, today, ids)) {
        assert Finds(work, db, id);
      }
    }
  }

  /**
   * A step is all or nothing. If every statement of it works, it commits each write that found its row on top of what the
   * others left; if any fails, at the scan, at a write or at the COMMIT, nothing of it remains, whatever it has counted.
   */
  lemma StepIsAtomic(work: Work, db: Ledger, today: Day, env: Env, clock: nat)
    ensures var end, rest := RunStep(work, db, today, env, clock), LeftByOthers(work, db, today, env, clock);
      var own := TxOf(work, db, today, env, clock).own;
      if NoneFails(env, clock, end.clock) then
        && end.db == Applied(work, rest, today, Members(own)) && end.taken == |own| && end.failed == 0
        && Holding(work, Tx(rest, end.clock - 1, own, false))
      else end.db == rest && end.failed > 0
  {
    hide Targets, Others, Applied, Holding, Writes, EndOf, NoneFails;
    var seen := env.others(clock, db);
    var ids := Targets(work, seen, today);
    EndIsAtomic(work, Tx(seen, clock + 1, [], false), ids, today, env);
    FailsFrom(env, clock, clock + |ids| + 2);
    FailsFrom(env, clock, clock + 1);
    NothingFails(env, clock + 1);
  }

  lemma FailsFrom(env: Env, from: nat, to: nat)
    requires from < to
    ensures NoneFails(env, from, to) <==> !env.fails(from) && NoneFails(env, from + 1, to)
  {
  }

  lemma NothingFails(env: Env, at: nat)
    ensures NoneFails(env, at, at)
  {
  }

  lemma EndIsAtomic(work: Work, t: Tx, ids: seq<Id>, today: Day, env: Env)
    requires t.own == [] && !t.aborted
    ensures var loop := Writes(work, t, env, ids);
      var end, rest := EndOf(work, loop, today, env), Others(work, loop.tx, env);
      && end.clock == t.clock + |ids| + 1
      && if NoneFails(env, t.clock, end.clock) then
           && end.db == Applied(work, rest, today, Members(loop.tx.own)) && end.taken == |loop.tx.own| && end.failed == 0
           && Holding(work, Tx(rest, end.clock - 1, loop.tx.own, false))
         else end.db == rest && end.failed > 0
  {
    hide Others, Applied, Holding, Writes;
    WritesFacts(work, t, env, ids);
    FailureFacts(env, t.clock, |ids|);
    var loop := Writes(work, t, env, ids);
    OthersKeepHold(work, loop.tx, env);
    SameHold(work, loop.tx.(db := Others(work, loop.tx, env)));
  }

  lemma SameHold(work: Work, t: Tx)
    requires Holding(work, t)
    ensures !t.aborted ==> forall clock: nat :: Holding(work, Tx(t.db, clock, t.own, false))
  {
  }

  /**
   * So the counters lie when a statement fails: a step's counter is what it had taken before its first failure, and is the
   * number of rows it changed if and only if no statement of the step failed or nothing had been taken before the first.
   */
  lemma CounterExact(work: Work, db: Ledger, today: Day, env: Env, clock: nat)
    ensures var end, rest := RunStep(work, db, today, env, clock), LeftByOthers(work, db, today, env, clock);
      var before := TakenByFirstFailure(work, db, today, env, clock);
      && end.taken == before
      && (|Changed(work, rest, end.db)| == end.taken <==> NoneFails(env, clock, end.clock) || before == 0)
  {
    hide Targets, Others, Applied, Changed;
    var seen := env.others(clock, db);
    WritesFacts(work, Tx(seen, clock + 1, [], false), env, Targets(work, seen, today));
    StepIsAtomic(work, db, today, env, clock);
    var rest, own := LeftByOthers(work, db, today, env, clock), TxOf(work, db, today, env, clock).own;
    AppliedChanges(work, rest, today, {});
    if NoneFails(env, clock, RunStep(work, db, today, env, clock).clock) {
      AppliedChanges(work, rest, today, Members(own));
      DistinctSize(own);
    }
  }

  /**
   * And the errors: one for a scan that fails; else one for every write from the first failure on, and one for a
   * COMMIT that throws.
   */
  lemma ErrorsExact(work: Work, db: Ledger, today: Day, env: Env, clock: nat)
    ensures var end, ids := RunStep(work, db, today, env, clock), Targets(work, env.others(clock, db), today);
      if env.fails(clock) then end.failed == 1 && end.clock == clock + 1
      else
        && end.clock == clock + |ids| + 2
        && end.failed == |ids| - FirstFailure(env, clock + 1, |ids|) + if env.fails(end.clock - 1) then 1 else 0
  {
    hide Targets, Others, Applied;
    var seen := env.others(clock, db);
    WritesFacts(work, Tx(seen, clock + 1, [], false), env, Targets(work, seen, today));
  }

  /** The errors of a run are those of its four steps together. */
  lemma RunErrors(db: Ledger, today: Day, env: Env, clock: nat)
    ensures var a := RunStep(Ages(Invoice), db, today, env, clock);
      var b := RunStep(Ages(FallDue), a.db, today, env, a.clock);
      var c := RunStep(Ages(FallOverdue), b.db, today, env, b.clock);
      var d := RunStep(Closes, c.db, today, env, c.clock);
      RunTenant(db, today, env, clock) ==
        (d.db, Counters(a.taken, b.taken, c.taken, d.taken, a.failed + b.failed + c.failed + d.failed))
  {
    hide RunStep;
  }

  /** The others act before every statement, unless they would touch a row that the step holds. */
  lemma OthersAct(work: Work, t: Tx, env: Env)
    ensures t.own == [] ==> Others(work, t, env) == env.others(t.clock, t.db)
    ensures var after := env.others(t.clock, t.db);
      (forall id :: id in t.own ==>
        if work.Closes? then id in t.db.plans && id in after.plans && after.plans[id] == t.db.plans[id]
        else id in t.db.installments && id in after.installments && after.installments[id] == t.db.installments[id])
      ==> Others(work, t, env) == after
    ensures Others(work, t, env) in {t.db, env.others(t.clock, t.db)}
  {
    var after := env.others(t.clock, t.db);
    assert forall k :: 0 <= k < |t.own| ==> t.own[k] in t.own;
  }

  // ---- An undisturbed run ----

  /** With no others and no failure, each write takes its row. */
  lemma {:induction false} QuietWrites(work: Work, db: Ledger, env: Env, clock: nat, ids: seq<Id>)
    requires (forall n: nat :: env.others(n, db) == db) && NoneFails(env, clock, clock + |ids|)
    requires Distinct(ids) && forall id :: id in ids ==> Finds(work, db, id)
    ensures Writes(work, Tx(db, clock, [], false), env, ids) == Loop(Tx(db, clock + |ids|, ids, false), |ids|, 0)
  {
    hide Finds;
    if ids != [] {
      var n := |ids| - 1;
      QuietWrites(work, db, env, clock, ids[..n]);
      assert ids[n] in ids && ids == ids[..n] + [ids[n]];
    }
  }

  /** Undisturbed and within the cap, a step is a set operation. */
  lemma QuietStep(work: Work, db: Ledger, today: Day, env: Env, clock: nat)
    requires env.Quiet() && InCap(work, db, today)
    ensures var n := |Ready(work, db, today)|;
      RunStep(work, db, today, env, clock) == StepEnd(Applied(work, db, today, Ready(work, db, today)), clock + n + 2, n, 0)
  {
    hide Ready, Targets, Applied, InCap, Finds;
    TargetsAreReady(work, db, today);
    QuietWrites(work, db, env, clock + 1, Targets(work, db, today));
  }

  /**
   * The comment on the steps says that one bad row does not lose the batch. It does: in any table, if only the write of the
   * j-th scanned row fails, the step changes nothing, reports the j rows before it as moved, and counts the rest as errors.
   */
  lemma OneBadRowLosesTheBatch(work: Work, db: Ledger, today: Day, env: Env, clock: nat, j: nat)
    requires InCap(work, db, today) && j < |Ready(work, db, today)|
    requires forall n: nat :: env.others(n, db) == db && (env.fails(n) <==> n == clock + 1 + j)
    ensures var n := |Ready(work, db, today)|;
      RunStep(work, db, today, env, clock) == StepEnd(db, clock + n + 2, j, n - j)
  {
    hide Ready, Targets, Applied, InCap, Finds, Writes, Holding;
    TargetsAreReady(work, db, today);
    var ids := Targets(work, db, today);
    OneBadWrite(work, db, env, clock + 1, ids, j);
  }

  lemma OneBadWrite(work: Work, db: Ledger, env: Env, clock: nat, ids: seq<Id>, j: nat)
    requires j < |ids| && Distinct(ids) && forall id :: id in ids ==> Finds(work, db, id)
    requires forall n: nat :: env.others(n, db) == db && (env.fails(n) <==> n == clock + j)
    ensures Writes(work, Tx(db, clock, [], false), env, ids) == Loop(Tx(db, clock + |ids|, [], true), j, |ids| - j)
  {
    hide Finds, Writes, Write, Holding;
    var t := Tx(db, clock, [], false);
    forall id | id in ids[..j] ensures Finds(work, db, id) {
      assert id in ids;
    }
    QuietWrites(work, db, env, clock, ids[..j]);
    WritesFacts(work, t, env, ids);
    FailureFacts(env, clock, |ids|);
    assert env.fails(clock + j);
    AbortedHolds(work, Writes(work, t, env, ids).tx);
    QuietDb(work, t, env, ids);
  }

  lemma {:induction false} QuietDb(work: Work, t: Tx, env: Env, ids: seq<Id>)
    requires forall n: nat :: env.others(n, t.db) == t.db
    ensures Writes(work, t, env, ids).tx.db == t.db
  {
    hide Finds;
    if ids != [] {
      QuietDb(work, t, env, ids[..|ids| - 1]);
    }
  }

  /** What an undisturbed pass counts: the rows each step finds, and the plans ready to close once they have aged. */
  function PassCounters(db: Ledger, today: Day): Counters {
    var a := AgeStep(db, Invoice, today);
    var b := AgeStep(a, FallDue, today);
    Counters(|Eligible(db, Invoice, today)|, |Eligible(a, FallDue, today)|, |Eligible(b, FallOverdue, today)|,
             |Completable(Aged(db, today))|, 0)
  }

  /** An undisturbed run within the cap is the function Pass, counts exactly what it did, and makes no error. */
  lemma QuietRunIsPass(db: Ledger, today: Day, env: Env, clock: nat)
    requires env.Quiet() && WithinCap(db, today)
    ensures RunTenant(db, today, env, clock).0 == Pass(db, today)
    ensures RunTenant(db, today, env, clock).1 == PassCounters(db, today)
  {
    hide RunStep, Eligible, Completable, ActivePlans, CloseAll, MoveAll, Env.Quiet;
    SameActivePlans(db, today);
    var a := RunStep(Ages(Invoice), db, today, env, clock);
    QuietStep(Ages(Invoice), db, today, env, clock);
    var b := RunStep(Ages(FallDue), a.db, today, env, a.clock);
    QuietStep(Ages(FallDue), a.db, today, env, a.clock);
    var c := RunStep(Ages(FallOverdue), b.db, today, env, b.clock);
    QuietStep(Ages(FallOverdue), b.db, today, env, b.clock);
    QuietStep(Closes, c.db, today, env, c.clock);
  }

  // ---- One pass in closed form ----

  function Rank(s: Status): nat
    requires s in {Scheduled, Invoiced, Due, Overdue}
  {
    match s case Scheduled => 0 case Invoiced => 1 case Due => 2 case Overdue => 3
  }

  function OfRank(n: nat): Status {
    if n == 0 then Scheduled else if n == 1 then Invoiced else if n == 2 then Due else Overdue
  }

  /** How far along the pipeline a due date belongs on a given day. */
  function Lateness(dueOn: Day, today: Day): nat {
    if dueOn < today - OVERDUE_GRACE_DAYS then 3
    else if dueOn <= today then 2
    else if dueOn <= today + INVOICE_LEAD_DAYS then 1
    else 0
  }

  /**
   * A live row in the pipeline moves up to its lateness, never down; a row not yet invoiced moves only under an ACTIVE
   * plan.
   */
  function AgedRow(row: Installment, planActive: bool, today: Day): Installment {
    if row.deleted || row.status !in {Scheduled, Invoiced, Due, Overdue} || (row.status == Scheduled && !planActive) then row
    else
      var rank, late := Rank(row.status), Lateness(row.dueOn, today);
      if late <= rank then row
      else row.(status := OfRank(late), version := row.version + late - rank)
  }

  lemma StepRow(db: Ledger, step: Step, today: Day, id: Id)
    requires id in db.installments
    ensures var post := AgeStep(db, step, today);
      && post.plans == db.plans && post.installments.Keys == db.installments.Keys
      && post.installments[id] ==
         if Matches(step, db.installments[id], db.plans, today) then Moved(db.installments[id], To(step)) else db.installments[id]
  {
  }

  /** The three scans in a row amount to the closed form, row by row. */
  lemma AgedClosedForm(db: Ledger, today: Day)
    ensures Aged(db, today).plans == db.plans && Aged(db, today).installments.Keys == db.installments.Keys
    ensures forall id :: id in db.installments ==>
      Aged(db, today).installments[id] == AgedRow(db.installments[id], PlanActive(db.plans, db.installments[id].plan), today)
  {
    hide AgeStep;
    var a := AgeStep(db, Invoice, today);
    var b := AgeStep(a, FallDue, today);
    forall id | id in db.installments
      ensures id in Aged(db, today).installments
      ensures Aged(db, today).installments[id] ==
          AgedRow(db.installments[id], PlanActive(db.plans, db.installments[id].plan), today)
    {
      StepRow(db, Invoice, today, id);
      StepRow(a, FallDue, today, id);
      StepRow(b, FallOverdue, today, id);
    }
    AgedKeys(db, today);
  }

  lemma AgedKeys(db: Ledger, today: Day)
    ensures Aged(db, today).plans == db.plans && Aged(db, today).installments.Keys == db.installments.Keys
  {
  }

  lemma SameActivePlans(db: Ledger, today: Day)
    ensures ActivePlans(Aged(db, today)) == ActivePlans(db)
  {
    hide Aged;
    AgedKeys(db, today);
  }

  /** Aging never settles a row and never unsettles one, so it does not change which plans are complete. */
  lemma AgingKeepsCompletable(db: Ledger, today: Day)
    ensures Completable(Aged(db, today)) == Completable(db)
  {
    hide Aged, DerivePlanStatus, PlanStatuses;
    var aged := Aged(db, today);
    AgedClosedForm(db, today);
    forall p ensures DerivePlanStatus(PlanStatuses(aged, p)) == Completed <==> DerivePlanStatus(PlanStatuses(db, p)) == Completed {
      StatusesSettle(db, aged, p);
    }
  }

  /** One undisturbed pass, row by row and plan by plan. */
  lemma PassClosedForm(db: Ledger, today: Day)
    ensures var done := Pass(db, today);
      && done.installments.Keys == db.installments.Keys && done.plans.Keys == db.plans.Keys
      && (forall id :: id in db.installments ==>
           done.installments[id] == AgedRow(db.installments[id], PlanActive(db.plans, db.installments[id].plan), today))
      && (forall p :: p in db.plans ==>
           done.plans[p] == if p in Completable(db) then Closed(db.plans[p], today) else db.plans[p])
  {
    hide Aged, Completable;
    AgedClosedForm(db, today);
    AgingKeepsCompletable(db, today);
  }

  lemma StatusesSettle(db: Ledger, aged: Ledger, p: Id)
    requires aged.installments.Keys == db.installments.Keys
    requires forall id :: id in db.installments ==>
      var a, b := db.installments[id], aged.installments[id];
      && a.plan == b.plan && a.deleted == b.deleted
      && (Settled(a.status) <==> Settled(b.status)) && (a.status == Suspended <==> b.status == Suspended)
    ensures DerivePlanStatus(PlanStatuses(aged, p)) == Completed <==> DerivePlanStatus(PlanStatuses(db, p)) == Completed
  {
    var a, b := PlanStatuses(db, p), PlanStatuses(aged, p);
    forall id | id in db.installments && db.installments[id].plan == p && !db.installments[id].deleted
      ensures db.installments[id].status in a && aged.installments[id].status in b
    {
    }
  }

  /** A plan that is ready to close has no row left in the pipeline. */
  lemma CompletableHasNoOpenRow(db: Ledger, p: Id, id: Id)
    requires p in Completable(db) && id in db.installments && db.installments[id].plan == p && !db.installments[id].deleted
    ensures Settled(db.installments[id].status)
  {
    assert db.installments[id].status in PlanStatuses(db, p);
  }

  lemma PassLeavesNoCompletable(db: Ledger, today: Day)
    ensures Completable(Pass(db, today)) == {}
  {
    hide Aged, DerivePlanStatus;
    AgingKeepsCompletable(db, today);
    var aged, done := Aged(db, today), Pass(db, today);
    forall p ensures PlanStatuses(done, p) == PlanStatuses(aged, p) {
      assert done.installments == aged.installments;
    }
  }

  /**
   * Missed nights catch up: a pass on d1 and then one on d2 leaves the same installments, to the version, and the same
   * plan statuses as d2 alone.
   */
  lemma CatchUp(db: Ledger, d1: Day, d2: Day)
    requires d1 <= d2
    ensures Pass(Pass(db, d1), d2).installments == Pass(db, d2).installments
    ensures Pass(Pass(db, d1), d2).plans.Keys == Pass(db, d2).plans.Keys
    ensures forall p :: p in db.plans ==> Pass(Pass(db, d1), d2).plans[p].status == Pass(db, d2).plans[p].status
  {
    hide Pass, Completable, AgedRow;
    var mid := Pass(db, d1);
    PassClosedForm(db, d1);
    PassClosedForm(db, d2);
    PassClosedForm(mid, d2);
    PassLeavesNoCompletable(db, d1);
    forall id | id in db.installments
      ensures Pass(mid, d2).installments[id] == Pass(db, d2).installments[id]
    {
      var row := db.installments[id];
      if row.plan in Completable(db) && !row.deleted {
        CompletableHasNoOpenRow(db, row.plan, id);
      }
      AgedTwice(row, PlanActive(db.plans, row.plan), PlanActive(mid.plans, row.plan), d1, d2);
    }
  }

  lemma AgedTwice(row: Installment, active1: bool, active2: bool, d1: Day, d2: Day)
    requires d1 <= d2
    requires active1 == active2 || row.deleted || Settled(row.status)
    ensures AgedRow(AgedRow(row, active1, d1), active2, d2) == AgedRow(row, active1, d2)
    ensures AgedRow(row, active1, d1).plan == row.plan
  {
  }

  /** A second pass on the same day changes nothing at all. */
  lemma SameDayNoOp(db: Ledger, today: Day)
    ensures Pass(Pass(db, today), today) == Pass(db, today)
  {
    hide Pass, Completable;
    var once := Pass(db, today);
    CatchUp(db, today, today);
    PassLeavesNoCompletable(db, today);
    PassClosedForm(once, today);
    assert Pass(once, today).plans == once.plans;
  }

  // ---- Interleavings ----

  /** Between two moments of a history, no other actor touches this installment. */
  ghost predicate RowLeftAlone(db: Ledger, events: seq<Event>, m: nat, n: nat, id: Id)
    requires m <= n <= |events|
  {
    forall k :: m <= k < n && events[k].Elsewhere? ==> SameRow(Play(db, events[..k]), events[k].after, id)
  }

  /** What the cron alone can do to a row: carry it forward along the pipeline, and nothing else. */
  ghost predicate Carried(a: Installment, b: Installment) {
    if a.status in {Scheduled, Invoiced, Due} then
      && b.status in {Scheduled, Invoiced, Due, Overdue} && Rank(a.status) <= Rank(b.status)
      && b == a.(status := b.status, version := a.version + Rank(b.status) - Rank(a.status))
    else b == a
  }

  lemma StepCarries(db: Ledger, e: Event, id: Id)
    requires id in db.installments && (e.Elsewhere? ==> SameRow(db, e.after, id))
    ensures id in Next(db, e).installments && Carried(db.installments[id], Next(db, e).installments[id])
  {
  }

  /**
   * Over any history and between any two moments at which only the cron touched an installment: if it was settled, waived,
   * cancelled, refunded, suspended, part-paid or overdue at the first, it is the same row at the second, to the version;
   * otherwise its status has only moved forward, one version per edge. No scan, however stale, gets in the way.
   */
  lemma {:induction false} HistoriesArePaths(db: Ledger, events: seq<Event>, m: nat, n: nat, id: Id)
    requires m <= n <= |events| && id in Play(db, events[..m]).installments && RowLeftAlone(db, events, m, n, id)
    ensures id in Play(db, events[..n]).installments
    ensures Carried(Play(db, events[..m]).installments[id], Play(db, events[..n]).installments[id])
    decreases n
  {
    hide Next, SameRow;
    if m < n {
      HistoriesArePaths(db, events, m, n - 1, id);
      assert events[..n][..n - 1] == events[..n - 1];
      StepCarries(Play(db, events[..n - 1]), events[n - 1], id);
    }
  }

  ghost predicate PlanLeftAlone(db: Ledger, events: seq<Event>, m: nat, n: nat, p: Id)
    requires m <= n <= |events|
  {
    forall k :: m <= k < n && events[k].Elsewhere? ==> SamePlan(Play(db, events[..k]), events[k].after, p)
  }

  /** The first closing of the plan in this stretch of the history, if any. */
  function FirstClosing(events: seq<Event>, m: nat, n: nat, p: Id): Option<Day>
    requires m <= n <= |events|
    decreases n
  {
    if m == n then None
    else
      var earlier := FirstClosing(events, m, n - 1, p);
      if earlier.Some? then earlier
      else if events[n - 1].Closing? && events[n - 1].plan == p then Some(events[n - 1].today) else None
  }

  /**
   * Completion fires only from ACTIVE and only once: between two moments at which only the cron touched a plan, one that
   * was not ACTIVE is unchanged, and an ACTIVE one is closed exactly if a closing came, with the date of the first.
   */
  lemma {:induction false} PlansCloseOnce(db: Ledger, events: seq<Event>, m: nat, n: nat, p: Id)
    requires m <= n <= |events| && p in Play(db, events[..m]).plans && PlanLeftAlone(db, events, m, n, p)
    ensures p in Play(db, events[..n]).plans
    ensures var a, b, closing := Play(db, events[..m]).plans[p], Play(db, events[..n]).plans[p], FirstClosing(events, m, n, p);
      b == if a.status == Active && closing.Some? then Closed(a, closing.value) else a
    decreases n
  {
    if m < n {
      PlansCloseOnce(db, events, m, n - 1, p);
      assert events[..n][..n - 1] == events[..n - 1];
      var before := Play(db, events[..n - 1]);
      assert events[n - 1].Elsewhere? ==> SamePlan(before, events[n - 1].after, p);
    }
  }

  // ---- Histories and the state machines ----

  /** The others go through the state machines: each of their transactions moves each row along an edge, or not at all. */
  ghost predicate Lawful(db: Ledger, events: seq<Event>) {
    && (forall k, id :: 0 <= k < |events| && events[k].Elsewhere? ==> LawfulFor(Play(db, events[..k]), events[k].after, id))
    && (forall k, p :: 0 <= k < |events| && events[k].Elsewhere? ==> LawfulPlan(Play(db, events[..k]), events[k].after, p))
  }

  ghost predicate LawfulFor(before: Ledger, after: Ledger, id: Id) {
    id in before.installments ==>
      id in after.installments && Edge(before.installments[id].status, after.installments[id].status, true)
  }

  ghost predicate LawfulPlan(before: Ledger, after: Ledger, p: Id) {
    p in before.plans ==> p in after.plans && PlanEdge(before.plans[p].status, after.plans[p].status, true)
  }

  predicate Edge(a: Status, b: Status, reason: bool) {
    MayTake(a == b, InstallmentRule(a, b), reason)
  }

  predicate PlanEdge(a: PlanStatus, b: PlanStatus, reason: bool) {
    MayTake(a == b, PlanRule(a, b), reason)
  }

  /** The cron's own writes take edges that need no reason. */
  lemma CronTakesEdges(db: Ledger, e: Event, id: Id, p: Id)
    requires !e.Elsewhere?
    ensures id in db.installments ==>
      id in Next(db, e).installments && Edge(db.installments[id].status, Next(db, e).installments[id].status, false)
    ensures p in db.plans ==> p in Next(db, e).plans && PlanEdge(db.plans[p].status, Next(db, e).plans[p].status, false)
  {
  }

  /** Statuses connected by edges of the installment machine. */
  ghost predicate Path(path: seq<Status>, a: Status, b: Status) {
    path != [] && path[0] == a && path[|path| - 1] == b
    && forall i :: 0 <= i < |path| - 1 ==> Edge(path[i], path[i + 1], true)
  }

  ghost predicate Connected(a: Status, b: Status) {
    exists path :: Path(path, a, b)
  }

  lemma Connect(a: Status, b: Status, c: Status)
    requires Connected(a, b) && Edge(b, c, true)
    ensures Connected(a, c)
  {
    var path :| Path(path, a, b);
    assert Path(path + [c], a, c);
  }

  lemma ConnectsItself(a: Status)
    ensures Connected(a, a)
  {
    assert Path([a], a, a);
  }

  /** What the machine allows in the long run: from anywhere but CANCELLED and REFUNDED to anywhere but SCHEDULED. */
  predicate Reachable(a: Status, b: Status) {
    a == b || (a !in {Cancelled, Refunded} && b != Scheduled)
  }

  lemma {:induction false} PathReaches(path: seq<Status>, a: Status, b: Status)
    requires Path(path, a, b)
    ensures Reachable(a, b)
    decreases |path|
  {
    if |path| > 1 {
      var n := |path| - 1;
      assert Path(path[..n], a, path[n - 1]);
      PathReaches(path[..n], a, path[n - 1]);
      assert Edge(path[n - 1], path[n], true);
    }
  }

  lemma ToInvoiced(a: Status)
    requires a !in {Cancelled, Refunded}
    ensures Connected(a, Invoiced)
  {
    ConnectsItself(a);
    if a in {Due, Overdue} {
      Connect(a, a, PartlyPaid);
      Connect(a, PartlyPaid, Invoiced);
    } else {
      Connect(a, a, Invoiced);
    }
  }

  /** Exactly: two statuses are connected by edges of the machine if and only if this says so. */
  lemma MachineReachExact(a: Status, b: Status)
    ensures Connected(a, b) <==> Reachable(a, b)
  {
    if path :| Path(path, a, b) {
      PathReaches(path, a, b);
    }
    if a == b {
      ConnectsItself(a);
    } else if Reachable(a, b) {
      ToInvoiced(a);
      if b == Overdue {
        Connect(a, Invoiced, Due);
        Connect(a, Due, Overdue);
      } else if b == Refunded {
        Connect(a, Invoiced, PartlyPaid);
        Connect(a, PartlyPaid, Refunded);
      } else {
        Connect(a, Invoiced, b);
      }
    }
  }

  /**
   * Over every history in which the others obey the machines, whatever the cron does from scans of any age: between any
   * two moments an installment's status moves only as the machine allows. In particular CANCELLED and REFUNDED are for
   * ever, and nothing becomes SCHEDULED again.
   */
  lemma {:induction false} TerminalIsForEver(db: Ledger, events: seq<Event>, m: nat, n: nat, id: Id)
    requires m <= n <= |events| && Lawful(db, events) && id in Play(db, events[..m]).installments
    ensures id in Play(db, events[..n]).installments
    ensures Reachable(Play(db, events[..m]).installments[id].status, Play(db, events[..n]).installments[id].status)
    decreases n
  {
    hide Next, Lawful;
    if m < n {
      TerminalIsForEver(db, events, m, n - 1, id);
      assert events[..n][..n - 1] == events[..n - 1];
      EveryStepIsAnEdge(db, events, n - 1, id, 0);
      ReachOneMore(Play(db, events[..m]).installments[id].status, Play(db, events[..n - 1]).installments[id].status,
                   Play(db, events[..n]).installments[id].status);
    }
  }

  lemma ReachOneMore(a: Status, b: Status, c: Status)
    requires Reachable(a, b) && Edge(b, c, true)
    ensures Reachable(a, c)
  {
  }

  /** Every event of a lawful history moves every installment and every plan along an edge of its machine. */
  lemma EveryStepIsAnEdge(db: Ledger, events: seq<Event>, k: nat, id: Id, p: Id)
    requires Lawful(db, events) && k < |events|
    ensures var before, after := Play(db, events[..k]), Play(db, events[..k + 1]);
      && (id in before.installments ==>
            id in after.installments && Edge(before.installments[id].status, after.installments[id].status, true))
      && (p in before.plans ==> p in after.plans && PlanEdge(before.plans[p].status, after.plans[p].status, true))
  {
    hide Edge, PlanEdge;
    var before := Play(db, events[..k]);
    assert events[..k + 1][..k] == events[..k];
    if events[k].Elsewhere? {
      assert LawfulFor(before, events[k].after, id) && LawfulPlan(before, events[k].after, p);
    } else {
      CronTakesEdges(before, events[k], id, p);
      WithReason(before, Next(before, events[k]), id, p);
    }
  }

  /** An edge that needs no reason may be taken with one. */
  lemma WithReason(before: Ledger, after: Ledger, id: Id, p: Id)
    ensures id in before.installments && id in after.installments
      && Edge(before.installments[id].status, after.installments[id].status, false)
      ==> Edge(before.installments[id].status, after.installments[id].status, true)
    ensures p in before.plans && p in after.plans && PlanEdge(before.plans[p].status, after.plans[p].status, false)
      ==> PlanEdge(before.plans[p].status, after.plans[p].status, true)
  {
  }

  /** DRAFT, then ACTIVE or PAUSED, then COMPLETED or CANCELLED. */
  function Stage(s: PlanStatus): nat {
    match s case Draft => 0 case Active => 1 case Paused => 1 case Completed => 2 case PlanCancelled => 2
  }

  /** A plan never goes back a stage, and a completed or cancelled one stays so, whoever acts. */
  lemma {:induction false} PlansOnlyAdvance(db: Ledger, events: seq<Event>, m: nat, n: nat, p: Id)
    requires m <= n <= |events| && Lawful(db, events) && p in Play(db, events[..m]).plans
    ensures p in Play(db, events[..n]).plans
    ensures var a, b := Play(db, events[..m]).plans[p].status, Play(db, events[..n]).plans[p].status;
      && Stage(a) <= Stage(b) && (Stage(a) == 2 ==> b == a)
      && (b == a || a == Draft || (a in {Active, Paused} && b != Draft))
    decreases n
  {
    hide Next, Lawful, Play;
    if m < n {
      PlansOnlyAdvance(db, events, m, n - 1, p);
      EveryStepIsAnEdge(db, events, n - 1, 0, p);
      StageEdge(Play(db, events[..n - 1]).plans[p].status, Play(db, events[..n]).plans[p].status);
      StageExact(Play(db, events[..m]).plans[p].status, Play(db, events[..n]).plans[p].status);
    }
  }

  lemma StageExact(a: PlanStatus, b: PlanStatus)
    requires Stage(a) <= Stage(b) && (Stage(a) == 2 ==> b == a)
    ensures b == a || a == Draft || (a in {Active, Paused} && b != Draft)
  {
  }

  lemma StageEdge(a: PlanStatus, b: PlanStatus)
    requires PlanEdge(a, b, true)
    ensures Stage(a) <= Stage(b) && (Stage(a) == 2 ==> b == a)
  {
  }

  // ---- Plans completed on a stale scan ----

  /** A live installment of the plan that is not settled. */
  predicate OpenRow(db: Ledger, id: Id, p: Id) {
    LiveRow(db, id, p) && !Settled(db.installments[id].status)
  }

  predicate LiveRow(db: Ledger, id: Id, p: Id) {
    id in db.installments && db.installments[id].plan == p && !db.installments[id].deleted
  }

  ghost predicate HasRows(db: Ledger, p: Id) {
    exists id :: LiveRow(db, id, p)
  }

  predicate Dropped(db: Ledger, p: Id) {
    p in db.plans && db.plans[p].deleted
  }

  lemma CompletableExact(db: Ledger, p: Id)
    ensures p in Completable(db) <==>
      PlanActive(db.plans, p) && HasRows(db, p) && forall id :: LiveRow(db, id, p) ==> !OpenRow(db, id, p)
  {
    var statuses := PlanStatuses(db, p);
    assert forall id :: LiveRow(db, id, p) ==> db.installments[id].status in statuses;
    assert forall s :: s in statuses ==> exists id :: LiveRow(db, id, p) && db.installments[id].status == s;
  }

  /** From some other transaction in this stretch on, until its end, it holds that q. */
  ghost predicate TurnedBy(events: seq<Event>, m: nat, n: nat, q: nat -> bool)
    requires m <= n <= |events|
  {
    exists k :: m <= k < n && TurnsAt(events, k, n, q)
  }

  ghost predicate TurnsAt(events: seq<Event>, k: nat, n: nat, q: nat -> bool)
    requires k < n <= |events|
  {
    events[k].Elsewhere? && !q(k) && forall j :: k < j <= n ==> q(j)
  }

  /** What the cron itself never turns was turned by another transaction. */
  lemma {:induction false} LastTurn(events: seq<Event>, m: nat, n: nat, q: nat -> bool)
    requires m <= n <= |events| && !q(m)
    requires forall k :: m <= k < n && !events[k].Elsewhere? ==> q(k) == q(k + 1)
    ensures q(n) <==> TurnedBy(events, m, n, q)
    decreases n
  {
    if q(n) {
      LastTurn(events, m, n - 1, q);
      if q(n - 1) {
        var k :| m <= k < n - 1 && TurnsAt(events, k, n - 1, q);
        assert TurnsAt(events, k, n, q);
      } else {
        assert TurnsAt(events, n - 1, n, q);
      }
    }
  }

  function At(db: Ledger, events: seq<Event>, k: nat): Ledger {
    if k <= |events| then Play(db, events[..k]) else db
  }

  /**
   * Which of a plan's installments are open, whether it has any, and whether it is deleted: the cron turns none of
   * them.
   */
  lemma CronLeavesPlan(db: Ledger, e: Event, id: Id, p: Id)
    requires !e.Elsewhere?
    ensures LiveRow(Next(db, e), id, p) == LiveRow(db, id, p) && OpenRow(Next(db, e), id, p) == OpenRow(db, id, p)
    ensures Dropped(Next(db, e), p) == Dropped(db, p)
  {
  }

  lemma CronLeavesRows(db: Ledger, e: Event, p: Id)
    requires !e.Elsewhere?
    ensures HasRows(Next(db, e), p) == HasRows(db, p)
  {
    hide LiveRow, OpenRow, Dropped, Next;
    if HasRows(db, p) || HasRows(Next(db, e), p) {
      var id :| LiveRow(db, id, p) || LiveRow(Next(db, e), id, p);
      CronLeavesPlan(db, e, id, p);
    }
  }

  ghost predicate RowReopened(db: Ledger, events: seq<Event>, m: nat, n: nat, id: Id, p: Id)
    requires m <= n <= |events|
  {
    TurnedBy(events, m, n, (k: nat) => OpenRow(At(db, events, k), id, p))
  }

  /** Some installment of the plan was opened in this stretch, and not settled again. */
  ghost predicate Reopened(db: Ledger, events: seq<Event>, m: nat, n: nat, p: Id)
    requires m <= n <= |events|
  {
    exists id :: RowReopened(db, events, m, n, id, p)
  }

  /** The last installment of the plan went, and none came. */
  ghost predicate Emptied(db: Ledger, events: seq<Event>, m: nat, n: nat, p: Id)
    requires m <= n <= |events|
  {
    TurnedBy(events, m, n, (k: nat) => !HasRows(At(db, events, k), p))
  }

  /** The plan was deleted, and not restored. */
  ghost predicate Deleted(db: Ledger, events: seq<Event>, m: nat, n: nat, p: Id)
    requires m <= n <= |events|
  {
    TurnedBy(events, m, n, (k: nat) => Dropped(At(db, events, k), p))
  }

  lemma AtNext(db: Ledger, events: seq<Event>, k: nat)
    requires k < |events|
    ensures At(db, events, k + 1) == Next(At(db, events, k), events[k])
  {
    assert events[..k + 1][..k] == events[..k];
  }

  lemma OpenedExact(db: Ledger, events: seq<Event>, m: nat, n: nat, id: Id, p: Id)
    requires m <= n <= |events| && !OpenRow(At(db, events, m), id, p)
    ensures OpenRow(At(db, events, n), id, p) <==> RowReopened(db, events, m, n, id, p)
  {
    hide OpenRow, At, Next, TurnedBy;
    forall k | m <= k < n && !events[k].Elsewhere?
      ensures OpenRow(At(db, events, k), id, p) == OpenRow(At(db, events, k + 1), id, p)
    {
      AtNext(db, events, k);
      CronLeavesPlan(At(db, events, k), events[k], id, p);
    }
    LastTurn(events, m, n, (k: nat) => OpenRow(At(db, events, k), id, p));
  }

  lemma EmptiedExact(db: Ledger, events: seq<Event>, m: nat, n: nat, p: Id)
    requires m <= n <= |events| && HasRows(At(db, events, m), p)
    ensures !HasRows(At(db, events, n), p) <==> Emptied(db, events, m, n, p)
  {
    hide HasRows, At, Next, TurnedBy;
    forall k | m <= k < n && !events[k].Elsewhere? ensures HasRows(At(db, events, k), p) == HasRows(At(db, events, k + 1), p) {
      AtNext(db, events, k);
      CronLeavesRows(At(db, events, k), events[k], p);
    }
    LastTurn(events, m, n, (k: nat) => !HasRows(At(db, events, k), p));
  }

  lemma DeletedExact(db: Ledger, events: seq<Event>, m: nat, n: nat, p: Id)
    requires m <= n <= |events| && !Dropped(At(db, events, m), p)
    ensures Dropped(At(db, events, n), p) <==> Deleted(db, events, m, n, p)
  {
    hide Dropped, At, Next, TurnedBy;
    forall k | m <= k < n && !events[k].Elsewhere? ensures Dropped(At(db, events, k), p) == Dropped(At(db, events, k + 1), p) {
      AtNext(db, events, k);
      CronLeavesPlan(At(db, events, k), events[k], 0, p);
    }
    LastTurn(events, m, n, (k: nat) => Dropped(At(db, events, k), p));
  }

  /**
   * The write that completes a plan checks only that it is still ACTIVE. So a plan that was ready at the scan (moment m) and
   * is completed at moment n is not ready then if and only if some other transaction in between reopened or added one of
   * its installments, or took the last of them away, or deleted the plan, and it was not undone.
   */
  lemma StaleClosingExact(db: Ledger, events: seq<Event>, m: nat, n: nat, p: Id, today: Day)
    requires m <= n <= |events| && p in Completable(At(db, events, m)) && Takes(At(db, events, n), Closing(p, today))
    ensures p !in Completable(At(db, events, n)) <==>
      Reopened(db, events, m, n, p) || Emptied(db, events, m, n, p) || Deleted(db, events, m, n, p)
  {
    hide At, Completable, HasRows, OpenRow, RowReopened, Emptied, Deleted;
    var scan, now := At(db, events, m), At(db, events, n);
    CompletableExact(scan, p);
    CompletableExact(now, p);
    NotOpenAtScan(scan, p);
    forall id ensures OpenRow(now, id, p) <==> RowReopened(db, events, m, n, id, p) {
      OpenedExact(db, events, m, n, id, p);
    }
    EmptiedExact(db, events, m, n, p);
    DeletedExact(db, events, m, n, p);
    OpenIsLive(now, p);
  }

  lemma NotOpenAtScan(db: Ledger, p: Id)
    requires p in Completable(db)
    ensures !Dropped(db, p) && forall id :: !OpenRow(db, id, p)
  {
    CompletableExact(db, p);
  }

  lemma OpenIsLive(db: Ledger, p: Id)
    ensures forall id :: OpenRow(db, id, p) ==> LiveRow(db, id, p)
  {
  }

  /** And so it goes whenever a settled installment of a ready plan is reopened before the write. */
  lemma ReopenedPlanCloses(db: Ledger, p: Id, id: Id, today: Day)
    requires p in Completable(db) && LiveRow(db, id, p)
    ensures var reopened := db.(installments := db.installments[id := Moved(db.installments[id], Invoiced)]);
      var after := Play(db, [Elsewhere(reopened), Closing(p, today)]);
      p in after.plans && after.plans[p].status == Completed && OpenRow(after, id, p)
  {
    var reopened := db.(installments := db.installments[id := Moved(db.installments[id], Invoiced)]);
    PlaySnoc(db, [Elsewhere(reopened)], Closing(p, today));
    PlaySnoc(db, [], Elsewhere(reopened));
    assert [] + [Elsewhere(reopened)] == [Elsewhere(reopened)];
  }

  // ---- The disturbed job is such a history ----

  /** What the others commit between the scan and the COMMIT. */
  function OthersHistory(work: Work, t: Tx, env: Env, ids: seq<Id>): seq<Event> {
    if ids == [] then []
    else
      var n := |ids| - 1;
      OthersHistory(work, t, env, ids[..n]) + [Elsewhere(Others(work, Writes(work, t, env, ids[..n]).tx, env))]
  }

  function WritesOf(work: Work, today: Day, ids: seq<Id>): seq<Event> {
    seq(|ids|, i requires 0 <= i < |ids| => WriteOf(work, today, ids[i]))
  }

  /** The committed history of a step: the others' transactions, and at its COMMIT its own writes, all or none. */
  function StepHistory(work: Work, db: Ledger, today: Day, env: Env, clock: nat): seq<Event> {
    var seen := env.others(clock, db);
    if env.fails(clock) then [Elsewhere(seen)]
    else
      var t, ids := Tx(seen, clock + 1, [], false), Targets(work, seen, today);
      var end := Writes(work, t, env, ids).tx;
      [Elsewhere(seen)] + OthersHistory(work, t, env, ids) + [Elsewhere(Others(work, end, env))]
      + if end.aborted || env.fails(end.clock) then [] else WritesOf(work, today, end.own)
  }

  lemma PlaySnoc(db: Ledger, events: seq<Event>, e: Event)
    ensures Play(db, events + [e]) == Next(Play(db, events), e)
  {
    assert (events + [e])[..|events|] == events;
  }

  lemma {:induction false} PlayConcat(db: Ledger, a: seq<Event>, b: seq<Event>)
    ensures Play(db, a + b) == Play(Play(db, a), b)
  {
    hide Next;
    if b == [] {
      assert a + b == a;
    } else {
      assert (a + b)[..|a + b| - 1] == a + b[..|b| - 1];
      PlayConcat(db, a, b[..|b| - 1]);
    }
  }

  lemma ApplyNone(work: Work, db: Ledger, today: Day)
    ensures Applied(work, db, today, {}) == db
  {
  }

  lemma ApplyOneMore(work: Work, db: Ledger, today: Day, done: set<Id>, id: Id)
    requires Finds(work, db, id) && id !in done
    ensures Next(Applied(work, db, today, done), WriteOf(work, today, id)) == Applied(work, db, today, done + {id})
  {
    var cur, next := Applied(work, db, today, done), Applied(work, db, today, done + {id});
    match work {
      case Ages(step) => assert cur.installments[id := Moved(cur.installments[id], To(step))] == next.installments;
      case Closes => assert cur.plans[id := Closed(cur.plans[id], today)] == next.plans;
    }
  }

  lemma {:induction false} WritesApply(work: Work, db: Ledger, today: Day, ids: seq<Id>)
    requires Distinct(ids) && forall k :: 0 <= k < |ids| ==> Finds(work, db, ids[k])
    ensures Play(db, WritesOf(work, today, ids)) == Applied(work, db, today, Members(ids))
  {
    hide Finds, Applied, Next;
    if ids == [] {
      ApplyNone(work, db, today);
      assert Members(ids) == {};
    } else {
      var n := |ids| - 1;
      WritesApply(work, db, today, ids[..n]);
      MembersSnoc(ids, n);
      assert ids[..n + 1] == ids;
      assert WritesOf(work, today, ids) == WritesOf(work, today, ids[..n]) + [WriteOf(work, today, ids[n])];
      PlaySnoc(db, WritesOf(work, today, ids[..n]), WriteOf(work, today, ids[n]));
      ApplyOneMore(work, db, today, Members(ids[..n]), ids[n]);
    }
  }

  lemma StepIsHistory(work: Work, db: Ledger, today: Day, env: Env, clock: nat)
    ensures RunStep(work, db, today, env, clock).db == Play(db, StepHistory(work, db, today, env, clock))
  {
    hide Targets, Writes, Others, Applied, OthersHistory, WritesOf, Holding;
    var seen := env.others(clock, db);
    if env.fails(clock) {
      PlaySnoc(db, [], Elsewhere(seen));
      assert [] + [Elsewhere(seen)] == [Elsewhere(seen)];
    } else {
      var t, ids := Tx(seen, clock + 1, [], false), Targets(work, seen, today);
      WritesFacts(work, t, env, ids);
      var end := Writes(work, t, env, ids).tx;
      OthersKeepHold(work, end, env);
      var mid := Others(work, end, env);
      var heard := [Elsewhere(seen)] + OthersHistory(work, t, env, ids);
      PlaySnoc(db, heard, Elsewhere(mid));
      assert Next(Play(db, heard), Elsewhere(mid)) == mid;
      if end.aborted || env.fails(end.clock) {
        assert heard + [Elsewhere(mid)] + [] == heard + [Elsewhere(mid)];
      } else {
        PlayConcat(db, heard + [Elsewhere(mid)], WritesOf(work, today, end.own));
        HeldApply(work, end.(db := mid), today);
      }
    }
  }

  lemma HeldApply(work: Work, t: Tx, today: Day)
    requires Holding(work, t)
    ensures Play(t.db, WritesOf(work, today, t.own)) == Applied(work, t.db, today, Members(t.own))
  {
    hide Applied, Play, WritesOf;
    WritesApply(work, t.db, today, t.own);
  }

  /** What the whole run of the job did to the committed tables, event by event. */
  function RunHistory(db: Ledger, today: Day, env: Env, clock: nat): seq<Event> {
    var a := RunStep(Ages(Invoice), db, today, env, clock);
    var b := RunStep(Ages(FallDue), a.db, today, env, a.clock);
    var c := RunStep(Ages(FallOverdue), b.db, today, env, b.clock);
    StepHistory(Ages(Invoice), db, today, env, clock) + StepHistory(Ages(FallDue), a.db, today, env, a.clock)
    + StepHistory(Ages(FallOverdue), b.db, today, env, b.clock) + StepHistory(Closes, c.db, today, env, c.clock)
  }

  lemma RunIsHistory(db: Ledger, today: Day, env: Env, clock: nat)
    ensures RunTenant(db, today, env, clock).0 == Play(db, RunHistory(db, today, env, clock))
  {
    hide RunStep, StepHistory, Play;
    var a := RunStep(Ages(Invoice), db, today, env, clock);
    var b := RunStep(Ages(FallDue), a.db, today, env, a.clock);
    var c := RunStep(Ages(FallOverdue), b.db, today, env, b.clock);
    var h0 := StepHistory(Ages(Invoice), db, today, env, clock);
    var h1 := StepHistory(Ages(FallDue), a.db, today, env, a.clock);
    var h2 := StepHistory(Ages(FallOverdue), b.db, today, env, b.clock);
    StepIsHistory(Ages(Invoice), db, today, env, clock);
    StepIsHistory(Ages(FallDue), a.db, today, env, a.clock);
    StepIsHistory(Ages(FallOverdue), b.db, today, env, b.clock);
    StepIsHistory(Closes, c.db, today, env, c.clock);
    PlayConcat(db, h0, h1);
    PlayConcat(db, h0 + h1, h2);
    PlayConcat(db, h0 + h1 + h2, StepHistory(Closes, c.db, today, env, c.clock));
  }

  /** Every plan the job completes was ready at the scan of its step. */
  lemma ClosingsWereReady(db: Ledger, today: Day, env: Env, clock: nat, e: Event)
    requires e in StepHistory(Closes, db, today, env, clock) && e.Closing?
    ensures e.plan in Completable(env.others(clock, db)) && e.today == today
  {
    hide Targets, Others, Completable, Holding, Writes;
    var seen := env.others(clock, db);
    var t, ids := Tx(seen, clock + 1, [], false), Targets(Closes, seen, today);
    OnlyElsewhere(Closes, t, env, ids);
    WritesFacts(Closes, t, env, ids);
    TargetsAreReady(Closes, seen, today);
    var own := Writes(Closes, t, env, ids).tx.own;
    assert e in WritesOf(Closes, today, own);
    var k :| 0 <= k < |own| && WritesOf(Closes, today, own)[k] == e;
    assert own[k] in own;
  }

  lemma {:induction false} OnlyElsewhere(work: Work, t: Tx, env: Env, ids: seq<Id>)
    ensures forall e :: e in OthersHistory(work, t, env, ids) ==> e.Elsewhere?
    ensures |OthersHistory(work, t, env, ids)| == |ids|
    ensures forall i :: 0 <= i < |ids| ==>
      OthersHistory(work, t, env, ids)[i] == Elsewhere(Others(work, Writes(work, t, env, ids[..i]).tx, env))
  {
    hide Writes;
    if ids != [] {
      var n := |ids| - 1;
      OnlyElsewhere(work, t, env, ids[..n]);
      assert forall i :: 0 <= i < n ==> ids[..n][..i] == ids[..i];
    }
  }

  /** The other actors leave this row alone during the run. */
  ghost predicate OthersLeaveRow(env: Env, id: Id) {
    forall n: nat, db: Ledger :: SameRow(db, env.others(n, db), id)
  }

  lemma {:induction false} WritesLeaveRow(work: Work, t: Tx, env: Env, ids: seq<Id>, id: Id)
    requires OthersLeaveRow(env, id) && id in t.db.installments
    ensures SameRow(t.db, Writes(work, t, env, ids).tx.db, id)
  {
    hide SpareOwn, Finds;
    if ids != [] {
      WritesLeaveRow(work, t, env, ids[..|ids| - 1], id);
    }
  }

  lemma StepCarriesRow(work: Work, db: Ledger, today: Day, env: Env, clock: nat, id: Id)
    requires OthersLeaveRow(env, id) && id in db.installments
    ensures var after := RunStep(work, db, today, env, clock).db;
      id in after.installments && Carried(db.installments[id], after.installments[id])
  {
    hide Targets, SpareOwn, Applied, Writes, Holding;
    var seen := env.others(clock, db);
    assert SameRow(db, seen, id);
    var t, ids := Tx(seen, clock + 1, [], false), Targets(work, seen, today);
    WritesLeaveRow(work, t, env, ids, id);
    WritesFacts(work, t, env, ids);
    var end := Writes(work, t, env, ids).tx;
    OthersKeepHold(work, end, env);
    assert SameRow(end.db, Others(work, end, env), id);
    HeldCarries(work, end.(db := Others(work, end, env)), today, id);
  }

  lemma HeldCarries(work: Work, t: Tx, today: Day, id: Id)
    requires Holding(work, t) && id in t.db.installments
    ensures var after := Applied(work, t.db, today, Members(t.own));
      id in after.installments && Carried(t.db.installments[id], after.installments[id])
  {
    if id in t.own {
      var k :| 0 <= k < |t.own| && t.own[k] == id;
      assert Finds(work, t.db, t.own[k]);
    }
  }

  /**
   * The whole job, disturbed in any way: a row the others leave alone is only carried forward, and a settled one comes out
   * exactly as it went in.
   */
  lemma RunCarriesRow(db: Ledger, today: Day, env: Env, clock: nat, id: Id)
    requires OthersLeaveRow(env, id) && id in db.installments
    ensures var after := RunTenant(db, today, env, clock).0;
      id in after.installments && Carried(db.installments[id], after.installments[id])
  {
    hide OthersLeaveRow, RunStep, Carried;
    var a := RunStep(Ages(Invoice), db, today, env, clock);
    var b := RunStep(Ages(FallDue), a.db, today, env, a.clock);
    var c := RunStep(Ages(FallOverdue), b.db, today, env, b.clock);
    var d := RunStep(Closes, c.db, today, env, c.clock);
    StepCarriesRow(Ages(Invoice), db, today, env, clock, id);
    StepCarriesRow(Ages(FallDue), a.db, today, env, a.clock, id);
    StepCarriesRow(Ages(FallOverdue), b.db, today, env, b.clock, id);
    StepCarriesRow(Closes, c.db, today, env, c.clock, id);
    CarriedOn(db.installments[id], a.db.installments[id], b.db.installments[id]);
    CarriedOn(db.installments[id], b.db.installments[id], c.db.installments[id]);
    CarriedOn(db.installments[id], c.db.installments[id], d.db.installments[id]);
  }

  lemma CarriedOn(a: Installment, b: Installment, c: Installment)
    requires Carried(a, b) && Carried(b, c)
    ensures Carried(a, c)
  {
  }
}
