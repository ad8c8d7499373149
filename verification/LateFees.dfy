/** Late fees (apps/backend/src/jobs/billingDaily.ts, step 3): the scan, and the fee transaction under the row lock. */
module LateFees {
  import opened Billing
  import opened Money
  import opened Ordering
  import opened Text
  import opened Wrappers

  datatype Kind = LateFee | OtherAdjustment

  datatype Adjustment = Adjustment(kind: Kind, amount: int, appliedOn: Day)

  /** One installment with its money, in minor units. */
  datatype Account = Account(status: Status, deleted: bool, gross: int, paid: int, net: int, balance: int,
                             adjustments: seq<Adjustment>, version: nat)

  // ---- The policy, from the JSON column of the fee plan ----

  /** JSON without arrays; Null also stands for an absent field. */
  datatype Json = Null | Bool(b: bool) | Number(n: real) | Text(s: string) | Object(fields: map<string, Json>)

  /** What BigInt makes of the amount; NotIntegral: it throws. */
  datatype Amount = Missing | NotIntegral | Minor(value: int)

  datatype Policy = Policy(enabled: bool, amount: Amount, maxPerInstallment: real)

  const DEFAULT_MAX_PER_INSTALLMENT := 3.0

  /** Property access: undefined on anything but an object that has the field. */
  function Field(j: Json, name: string): Json {
    if j.Object? && name in j.fields then j.fields[name] else Null
  }

  /** The `??` operator. */
  function OrElse(j: Json, fallback: Json): Json {
    if j == Null then fallback else j
  }

  predicate Truthy(j: Json) {
    match j
    case Null => false
    case Bool(b) => b
    case Number(n) => n != 0.0
    case Text(s) => s != ""
    case Object(_) => true
  }

  function ToBigInt(j: Json): Amount {
    match j
    case Null => Missing
    case Bool(b) => Minor(if b then 1 else 0)
    case Number(n) => if n.Floor as real == n then Minor(n.Floor) else NotIntegral
    case Text(s) =>
      var t := Trim(s);
      var signed := t != "" && t[0] in {'+', '-'};
      var digits := if signed then t[1..] else t;
      if !AllDigits(digits) || (signed && digits == "") then NotIntegral
      else
        var value: int := DigitsValue(digits);
        Minor(if signed && t[0] == '-' then -value else value)
    case Object(_) => NotIntegral
  }

  function ParsePolicy(raw: Json): Policy {
    if !raw.Object? then Policy(false, Missing, DEFAULT_MAX_PER_INSTALLMENT)
    else
      var p := OrElse(Field(raw, "late_fee_policy"), raw);
      var max := Field(p, "max_per_installment");
      Policy(Truthy(Field(p, "enabled")), ToBigInt(OrElse(Field(p, "amount_minor"), Field(p, "fee_minor"))),
             if max.Number? then max.n else DEFAULT_MAX_PER_INSTALLMENT)
  }

  /** The two documented shapes mean the same: the policy itself, or an object that nests it. */
  lemma NestedPolicyIsThePolicy(p: Json)
    requires p.Object? && Field(p, "late_fee_policy") == Null
    ensures ParsePolicy(Object(map["late_fee_policy" := p])) == ParsePolicy(p)
  {
  }

  /** Either spelling of the amount counts, and `amount_minor` wins. */
  lemma AmountAliases(p: Json, other: Json)
    requires p.Object? && Field(p, "late_fee_policy") == Null
    ensures Field(p, "amount_minor") == Null ==>
      ParsePolicy(p) == ParsePolicy(Object(p.fields["amount_minor" := Field(p, "fee_minor")]))
    ensures Field(p, "amount_minor") != Null ==> ParsePolicy(Object(p.fields["fee_minor" := other])) == ParsePolicy(p)
  {
    hide ToBigInt, Truthy;
    Spellings();
    OtherField(p, "amount_minor", Field(p, "fee_minor"));
    OtherField(p, "fee_minor", other);
  }

  /** The field's value, undefined counting as null. */
  function Get(fields: map<string, Json>, name: string): Json {
    if name in fields then fields[name] else Null
  }

  /** What a policy object says, field by field. */
  lemma PolicyExact(fields: map<string, Json>)
    requires Get(fields, "late_fee_policy") == Null
    ensures var policy, on, max := ParsePolicy(Object(fields)), Get(fields, "enabled"), Get(fields, "max_per_installment");
      && (policy.enabled <==> match on case Null => false case Bool(b) => b case Number(n) => n != 0.0
                                       case Text(s) => s != "" case Object(_) => true)
      && policy.amount == ToBigInt(if Get(fields, "amount_minor") != Null then Get(fields, "amount_minor") else Get(fields, "fee_minor"))
      && policy.maxPerInstallment == (if max.Number? then max.n else 3.0)
  {
    hide ToBigInt;
  }

  /** Nothing but an object is a policy. */
  lemma NoPolicy(raw: Json)
    requires !raw.Object?
    ensures !ParsePolicy(raw).enabled && ParsePolicy(raw).amount == Missing
  {
  }

  /** Which numbers and literals are amounts: the integral ones. */
  lemma NumbersExact(k: int, n: real, fields: map<string, Json>)
    ensures ToBigInt(Object(fields)) == NotIntegral
    ensures ToBigInt(Null) == Missing && ToBigInt(Bool(true)) == Minor(1) && ToBigInt(Bool(false)) == Minor(0)
    ensures ToBigInt(Number(k as real)) == Minor(k)
    ensures ToBigInt(Number(n)) == NotIntegral || exists i: int :: ToBigInt(Number(n)) == Minor(i) && n == i as real
  {
  }

  /**
   * Which texts are amounts: with white space around them ignored, digits after at most one sign. The empty text is zero,
   * and a sign alone is none.
   */
  lemma TextsExact(s: string)
    ensures ToBigInt(Text(s)) == ToBigInt(Text(Trim(s)))
    ensures ToBigInt(Text("")) == Minor(0) && ToBigInt(Text("+")) == NotIntegral && ToBigInt(Text("-")) == NotIntegral
  {
    TrimIdempotent(s);
    TrimFixed("");
    TrimFixed("+");
    TrimFixed("-");
  }

  lemma SignsExact(t: string)
    requires Trim(t) == t && t != "" && t[0] !in {'+', '-'}
    ensures ToBigInt(Text(t)) == if AllDigits(t) then Minor(DigitsValue(t)) else NotIntegral
    ensures ToBigInt(Text("+" + t)) == ToBigInt(Text(t))
    ensures ToBigInt(Text("-" + t)) == if AllDigits(t) then Minor(0 - DigitsValue(t)) else NotIntegral
  {
    hide Trim, AllDigits, DigitsValue;
    var front, back := TrimExact(t);
    TrimFixed("+" + t);
    TrimFixed("-" + t);
    assert ("+" + t)[1..] == t && ("-" + t)[1..] == t;
  }

  lemma OtherField(p: Json, name: string, value: Json)
    requires p.Object?
    ensures var q := Object(p.fields[name := value]);
      Field(q, name) == value && forall n :: n != name ==> Field(q, n) == Field(p, n)
  {
  }

  lemma Spellings()
    ensures |"amount_minor"| == 12 && |"fee_minor"| == 9 && |"late_fee_policy"| == 15 && |"enabled"| == 7
    ensures |"max_per_installment"| == 19
  {
  }

  function Sum(adjustments: seq<Adjustment>): int {
    if adjustments == [] then 0 else Sum(adjustments[..|adjustments| - 1]) + adjustments[|adjustments| - 1].amount
  }

  function CountLate(adjustments: seq<Adjustment>): nat {
    if adjustments == [] then 0
    else CountLate(adjustments[..|adjustments| - 1]) + if adjustments[|adjustments| - 1].kind == LateFee then 1 else 0
  }

  function CountLateOn(adjustments: seq<Adjustment>, day: Day): nat {
    if adjustments == [] then 0
    else
      var last := adjustments[|adjustments| - 1];
      CountLateOn(adjustments[..|adjustments| - 1], day) + if last.kind == LateFee && last.appliedOn == day then 1 else 0
  }

  function NonNegative(n: int): int {
    if n < 0 then 0 else n
  }

  /** The checks between the scan and the transaction, on the scanned snapshot. */
  predicate Charges(policy: Policy, a: Account, today: Day) {
    && a.status == Overdue && !a.deleted
    && policy.enabled && policy.amount.Minor? && policy.amount.value > 0
    && CountLateOn(a.adjustments, today) == 0
    && CountLate(a.adjustments) as real < policy.maxPerInstallment
  }

  /** The fee transaction: re-read under the lock, insert the fee, recompute net and balance. */
  method ChargeLocked(a: Account, amount: int, today: Day) returns (post: Account, applied: bool)
    ensures post == AfterCharge(a, amount, today)
    ensures applied <==> ChargeApplies(a, today)
  {
    if a.deleted || a.status != Overdue {
      return a, false;
    }
    // findFirst: is there a fee for today already?
    var i := 0;
    while i < |a.adjustments|
      invariant 0 <= i <= |a.adjustments| && CountLateOn(a.adjustments[..i], today) == 0
    {
      assert a.adjustments[..i + 1][..i] == a.adjustments[..i];
      if a.adjustments[i].kind == LateFee && a.adjustments[i].appliedOn == today {
        CountPrefix(a.adjustments, today, i + 1);
        return a, false;
      }
      i := i + 1;
    }
    assert a.adjustments[..i] == a.adjustments;
    var adjustments := a.adjustments + [Adjustment(LateFee, amount, today)];
    // aggregate
    var adjSum, k := 0, 0;
    while k < |adjustments|
      invariant 0 <= k <= |adjustments| && adjSum == Sum(adjustments[..k])
    {
      assert adjustments[..k + 1][..k] == adjustments[..k];
      adjSum := adjSum + adjustments[k].amount;
      k := k + 1;
    }
    assert adjustments[..k] == adjustments && adjustments[..|adjustments| - 1] == a.adjustments;
    var newNet := a.gross + adjSum;
    var newBalance := newNet - a.paid;
    post := a.(adjustments := adjustments, net := NonNegative(newNet), balance := NonNegative(newBalance), version := a.version + 1);
    applied := true;
  }

  lemma {:induction false} CountPrefix(adjustments: seq<Adjustment>, day: Day, i: nat)
    requires i <= |adjustments|
    ensures CountLateOn(adjustments[..i], day) <= CountLateOn(adjustments, day)
    decreases |adjustments| - i
  {
    if i == |adjustments| {
      assert adjustments[..i] == adjustments;
    } else {
      assert adjustments[..i + 1][..i] == adjustments[..i];
      CountPrefix(adjustments, day, i + 1);
    }
  }

  predicate ChargeApplies(a: Account, today: Day) {
    !a.deleted && a.status == Overdue && CountLateOn(a.adjustments, today) == 0
  }

  function AfterCharge(a: Account, amount: int, today: Day): Account {
    if !ChargeApplies(a, today) then a
    else a.(adjustments := a.adjustments + [Adjustment(LateFee, amount, today)],
            net := NonNegative(a.gross + Sum(a.adjustments) + amount),
            balance := NonNegative(a.gross + Sum(a.adjustments) + amount - a.paid),
            version := a.version + 1)
  }

  /** net and balance are what gross, adjustments and payments say. */
  predicate Consistent(a: Account) {
    && a.net == NonNegative(a.gross + Sum(a.adjustments))
    && a.balance == NonNegative(a.gross + Sum(a.adjustments) - a.paid)
  }

  /**
   * A charge leaves the account consistent whatever it was before, touches neither gross, paid nor status, and makes
   * the balance grow by exactly the fee if and only if the account was not overpaid.
   */
  lemma ChargeMoney(a: Account, amount: int, today: Day)
    requires ChargeApplies(a, today) && amount > 0
    ensures var post := AfterCharge(a, amount, today);
      && Consistent(post)
      && post.paid == a.paid && post.gross == a.gross && post.status == a.status && post.deleted == a.deleted
      && post.version == a.version + 1 && post.adjustments == a.adjustments + [Adjustment(LateFee, amount, today)]
      && (Consistent(a) ==> (post.balance == a.balance + amount <==> a.gross + Sum(a.adjustments) >= a.paid))
      && CountLate(post.adjustments) == CountLate(a.adjustments) + 1
      && CountLateOn(post.adjustments, today) == 1
  {
    var post := AfterCharge(a, amount, today);
    assert post.adjustments[..|post.adjustments| - 1] == a.adjustments;
  }

  /** With no other adjustment, a charge makes net and balance the gross plus the fee, never below zero. */
  lemma FirstAdjustment(a: Account, amount: int, today: Day)
    requires a.adjustments == [] && a.status == Overdue && !a.deleted
    ensures var post := AfterCharge(a, amount, today);
      && post.net == (if a.gross + amount < 0 then 0 else a.gross + amount)
      && post.balance == (if a.gross + amount - a.paid < 0 then 0 else a.gross + amount - a.paid)
      && post.adjustments == [Adjustment(LateFee, amount, today)]
  {
  }

  /** Chargeable under the lock: overdue, not deleted, and no late fee dated today; anything else is left as it is. */
  lemma {:induction false} ChargeAppliesExact(a: Account, amount: int, today: Day)
    ensures ChargeApplies(a, today) <==>
      a.status == Overdue && !a.deleted && forall i :: 0 <= i < |a.adjustments| ==> !DatedFee(a.adjustments[i], today)
    ensures !ChargeApplies(a, today) ==> AfterCharge(a, amount, today) == a
  {
    NoDatedFee(a.adjustments, today);
  }

  predicate DatedFee(x: Adjustment, day: Day) {
    x.kind == LateFee && x.appliedOn == day
  }

  lemma {:induction false} NoDatedFee(xs: seq<Adjustment>, day: Day)
    ensures CountLateOn(xs, day) == 0 <==> forall i :: 0 <= i < |xs| ==> !DatedFee(xs[i], day)
  {
    if xs != [] {
      var n := |xs| - 1;
      NoDatedFee(xs[..n], day);
      assert forall i :: 0 <= i < n ==> xs[..n][i] == xs[i];
    }
  }

  lemma {:induction false} SumWithout(xs: seq<Adjustment>, x: Adjustment, ys: seq<Adjustment>)
    ensures Sum(xs + [x] + ys) == Sum(xs + ys) + x.amount
  {
    if ys == [] {
      assert xs + [x] + ys == xs + [x] && xs + ys == xs && (xs + [x])[..|xs|] == xs;
    } else {
      var n := |ys| - 1;
      assert (xs + [x] + ys)[..|xs| + 1 + n] == xs + [x] + ys[..n] && (xs + ys)[..|xs| + n] == xs + ys[..n];
      SumWithout(xs, x, ys[..n]);
    }
  }

  lemma {:induction false} CountWithout(xs: seq<Adjustment>, x: Adjustment, ys: seq<Adjustment>, day: Day)
    ensures CountLateOn(xs + [x] + ys, day) == CountLateOn(xs + ys, day) + if x.kind == LateFee && x.appliedOn == day then 1 else 0
    ensures CountLate(xs + [x] + ys) == CountLate(xs + ys) + if x.kind == LateFee then 1 else 0
  {
    if ys == [] {
      assert xs + [x] + ys == xs + [x] && xs + ys == xs && (xs + [x])[..|xs|] == xs;
    } else {
      var n := |ys| - 1;
      assert (xs + [x] + ys)[..|xs| + 1 + n] == xs + [x] + ys[..n] && (xs + ys)[..|xs| + n] == xs + ys[..n];
      CountWithout(xs, x, ys[..n], day);
    }
  }

  /**
   * An adjustment of any kind, anywhere in the list, counts as so much gross: taking it out and adding its amount to the
   * gross leaves the net and the balance of every charge the same. With FirstAdjustment this fixes both for every list.
   */
  lemma AdjustmentIsGross(a: Account, xs: seq<Adjustment>, x: Adjustment, ys: seq<Adjustment>, amount: int, today: Day)
    requires a.adjustments == xs + [x] + ys && ChargeApplies(a, today)
    ensures var b := a.(gross := a.gross + x.amount, adjustments := xs + ys);
      && ChargeApplies(b, today)
      && AfterCharge(a, amount, today).net == AfterCharge(b, amount, today).net
      && AfterCharge(a, amount, today).balance == AfterCharge(b, amount, today).balance
  {
    hide Sum, CountLateOn;
    SumWithout(xs, x, ys);
    CountWithout(xs, x, ys, today);
  }

  /** The counters count the late fees, in all and of a day, and each separate adjustment once. */
  lemma CountsExact(xs: seq<Adjustment>, x: Adjustment, ys: seq<Adjustment>, day: Day)
    ensures CountLate([]) == 0 && CountLateOn([], day) == 0
    ensures CountLate(xs + [x] + ys) == CountLate(xs + ys) + if x.kind == LateFee then 1 else 0
    ensures CountLateOn(xs + [x] + ys, day) == CountLateOn(xs + ys, day) + if x.kind == LateFee && x.appliedOn == day then 1 else 0
  {
    CountWithout(xs, x, ys, day);
  }

  // ---- Overlapping runs ----

  /** What a run remembers from its scan. */
  datatype Snapshot = Snapshot(today: Day, policy: Policy, charges: bool)

  /** One account, and the runs that have scanned it. */
  datatype World = World(account: Account, runs: map<nat, Snapshot>)

  datatype Event =
    | ScanBy(run: nat, today: Day, policy: Policy)
    | CommitBy(run: nat)
    | Outside(account: Account)   // payments, waivers, cancellations, other adjustments

  function LateFeesOf(adjustments: seq<Adjustment>): seq<Adjustment> {
    if adjustments == [] then []
    else
      LateFeesOf(adjustments[..|adjustments| - 1]) +
      if adjustments[|adjustments| - 1].kind == LateFee then [adjustments[|adjustments| - 1]] else []
  }

  /** The commit that this event makes really adds a fee. */
  predicate AddsFee(w: World, e: Event) {
    && e.CommitBy? && e.run in w.runs && w.runs[e.run].charges && w.runs[e.run].policy.amount.Minor?
    && ChargeApplies(w.account, w.runs[e.run].today)
  }

  /** Only the cron adds LATE_FEE; the others may change anything else. */
  function Next(w: World, e: Event): World {
    match e
    case ScanBy(run, today, policy) => w.(runs := w.runs[run := Snapshot(today, policy, Charges(policy, w.account, today))])
    case CommitBy(run) =>
      if AddsFee(w, e) then w.(account := AfterCharge(w.account, w.runs[run].policy.amount.value, w.runs[run].today)) else w
    case Outside(account) =>
      if LateFeesOf(account.adjustments) == LateFeesOf(w.account.adjustments) then w.(account := account) else w
  }

  function Trace(start: Account, events: seq<Event>): World {
    if events == [] then World(start, map[]) else Next(Trace(start, events[..|events| - 1]), events[|events| - 1])
  }

  lemma {:induction false} CountsOfLateFees(adjustments: seq<Adjustment>, day: Day)
    ensures CountLate(adjustments) == |LateFeesOf(adjustments)|
    ensures CountLateOn(adjustments, day) == CountLateOn(LateFeesOf(adjustments), day)
  {
    if adjustments != [] {
      var front, last := adjustments[..|adjustments| - 1], adjustments[|adjustments| - 1];
      CountsOfLateFees(front, day);
      if last.kind == LateFee {
        assert (LateFeesOf(front) + [last])[..|LateFeesOf(front)|] == LateFeesOf(front);
      } else {
        assert LateFeesOf(front) + [] == LateFeesOf(front);
      }
    }
  }

  lemma SameLateFees(a: Account, b: Account, day: Day)
    requires LateFeesOf(a.adjustments) == LateFeesOf(b.adjustments)
    ensures CountLate(a.adjustments) == CountLate(b.adjustments)
    ensures CountLateOn(a.adjustments, day) == CountLateOn(b.adjustments, day)
  {
    CountsOfLateFees(a.adjustments, day);
    CountsOfLateFees(b.adjustments, day);
  }

  /** What one event does to the number of fees, in all and of one day. */
  lemma StepCounts(w: World, e: Event, day: Day)
    ensures var a, b := w.account.adjustments, Next(w, e).account.adjustments;
      && CountLate(b) == CountLate(a) + (if AddsFee(w, e) then 1 else 0)
      && CountLateOn(b, day) == CountLateOn(a, day) + (if AddsFee(w, e) && w.runs[e.run].today == day then 1 else 0)
  {
    hide CountLate, CountLateOn, Sum, LateFeesOf, Charges;
    match e
    case ScanBy(_, _, _) =>
    case CommitBy(run) =>
      if AddsFee(w, e) {
        ChargeCounts(w.account, w.runs[run].policy.amount.value, w.runs[run].today, day);
      }
    case Outside(account) =>
      if LateFeesOf(account.adjustments) == LateFeesOf(w.account.adjustments) {
        SameLateFees(w.account, account, day);
      }
  }

  lemma ChargeCounts(a: Account, amount: int, today: Day, day: Day)
    ensures var b := AfterCharge(a, amount, today);
      && CountLate(b.adjustments) == CountLate(a.adjustments) + (if ChargeApplies(a, today) then 1 else 0)
      && CountLateOn(b.adjustments, day) == CountLateOn(a.adjustments, day) + if ChargeApplies(a, today) && today == day then 1 else 0
  {
    var post := AfterCharge(a, amount, today).adjustments;
    if ChargeApplies(a, today) {
      assert post[..|post| - 1] == a.adjustments;
    }
  }

  ghost predicate OneFeeADay(a: Account) {
    forall day :: CountLateOn(a.adjustments, day) <= 1
  }

  /** However many runs overlap, on whatever days and under whatever policies, at most one late fee per day. */
  lemma {:induction false} AtMostOnePerDay(start: Account, events: seq<Event>)
    requires OneFeeADay(start)
    ensures OneFeeADay(Trace(start, events).account)
  {
    hide Next, CountLateOn;
    if events != [] {
      var front, last := events[..|events| - 1], events[|events| - 1];
      AtMostOnePerDay(start, front);
      forall day ensures CountLateOn(Trace(start, events).account.adjustments, day) <= 1 {
        StepCounts(Trace(start, front), last, day);
      }
    }
  }

  /** The largest number of fees the cap lets through: a fractional cap is met only by the next whole fee. */
  function Cap(policy: Policy): int {
    -((-policy.maxPerInstallment).Floor)
  }

  lemma CapExact(policy: Policy, n: nat)
    ensures n as real < policy.maxPerInstallment <==> n < Cap(policy)
  {
  }

  /** Where a run last scanned. This is read off the list of events alone. */
  function LastScan(events: seq<Event>, run: nat): (s: Option<nat>)
    ensures s.Some? ==> s.value < |events| && events[s.value].ScanBy? && events[s.value].run == run
  {
    if events == [] then None
    else
      var n := |events| - 1;
      if events[n].ScanBy? && events[n].run == run then Some(n) else LastScan(events[..n], run)
  }

  /** What a run remembers is what the account was at its last scan. */
  lemma {:induction false} RunsAreScans(start: Account, events: seq<Event>, run: nat)
    ensures var s, w := LastScan(events, run), Trace(start, events);
      && (run in w.runs <==> s.Some?)
      && (s.Some? ==>
            w.runs[run] == Snapshot(events[s.value].today, events[s.value].policy,
                                    Charges(events[s.value].policy, Trace(start, events[..s.value]).account, events[s.value].today)))
  {
    hide Charges, AddsFee;
    if events != [] {
      var n := |events| - 1;
      RunsAreScans(start, events[..n], run);
      var s := LastScan(events[..n], run);
      if s.Some? {
        assert events[..n][..s.value] == events[..s.value];
      }
    }
  }

  /** How many of the events from s up to n add a fee dated another day. */
  function OtherDayFees(start: Account, events: seq<Event>, s: nat, n: nat, day: Day): nat
    requires s <= n <= |events|
    decreases n
  {
    if s == n then 0
    else
      var w, e := Trace(start, events[..n - 1]), events[n - 1];
      OtherDayFees(start, events, s, n - 1, day) + if AddsFee(w, e) && w.runs[e.run].today != day then 1 else 0
  }

  lemma {:induction false} FeesBetween(start: Account, events: seq<Event>, s: nat, n: nat, day: Day)
    requires s <= n <= |events|
    ensures var a, b := Trace(start, events[..s]).account.adjustments, Trace(start, events[..n]).account.adjustments;
      && CountLateOn(a, day) <= CountLateOn(b, day)
      && CountLate(b) - CountLate(a) == OtherDayFees(start, events, s, n, day) + CountLateOn(b, day) - CountLateOn(a, day)
    decreases n
  {
    hide Next, CountLate, CountLateOn, AddsFee;
    if s < n {
      FeesBetween(start, events, s, n - 1, day);
      assert events[..n][..n - 1] == events[..n - 1];
      StepCounts(Trace(start, events[..n - 1]), events[n - 1], day);
    }
  }

  /** The commit at n adds a fee beyond the cap of the policy its run scanned. */
  predicate Exceeds(start: Account, events: seq<Event>, n: nat)
    requires n < |events|
  {
    var w := Trace(start, events[..n]);
    AddsFee(w, events[n]) && CountLate(Next(w, events[n]).account.adjustments) > Cap(w.runs[events[n].run].policy)
  }

  /**
   * Exactly when the cap is exceeded: the run decided to charge at its scan, the row is still chargeable and has no fee
   * dated its day, and since the scan at least as many fees of other days arrived as the cap then left room for.
   */
  lemma CommitExceedsExact(start: Account, events: seq<Event>, n: nat)
    requires n < |events| && events[n].CommitBy? && LastScan(events[..n], events[n].run).Some?
    ensures var s := LastScan(events[..n], events[n].run).value;
      var policy, day := events[s].policy, events[s].today;
      var then', now := Trace(start, events[..s]).account, Trace(start, events[..n]).account;
      Exceeds(start, events, n) <==>
        && Charges(policy, then', day) && ChargeApplies(now, day)
        && OtherDayFees(start, events, s, n, day) >= Cap(policy) - CountLate(then'.adjustments)
  {
    hide CountLate, Next, LastScan, Trace, Cap;
    var s := LastScan(events[..n], events[n].run).value;
    assert events[..n][..s] == events[..s] && events[..n][s] == events[s];
    RunsAreScans(start, events[..n], events[n].run);
    FeesBetween(start, events, s, n, events[s].today);
    StepCounts(Trace(start, events[..n]), events[n], events[s].today);
  }

  /**
   * No run has a commit by a run of another day between its scan and its commit: a condition on the list of events
   * alone.
   */
  predicate WindowsOneDay(events: seq<Event>) {
    forall n, k :: 0 <= k < n < |events| && events[n].CommitBy? && events[k].CommitBy? ==> SameDayWindow(events, n, k)
  }

  predicate SameDayWindow(events: seq<Event>, n: nat, k: nat)
    requires k < n < |events| && events[n].CommitBy? && events[k].CommitBy?
  {
    var mine, other := LastScan(events[..n], events[n].run), LastScan(events[..k], events[k].run);
    mine.Some? && other.Some? && mine.value < k ==> events[other.value].today == events[mine.value].today
  }

  /** It holds whenever all runs are of one day. */
  lemma OneDayIsEnough(events: seq<Event>, day: Day)
    requires forall k :: 0 <= k < |events| && events[k].ScanBy? ==> events[k].today == day
    ensures WindowsOneDay(events)
  {
    hide LastScan;
    forall n, k | 0 <= k < n < |events| && events[n].CommitBy? && events[k].CommitBy? ensures SameDayWindow(events, n, k) {
      var mine, other := LastScan(events[..n], events[n].run), LastScan(events[..k], events[k].run);
      assert mine.Some? ==> events[..n][mine.value] == events[mine.value];
      assert other.Some? ==> events[..k][other.value] == events[other.value];
    }
  }

  /** The others may do anything to an account but add or take late fees. */
  lemma OthersAreFree(w: World, account: Account)
    requires LateFeesOf(account.adjustments) == LateFeesOf(w.account.adjustments)
    ensures Next(w, Outside(account)) == w.(account := account)
  {
  }

  lemma {:induction false} OneDayWindow(start: Account, events: seq<Event>, s: nat, m: nat, n: nat)
    requires s < m <= n < |events| && WindowsOneDay(events) && events[n].CommitBy?
    requires LastScan(events[..n], events[n].run) == Some(s)
    ensures OtherDayFees(start, events, s, m, events[s].today) == 0
    decreases m
  {
    hide Trace, LastScan, WindowsOneDay;
    var k := m - 1;
    if k == s {
      assert !AddsFee(Trace(start, events[..k]), events[k]);
    } else {
      OneDayWindow(start, events, s, k, n);
      if events[k].CommitBy? {
        OneWindow(events, n, k);
        RunsAreScans(start, events[..k], events[k].run);
      }
    }
  }

  lemma OneWindow(events: seq<Event>, n: nat, k: nat)
    requires k < n < |events| && WindowsOneDay(events) && events[n].CommitBy? && events[k].CommitBy?
    ensures SameDayWindow(events, n, k)
  {
  }

  /** Runs that overlap only within one day never exceed the cap: whoever else acts, and however the runs interleave. */
  lemma {:induction false} CapHolds(start: Account, events: seq<Event>, n: nat)
    requires n < |events| && WindowsOneDay(events)
    ensures !Exceeds(start, events, n)
  {
    hide CountLate, Next, Trace, WindowsOneDay, LastScan;
    if events[n].CommitBy? {
      RunsAreScans(start, events[..n], events[n].run);
      var last := LastScan(events[..n], events[n].run);
      if last.Some? {
        OneDayWindow(start, events, last.value, n, n);
        CommitExceedsExact(start, events, n);
        CapExact(events[last.value].policy, CountLate(Trace(start, events[..last.value]).account.adjustments));
      }
    }
  }

  /** So the number of fees stays within the largest cap any run scanned. */
  lemma {:induction false} CountStaysWithin(start: Account, events: seq<Event>, bound: int, n: nat)
    requires n <= |events| && WindowsOneDay(events) && CountLate(start.adjustments) <= bound
    requires forall k :: 0 <= k < |events| && events[k].ScanBy? ==> Cap(events[k].policy) <= bound
    ensures CountLate(Trace(start, events[..n]).account.adjustments) <= bound
    decreases n
  {
    hide CountLate, Next, WindowsOneDay, LastScan, Cap;
    if n > 0 {
      CountStaysWithin(start, events, bound, n - 1);
      CapHolds(start, events, n - 1);
      assert events[..n][..n - 1] == events[..n - 1];
      var w, e := Trace(start, events[..n - 1]), events[n - 1];
      StepCounts(w, e, 0);
      if AddsFee(w, e) {
        RunsAreScans(start, events[..n - 1], e.run);
      }
    }
  }

  /**
   * And across midnight it is exceeded, always: whenever two runs of different days both find the last fee of the cap to be
   * charged and then both commit, the installment ends one fee beyond the cap.
   */
  lemma MidnightOverlapExceedsCap(policy: Policy, a: Account, d1: Day, d2: Day)
    requires d1 != d2 && Charges(policy, a, d1) && Charges(policy, a, d2) && CountLate(a.adjustments) == Cap(policy) - 1
    ensures var events := [ScanBy(1, d1, policy), ScanBy(2, d2, policy), CommitBy(1), CommitBy(2)];
      Exceeds(a, events, 3) && CountLate(Trace(a, events).account.adjustments) == Cap(policy) + 1
  {
    hide CountLate, CountLateOn, Sum, Cap;
    var events := [ScanBy(1, d1, policy), ScanBy(2, d2, policy), CommitBy(1), CommitBy(2)];
    var w0 := World(a, map[]);
    var w2 := Next(Next(w0, events[0]), events[1]);
    assert events[..3][..2] == events[..2] && events[..2][..1] == events[..1] && events[..1][..0] == [];
    assert Trace(a, []) == w0 && Trace(a, events[..1]) == Next(w0, events[0]) && Trace(a, events[..2]) == w2;
    StepCounts(w2, events[2], d1);
    StepCounts(w2, events[2], d2);
    var w3 := Next(w2, events[2]);
    assert Trace(a, events[..3]) == w3;
    StepCounts(w3, events[3], d2);
  }

  // ---- The scan loop of step 3 ----

  type Accounts = map<Id, Account>

  /** Around the n-th fee transaction: the other actors act on the accounts, then the transaction may fail. */
  datatype FeeEnv = FeeEnv(others: (nat, Accounts) -> Accounts, fails: nat -> bool) {
    ghost predicate Quiet() {
      (forall n: nat, accounts: Accounts :: others(n, accounts) == accounts) && (forall n: nat :: !fails(n))
    }
  }

  function Listed(accounts: Accounts): set<Id> {
    set id | id in accounts && accounts[id].status == Overdue && !accounts[id].deleted
  }

  function Charged(accounts: Accounts, policies: Id -> Json, today: Day): set<Id> {
    set id | id in accounts && Charges(ParsePolicy(policies(id)), accounts[id], today)
  }

  predicate BadAmount(policies: Id -> Json, id: Id) {
    ParsePolicy(policies(id)).enabled && ParsePolicy(policies(id)).amount == NotIntegral
  }

  /** Overdue under a policy that is on but whose amount is no integer. */
  function Misconfigured(accounts: Accounts, policies: Id -> Json): set<Id> {
    set id | id in Listed(accounts) && BadAmount(policies, id)
  }

  function ChargeAll(accounts: Accounts, policies: Id -> Json, today: Day, ids: set<Id>): Accounts {
    map id | id in accounts ::
      if id in ids && Charges(ParsePolicy(policies(id)), accounts[id], today)
      then AfterCharge(accounts[id], ParsePolicy(policies(id)).amount.value, today) else accounts[id]
  }

  /** One undisturbed run of the step. */
  function FeePass(accounts: Accounts, policies: Id -> Json, today: Day): Accounts {
    ChargeAll(accounts, policies, today, accounts.Keys)
  }

  /** The accounts, the clock and the counters between two turns of the loop. */
  datatype FeeRun = FeeRun(accounts: Accounts, clock: nat, applied: nat, errors: nat)

  /** The fee transaction on whatever the account has become: nothing, unless it still applies. */
  function Commit(accounts: Accounts, id: Id, amount: int, today: Day): Accounts {
    if id in accounts then accounts[id := AfterCharge(accounts[id], amount, today)] else accounts
  }

  /** One turn: decided on the scanned row, written on the current one, after the others have acted. */
  function FeeTurn(r: FeeRun, scan: Accounts, policies: Id -> Json, today: Day, env: FeeEnv, id: Id): FeeRun
    requires id in scan
  {
    var policy := ParsePolicy(policies(id));
    if BadAmount(policies, id) then r.(errors := r.errors + 1)
    else if !Charges(policy, scan[id], today) then r
    else
      var mid := env.others(r.clock, r.accounts);
      if env.fails(r.clock) then FeeRun(mid, r.clock + 1, r.applied, r.errors + 1)
      else
        var took := id in mid && ChargeApplies(mid[id], today);
        FeeRun(Commit(mid, id, policy.amount.value, today), r.clock + 1, r.applied + if took then 1 else 0, r.errors)
  }

  function FeeTurns(start: FeeRun, policies: Id -> Json, today: Day, env: FeeEnv, ids: seq<Id>): FeeRun
    requires forall k :: 0 <= k < |ids| ==> ids[k] in start.accounts
  {
    if ids == [] then start
    else FeeTurn(FeeTurns(start, policies, today, env, ids[..|ids| - 1]), start.accounts, policies, today, env, ids[|ids| - 1])
  }

  /** The scan: at most the cap of the overdue accounts. */
  function Overdues(accounts: Accounts): (ids: seq<Id>)
    ensures forall k :: 0 <= k < |ids| ==> ids[k] in Listed(accounts) && ids[k] in accounts
    ensures forall j, k :: 0 <= j < k < |ids| ==> ids[j] != ids[k]
    ensures |Listed(accounts)| <= SCAN_CAP ==> Members(ids) == Listed(accounts)
  {
    ScanFacts(accounts);
    Scan(Listed(accounts))
  }

  lemma ScanFacts(accounts: Accounts)
    ensures var ids := Scan(Listed(accounts));
      forall k :: 0 <= k < |ids| ==> ids[k] in Listed(accounts) && ids[k] in accounts
  {
    hide Scan, Listed;
    var ids := Scan(Listed(accounts));
    forall k | 0 <= k < |ids| ensures ids[k] in Listed(accounts) && ids[k] in accounts {
      assert ids[k] in ids;
      ListedIsOverdue(accounts, ids[k]);
    }
  }

  /** The whole step, disturbed in any way. */
  function FeeStep(accounts: Accounts, clock: nat, policies: Id -> Json, today: Day, env: FeeEnv): FeeRun {
    FeeTurns(FeeRun(accounts, clock, 0, 0), policies, today, env, Overdues(accounts))
  }

  class LateFeeStep {
    var accounts: Accounts
    var clock: nat

    constructor (accounts: Accounts)
      ensures this.accounts == accounts
    {
      this.accounts, clock := accounts, 0;
    }

    /**
     * Scan, filter on the scanned snapshot, charge under the lock: the accounts end exactly as the history of the run
     * makes them.
     */
    method ChargeOverdue(policies: Id -> Json, today: Day, env: FeeEnv) returns (applied: nat, errors: nat)
      modifies this
      ensures FeeRun(accounts, clock, applied, errors) == FeeStep(old(accounts), old(clock), policies, today, env)
    {
      hide Listed, Overdues, ParsePolicy, AfterCharge, Charges, FeeTurn;
      var snapshot := accounts;
      ghost var start := FeeRun(accounts, clock, 0, 0);
      var scanned := Overdues(snapshot);
      applied, errors := 0, 0;
      for i := 0 to |scanned|
        invariant FeeRun(accounts, clock, applied, errors) == FeeTurns(start, policies, today, env, scanned[..i])
      {
        var id := scanned[i];
        assert scanned[..i + 1][..i] == scanned[..i];
        TurnCases(FeeRun(accounts, clock, applied, errors), snapshot, policies, today, env, id);
        var policy, row := ParsePolicy(policies(id)), snapshot[id];
        ListedIsOverdue(snapshot, id);
        ChargesWhen(policy, row, today);
        if !policy.enabled || policy.amount == Missing {
          continue;
        }
        if policy.amount == NotIntegral {
          errors := errors + 1;
          continue;
        }
        if policy.amount.value <= 0 || CountLateOn(row.adjustments, today) > 0
           || CountLate(row.adjustments) as real >= policy.maxPerInstallment {
          continue;
        }
        accounts := env.others(clock, accounts);
        var failed := env.fails(clock);
        clock := clock + 1;
        if failed {
          errors := errors + 1;
        } else if id in accounts {
          var post, ok := ChargeLocked(accounts[id], policy.amount.value, today);
          accounts := accounts[id := post];
          if ok {
            applied := applied + 1;
          }
        }
      }
      assert scanned[..|scanned|] == scanned;
    }
  }

  lemma ListedIsOverdue(accounts: Accounts, id: Id)
    requires id in Listed(accounts)
    ensures id in accounts && accounts[id].status == Overdue && !accounts[id].deleted
  {
  }

  lemma ChargesWhen(policy: Policy, a: Account, today: Day)
    ensures Charges(policy, a, today) <==>
      && a.status == Overdue && !a.deleted && policy.enabled && policy.amount.Minor? && policy.amount.value > 0
      && CountLateOn(a.adjustments, today) == 0 && !(CountLate(a.adjustments) as real >= policy.maxPerInstallment)
  {
  }

  lemma TurnCases(r: FeeRun, scan: Accounts, policies: Id -> Json, today: Day, env: FeeEnv, id: Id)
    requires id in scan
    ensures var policy, after := ParsePolicy(policies(id)), FeeTurn(r, scan, policies, today, env, id);
      var mid := env.others(r.clock, r.accounts);
      && (policy.enabled && policy.amount == NotIntegral ==> after == r.(errors := r.errors + 1))
      && (!(policy.enabled && policy.amount == NotIntegral) && !Charges(policy, scan[id], today) ==> after == r)
      && (Charges(policy, scan[id], today) ==> policy.amount.Minor?)
      && (Charges(policy, scan[id], today) && env.fails(r.clock) ==> after == FeeRun(mid, r.clock + 1, r.applied, r.errors + 1))
      && (Charges(policy, scan[id], today) && !env.fails(r.clock) && id !in mid ==> after == FeeRun(mid, r.clock + 1, r.applied, r.errors))
      && (Charges(policy, scan[id], today) && !env.fails(r.clock) && id in mid ==>
            after == FeeRun(mid[id := AfterCharge(mid[id], policy.amount.value, today)], r.clock + 1,
                            r.applied + (if ChargeApplies(mid[id], today) then 1 else 0), r.errors))
  {
    hide ParsePolicy, AfterCharge;
  }

  // ---- What a disturbed step does to the accounts ----

  ghost predicate OthersLeave(env: FeeEnv, id: Id) {
    forall n: nat, accounts: Accounts :: id in accounts ==>
      id in env.others(n, accounts) && env.others(n, accounts)[id] == accounts[id]
  }

  /**
   * An account the others leave alone comes out as it went in, or with the one fee its policy called for at the scan. In
   * particular it is untouched unless its plan opted in.
   */
  lemma {:induction false} TurnsChargeAtMostOnce(start: FeeRun, policies: Id -> Json, today: Day, env: FeeEnv,
                                                 ids: seq<Id>, id: Id)
    requires (forall k :: 0 <= k < |ids| ==> ids[k] in start.accounts) && OthersLeave(env, id) && id in start.accounts
    ensures id in FeeTurns(start, policies, today, env, ids).accounts
    ensures var policy, a, b := ParsePolicy(policies(id)), start.accounts[id], FeeTurns(start, policies, today, env, ids).accounts[id];
      b == a || (Charges(policy, a, today) && b == AfterCharge(a, policy.amount.value, today))
  {
    hide ParsePolicy, AfterCharge, FeeTurn, Charges;
    if ids != [] {
      var n := |ids| - 1;
      TurnsChargeAtMostOnce(start, policies, today, env, ids[..n], id);
      var r := FeeTurns(start, policies, today, env, ids[..n]);
      TurnCases(r, start.accounts, policies, today, env, ids[n]);
      if ids[n] == id && Charges(ParsePolicy(policies(id)), start.accounts[id], today) {
        ChargedTwiceIsOnce(start.accounts[id], ParsePolicy(policies(id)).amount.value, today);
      }
    }
  }

  lemma ChargedTwiceIsOnce(a: Account, amount: int, today: Day)
    ensures AfterCharge(AfterCharge(a, amount, today), amount, today) == AfterCharge(a, amount, today)
  {
    ChargeCounts(a, amount, today, today);
  }

  predicate OptedIn(raw: Json) {
    raw.Object? && Truthy(Field(OrElse(Field(raw, "late_fee_policy"), raw), "enabled"))
  }

  lemma EnabledMeansOptedIn(raw: Json)
    ensures ParsePolicy(raw).enabled <==> OptedIn(raw)
  {
  }

  lemma StepChargesAtMostOnce(accounts: Accounts, clock: nat, policies: Id -> Json, today: Day, env: FeeEnv, id: Id)
    requires OthersLeave(env, id) && id in accounts
    ensures id in FeeStep(accounts, clock, policies, today, env).accounts
    ensures var policy, a, b := ParsePolicy(policies(id)), accounts[id], FeeStep(accounts, clock, policies, today, env).accounts[id];
      b == a || (Charges(policy, a, today) && OptedIn(policies(id)) && b == AfterCharge(a, policy.amount.value, today))
  {
    hide AfterCharge, FeeTurns, Overdues, Charges, OthersLeave, ParsePolicy, OptedIn;
    TurnsChargeAtMostOnce(FeeRun(accounts, clock, 0, 0), policies, today, env, Overdues(accounts), id);
    ChargesWhen(ParsePolicy(policies(id)), accounts[id], today);
    EnabledMeansOptedIn(policies(id));
  }

  /** However disturbed, the step keeps at most one late fee per day on every account. */
  lemma StepKeepsOneFee(accounts: Accounts, clock: nat, policies: Id -> Json, today: Day, env: FeeEnv)
    requires OthersKeepFees(env) && AllOneFeeADay(accounts)
    ensures AllOneFeeADay(FeeStep(accounts, clock, policies, today, env).accounts)
  {
    hide FeeTurns, Overdues, OthersKeepFees, AllOneFeeADay;
    TurnsKeepOneFee(FeeRun(accounts, clock, 0, 0), policies, today, env, Overdues(accounts));
  }

  /** The others add no LATE_FEE adjustments. */
  ghost predicate OthersKeepFees(env: FeeEnv) {
    forall n: nat, accounts: Accounts, id: Id :: id in env.others(n, accounts) ==>
      if id in accounts then LateFeesOf(env.others(n, accounts)[id].adjustments) == LateFeesOf(accounts[id].adjustments)
      else LateFeesOf(env.others(n, accounts)[id].adjustments) == []
  }

  ghost predicate AllOneFeeADay(accounts: Accounts) {
    forall id :: id in accounts ==> OneFeeADay(accounts[id])
  }

  lemma OthersKeepOneFee(env: FeeEnv, n: nat, accounts: Accounts)
    requires OthersKeepFees(env) && AllOneFeeADay(accounts)
    ensures AllOneFeeADay(env.others(n, accounts))
  {
    hide LateFeesOf, CountLateOn;
    var after := env.others(n, accounts);
    forall id, day | id in after ensures CountLateOn(after[id].adjustments, day) <= 1 {
      CountsOfLateFees(after[id].adjustments, day);
      NoFees(day);
      if id in accounts {
        assert OneFeeADay(accounts[id]);
        CountsOfLateFees(accounts[id].adjustments, day);
      }
    }
  }

  lemma NoFees(day: Day)
    ensures CountLateOn([], day) == 0
  {
  }

  lemma CommitKeepsOneFee(accounts: Accounts, id: Id, amount: int, today: Day)
    requires AllOneFeeADay(accounts)
    ensures AllOneFeeADay(Commit(accounts, id, amount, today))
  {
    hide AfterCharge, CountLateOn;
    var after := Commit(accounts, id, amount, today);
    forall j, day | j in after ensures CountLateOn(after[j].adjustments, day) <= 1 {
      assert OneFeeADay(accounts[j]);
      ChargeCounts(accounts[j], amount, today, day);
    }
  }

  lemma {:induction false} TurnsKeepOneFee(start: FeeRun, policies: Id -> Json, today: Day, env: FeeEnv, ids: seq<Id>)
    requires (forall k :: 0 <= k < |ids| ==> ids[k] in start.accounts) && OthersKeepFees(env) && AllOneFeeADay(start.accounts)
    ensures AllOneFeeADay(FeeTurns(start, policies, today, env, ids).accounts)
  {
    hide ParsePolicy, Commit, Charges, AllOneFeeADay, OthersKeepFees;
    if ids != [] {
      var n := |ids| - 1;
      TurnsKeepOneFee(start, policies, today, env, ids[..n]);
      var r := FeeTurns(start, policies, today, env, ids[..n]);
      OthersKeepOneFee(env, r.clock, r.accounts);
      var policy := ParsePolicy(policies(ids[n]));
      CommitKeepsOneFee(env.others(r.clock, r.accounts), ids[n],
                        if policy.amount.Minor? then policy.amount.value else 0, today);
      ChargesNeedAmount(policy, start.accounts[ids[n]], today);
    }
  }

  lemma ChargesNeedAmount(policy: Policy, a: Account, today: Day)
    ensures Charges(policy, a, today) ==> policy.amount.Minor?
  {
  }

  // ---- An undisturbed step ----

  function UpTo(start: Accounts, clock: nat, policies: Id -> Json, today: Day, done: set<Id>): FeeRun {
    var charged, bad := Charged(start, policies, today) * done, Misconfigured(start, policies) * done;
    FeeRun(ChargeAll(start, policies, today, done), clock + |charged|, |charged|, |bad|)
  }

  lemma NoneDone(accounts: Accounts, clock: nat, policies: Id -> Json, today: Day)
    ensures UpTo(accounts, clock, policies, today, Members([])) == FeeRun(accounts, clock, 0, 0)
  {
    hide ParsePolicy, AfterCharge, Charges;
    var none: set<Id> := Members([]);
    assert none == {} && Charged(accounts, policies, today) * none == {} && Misconfigured(accounts, policies) * none == {};
  }

  lemma OneMoreIn(s: set<Id>, done: set<Id>, id: Id)
    requires id !in done
    ensures |s * (done + {id})| == |s * done| + if id in s then 1 else 0
  {
    assert s * (done + {id}) == if id in s then s * done + {id} else s * done;
  }

  lemma WhichSets(start: Accounts, policies: Id -> Json, today: Day, id: Id)
    requires id in Listed(start)
    ensures var policy := ParsePolicy(policies(id));
      && id in start
      && (id in Charged(start, policies, today) <==> Charges(policy, start[id], today))
      && (id in Misconfigured(start, policies) <==> policy.enabled && policy.amount == NotIntegral)
      && (Charges(policy, start[id], today) ==> policy.amount.Minor? && ChargeApplies(start[id], today))
  {
    hide ParsePolicy;
  }

  lemma ChargeOneMore(start: Accounts, policies: Id -> Json, today: Day, done: set<Id>, id: Id)
    requires id in start && id !in done
    ensures var cur, next := ChargeAll(start, policies, today, done), ChargeAll(start, policies, today, done + {id});
      && id in cur && cur[id] == start[id]
      && next == if Charges(ParsePolicy(policies(id)), start[id], today)
                 then cur[id := AfterCharge(start[id], ParsePolicy(policies(id)).amount.value, today)] else cur
  {
    hide ParsePolicy, AfterCharge;
    var cur, next := ChargeAll(start, policies, today, done), ChargeAll(start, policies, today, done + {id});
    forall j | j in start && j != id ensures next[j] == cur[j] {
    }
    assert next.Keys == cur.Keys == start.Keys;
  }

  /** What a turn does in a quiet environment. */
  lemma OneMoreDone(start: Accounts, clock: nat, policies: Id -> Json, today: Day, env: FeeEnv, done: set<Id>, id: Id)
    requires env.Quiet() && id !in done && id in Listed(start)
    ensures id in start && FeeTurn(UpTo(start, clock, policies, today, done), start, policies, today, env, id)
            == UpTo(start, clock, policies, today, done + {id})
  {
    hide ParsePolicy, AfterCharge, Charges, ChargeAll, Charged, Misconfigured, FeeTurn, Listed;
    WhichSets(start, policies, today, id);
    ChargeOneMore(start, policies, today, done, id);
    OneMoreIn(Charged(start, policies, today), done, id);
    OneMoreIn(Misconfigured(start, policies), done, id);
    TurnCases(UpTo(start, clock, policies, today, done), start, policies, today, env, id);
    ChargesWhen(ParsePolicy(policies(id)), start[id], today);
  }

  lemma {:induction false} QuietTurns(start: Accounts, clock: nat, policies: Id -> Json, today: Day, env: FeeEnv,
                                      ids: seq<Id>)
    requires env.Quiet() && forall i, j :: 0 <= i < j < |ids| ==> ids[i] != ids[j]
    requires forall k :: 0 <= k < |ids| ==> ids[k] in Listed(start) && ids[k] in start
    ensures FeeTurns(FeeRun(start, clock, 0, 0), policies, today, env, ids) ==
        UpTo(start, clock, policies, today, Members(ids))
  {
    hide UpTo, FeeTurn, Listed;
    if ids == [] {
      NoneDone(start, clock, policies, today);
    } else {
      var n := |ids| - 1;
      QuietTurns(start, clock, policies, today, env, ids[..n]);
      MembersSnoc(ids, n);
      assert ids[..n + 1] == ids;
      OneMoreDone(start, clock, policies, today, env, Members(ids[..n]), ids[n]);
    }
  }

  /** Undisturbed and within the row limit, exactly the accounts their policies charge are charged, and all is counted. */
  lemma QuietStepIsFeePass(accounts: Accounts, clock: nat, policies: Id -> Json, today: Day, env: FeeEnv)
    requires env.Quiet() && |Listed(accounts)| <= SCAN_CAP
    ensures var r := FeeStep(accounts, clock, policies, today, env);
      && r.accounts == FeePass(accounts, policies, today)
      && r.applied == |Charged(accounts, policies, today)| && r.errors == |Misconfigured(accounts, policies)|
  {
    hide ParsePolicy, AfterCharge, FeeTurns, Overdues, Listed, Charged, Misconfigured, ChargeAll;
    QuietTurns(accounts, clock, policies, today, env, Overdues(accounts));
    OnlyListedMatter(accounts, policies, today);
  }

  lemma OnlyListedMatter(accounts: Accounts, policies: Id -> Json, today: Day)
    ensures Charged(accounts, policies, today) * Listed(accounts) == Charged(accounts, policies, today)
    ensures Misconfigured(accounts, policies) * Listed(accounts) == Misconfigured(accounts, policies)
    ensures ChargeAll(accounts, policies, today, Listed(accounts)) == FeePass(accounts, policies, today)
  {
    hide ParsePolicy, AfterCharge, BadAmount;
  }

  /** A second run on the same day charges nobody. */
  lemma SecondRunChargesNobody(accounts: Accounts, policies: Id -> Json, today: Day)
    ensures Charged(FeePass(accounts, policies, today), policies, today) == {}
    ensures FeePass(FeePass(accounts, policies, today), policies, today) == FeePass(accounts, policies, today)
  {
    hide ParsePolicy, AfterCharge;
    var once := FeePass(accounts, policies, today);
    forall id | id in once ensures !Charges(ParsePolicy(policies(id)), once[id], today) {
      if Charges(ParsePolicy(policies(id)), accounts[id], today) {
        ChargeMoney(accounts[id], ParsePolicy(policies(id)).amount.value, today);
      }
    }
  }
}
