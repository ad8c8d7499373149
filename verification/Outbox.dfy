/**
 * The message outbox of one tenant: the dispatcher's retry machine (apps/backend/src/jobs/commsDispatcher.ts) and the
 * daily digest as a second, guarded writer (apps/backend/src/jobs/commsDigest.ts).
 */
module Outbox {
  import opened Ordering
  import opened Wrappers

  type Time = int   // milliseconds

  const BATCH_LIMIT := 100
  const DIGEST_LIMIT := 500
  const MAX_ATTEMPTS := 3
  const FIRST_BACKOFF := 5 * 60000
  const SECOND_BACKOFF := 30 * 60000

  datatype Status = Queued | Sent | Failed

  /**
   * A provider call: the clock of the pass it belongs to, read once when the pass starts, and the moment of the call
   * itself.
   */
  datatype Send = Send(pass: Time, at: Time)

  /** A message. `sends` is history: every provider call. */
  datatype Message = Message(status: Status, attempts: nat, nextRetryAt: Option<Time>,
                             recipient: Option<nat>, email: bool, digestedInto: Option<nat>, sends: seq<Send>)

  /** What delivering one message comes to; the provider never throws. */
  datatype Outcome = NoProvider | OptedOut | NoAddress | SendOk | SendFailed

  /** A row of the candidate scan: where the message is, and its attempts at the time. */
  datatype Pick = Pick(index: nat, attempts: nat)

  /** The table in created_at order, what is left of the current pass, the pass clock, and the wall clock. */
  datatype World = World(rows: seq<Message>, pending: seq<Pick>, now: Time, clock: Time)

  function Later(a: Time, b: Time): Time {
    if a < b then b else a
  }

  predicate Retryable(m: Message, now: Time) {
    || m.status == Queued
    || (m.status == Failed && m.attempts < MAX_ATTEMPTS && m.nextRetryAt.Some? && m.nextRetryAt.value <= now)
  }

  function Candidates(rows: seq<Message>, now: Time): set<nat> {
    set i: nat | i < |rows| && Retryable(rows[i], now)
  }

  predicate Older(a: nat, b: nat) { a < b }

  /** The oldest candidates, at most one batch of them. */
  function Batch(rows: seq<Message>, now: Time): seq<nat> {
    assert StrictTotal(Older);
    Ascending(Candidates(rows, now), Older, BATCH_LIMIT)
  }

  function Picks(rows: seq<Message>, batch: seq<nat>): seq<Pick>
    requires forall k :: 0 <= k < |batch| ==> batch[k] < |rows|
  {
    seq(|batch|, k requires 0 <= k < |batch| => Pick(batch[k], rows[batch[k]].attempts))
  }

  lemma BatchFacts(rows: seq<Message>, now: Time)
    ensures var b := Batch(rows, now);
      && (forall k :: 0 <= k < |b| ==> b[k] < |rows| && Retryable(rows[b[k]], now))
      && (forall j, k :: 0 <= j < k < |b| ==> b[j] < b[k])
      && |b| <= BATCH_LIMIT
      && (forall i: nat :: i < |rows| && Retryable(rows[i], now) && i !in b ==>
           |b| == BATCH_LIMIT && forall k :: 0 <= k < |b| ==> b[k] < i)
  {
    hide Ascending;
    assert StrictTotal(Older);
    AscendingTakes(Candidates(rows, now), Older, BATCH_LIMIT);
  }

  /** What the candidate scan hands to the loop. */
  function PicksOf(rows: seq<Message>, now: Time): seq<Pick> {
    BatchFacts(rows, now);
    Picks(rows, Batch(rows, now))
  }

  /** BACKOFF_MS[nextAttempt - 1] ?? null. */
  function Backoff(nextAttempt: nat): Option<Time> {
    if nextAttempt == 1 then Some(FIRST_BACKOFF) else if nextAttempt == 2 then Some(SECOND_BACKOFF) else None
  }

  /** The guarded update after one delivery; the provider call happens whether or not the guard still holds. */
  function Delivered(m: Message, attempts: nat, o: Outcome, now: Time, at: Time): Message {
    var m := if o.SendOk? || o.SendFailed? then m.(sends := m.sends + [Send(now, at)]) else m;
    if m.status == Sent then m
    else match o
      case NoProvider => m.(status := Sent)
      case OptedOut => m.(status := Sent)
      case NoAddress => m.(status := Failed, attempts := m.attempts + 1, nextRetryAt := None)
      case SendOk => m.(status := Sent, attempts := m.attempts + 1, nextRetryAt := None)
      case SendFailed =>
        var nextAttempt := attempts + 1;
        var backoff := if nextAttempt >= MAX_ATTEMPTS then None else Backoff(nextAttempt);
        m.(status := Failed, attempts := m.attempts + 1,
           nextRetryAt := if backoff.Some? then Some(now + backoff.value) else None)
  }

  /** The digest transaction: create the summary, and flip those originals that are still QUEUED. */
  function Digested(rows: seq<Message>, user: nat, sources: set<nat>): seq<Message> {
    seq(|rows|, i requires 0 <= i < |rows| =>
      if i in sources && rows[i].status == Queued then rows[i].(status := Sent, digestedInto := Some(|rows|)) else rows[i])
    + [Message(Queued, 0, None, Some(user), true, None, [])]
  }

  datatype Event =
    | Enqueue(recipient: Option<nat>, email: bool)
    | Scan(now: Time)
    | Deliver(outcome: Outcome, at: Time)    // the next delivery of the pass, at this moment
    | Digest(user: nat, sources: set<nat>)   // any set: the digest's own scan may be stale

  /** One dispatcher: a pass starts when the previous one is through, and the wall clock does not run backwards. */
  function Next(w: World, e: Event): World {
    match e
    case Enqueue(recipient, email) => w.(rows := w.rows + [Message(Queued, 0, None, recipient, email, None, [])])
    case Scan(now) =>
      if w.pending != [] || now < w.clock then w
      else
        World(w.rows, PicksOf(w.rows, now), now, now)
    case Deliver(o, at) =>
      if w.pending == [] || w.pending[0].index >= |w.rows| then w
      else
        var p, moment := w.pending[0], Later(at, w.clock);
        World(w.rows[p.index := Delivered(w.rows[p.index], p.attempts, o, w.now, moment)], w.pending[1..], w.now, moment)
    case Digest(user, sources) => w.(rows := Digested(w.rows, user, sources))
  }

  function Play(w: World, events: seq<Event>): World {
    if events == [] then w else Next(Play(w, events[..|events| - 1]), events[|events| - 1])
  }

  // ---- Safety ----

  /**
   * A call belongs to a pass that started after the previous call, and no sooner than the backoff from its pass clock.
   */
  ghost predicate Spaced(sends: seq<Send>) {
    && |sends| <= 3
    && (forall k :: 0 <= k < |sends| ==> sends[k].pass <= sends[k].at)
    && (|sends| >= 2 ==> Follows(sends[0], sends[1], FIRST_BACKOFF))
    && (|sends| == 3 ==> Follows(sends[1], sends[2], SECOND_BACKOFF))
  }

  predicate Follows(a: Send, b: Send, backoff: Time) {
    b.pass >= a.pass + backoff && b.pass >= a.at
  }

  ghost predicate Past(m: Message, clock: Time) {
    forall k :: 0 <= k < |m.sends| ==> m.sends[k].at <= clock
  }

  /** What every message satisfies at every moment. */
  ghost predicate MessageOk(m: Message) {
    && m.attempts <= MAX_ATTEMPTS && Spaced(m.sends)
    && match m.status
       case Queued => m.attempts == 0 && m.sends == [] && m.nextRetryAt == None
       case Failed =>
         && (m.nextRetryAt.Some? ==>
              m.attempts in {1, 2} && |m.sends| == m.attempts
              && m.nextRetryAt.value == m.sends[m.attempts - 1].pass + Backoff(m.attempts).value)
       case Sent => m.nextRetryAt == None || m.attempts > 0
  }

  /** A picked message is as the scan saw it, or the digest has taken it since. */
  ghost predicate PickOk(w: World, p: Pick) {
    && p.index < |w.rows|
    && var m := w.rows[p.index];
       || (Retryable(m, w.now) && m.attempts == p.attempts && Past(m, w.now))
       || (m.status == Sent && m.sends == [] && m.attempts == 0)
  }

  ghost predicate Inv(w: World) {
    && w.now <= w.clock
    && (forall i :: 0 <= i < |w.rows| ==> MessageOk(w.rows[i]) && Past(w.rows[i], w.clock))
    && (forall k :: 0 <= k < |w.pending| ==> PickOk(w, w.pending[k]))
    && (forall j, k :: 0 <= j < k < |w.pending| ==> w.pending[j].index != w.pending[k].index)
  }

  lemma CallAdded(sends: seq<Send>, now: Time, at: Time)
    requires Spaced(sends) && now <= at && |sends| <= 2
    requires |sends| > 0 ==> var last := sends[|sends| - 1];
      last.at <= now && now >= last.pass + (if |sends| == 1 then FIRST_BACKOFF else SECOND_BACKOFF)
    ensures Spaced(sends + [Send(now, at)])
  {
  }

  /** The next call of a message that was due comes in a later pass, once its backoff is over. */
  lemma CallOk(m: Message, now: Time, at: Time)
    requires MessageOk(m) && now <= at && Retryable(m, now) && Past(m, now)
    ensures Spaced(m.sends + [Send(now, at)]) && |m.sends| == m.attempts < MAX_ATTEMPTS
  {
    CallAdded(m.sends, now, at);
  }

  lemma DeliverOk(m: Message, attempts: nat, o: Outcome, now: Time, at: Time)
    requires MessageOk(m) && now <= at && Past(m, at)
    requires (Retryable(m, now) && m.attempts == attempts && Past(m, now)) || (m.status == Sent && m.sends == [] && m.attempts == 0)
    ensures MessageOk(Delivered(m, attempts, o, now, at)) && Past(Delivered(m, attempts, o, now, at), at)
  {
    hide Spaced, Past, Retryable, Delivered;
    PastCall(m, now, at);
    Due(m, now);
    DeliveredCases(m, attempts, o, now, at);
    if m.status == Sent {
      FirstCall(now, at);
      assert m.sends + [Send(now, at)] == [Send(now, at)];
    } else {
      CallOk(m, now, at);
      assert (m.sends + [Send(now, at)])[m.attempts] == Send(now, at);
      DueDelivered(m, attempts, o, now, at);
    }
  }

  /** The status that a delivery leaves, and what it does to the call list. */
  lemma DeliveredCases(m: Message, attempts: nat, o: Outcome, now: Time, at: Time)
    ensures var m' := Delivered(m, attempts, o, now, at);
      && m'.sends == (if o in {SendOk, SendFailed} then m.sends + [Send(now, at)] else m.sends)
      && (m.status == Sent ==> m' == m.(sends := m'.sends))
  {
  }

  lemma DueDelivered(m: Message, attempts: nat, o: Outcome, now: Time, at: Time)
    requires MessageOk(m) && Retryable(m, now) && m.attempts == attempts && |m.sends| == m.attempts < MAX_ATTEMPTS
    requires Spaced(m.sends + [Send(now, at)]) && (m.sends + [Send(now, at)])[m.attempts] == Send(now, at)
    ensures MessageOk(Delivered(m, attempts, o, now, at))
  {
    hide Spaced, Retryable;
    Due(m, now);
  }

  lemma Due(m: Message, now: Time)
    ensures Retryable(m, now) ==> m.status == Queued || (m.status == Failed && m.nextRetryAt.Some?)
  {
  }

  lemma PastCall(m: Message, now: Time, at: Time)
    requires Past(m, at)
    ensures forall m': Message :: m'.sends == m.sends || m'.sends == m.sends + [Send(now, at)] ==> Past(m', at)
  {
  }

  lemma FirstCall(now: Time, at: Time)
    requires now <= at
    ensures Spaced([Send(now, at)]) && [] + [Send(now, at)] == [Send(now, at)]
  {
  }

  lemma ScanKeepsInv(w: World, now: Time)
    requires Inv(w)
    ensures Inv(Next(w, Scan(now)))
  {
    hide Batch, MessageOk, Retryable;
    BatchFacts(w.rows, now);
    forall i | 0 <= i < |w.rows| && now >= w.clock ensures Past(w.rows[i], now) {
      assert Past(w.rows[i], w.clock);
    }
  }

  lemma DeliverKeepsInv(w: World, o: Outcome, at: Time)
    requires Inv(w) && w.pending != []
    ensures Inv(Next(w, Deliver(o, at)))
  {
    hide Batch, MessageOk, Delivered, Retryable, Past;
    var p, w' := w.pending[0], Next(w, Deliver(o, at));
    assert PickOk(w, p);
    PastStays(w, Later(at, w.clock));
    DeliverOk(w.rows[p.index], p.attempts, o, w.now, Later(at, w.clock));
    forall k | 0 <= k < |w'.pending| ensures PickOk(w', w'.pending[k]) {
      assert PickOk(w, w.pending[k + 1]) && w.pending[k + 1].index != p.index;
    }
  }

  lemma PastStays(w: World, clock: Time)
    requires Inv(w) && w.clock <= clock
    ensures forall i :: 0 <= i < |w.rows| ==> Past(w.rows[i], clock)
  {
    hide MessageOk, PickOk;
    forall i | 0 <= i < |w.rows| ensures Past(w.rows[i], clock) {
      assert Past(w.rows[i], w.clock);
    }
  }

  lemma DigestKeepsInv(w: World, user: nat, sources: set<nat>)
    requires Inv(w)
    ensures Inv(Next(w, Digest(user, sources)))
  {
    hide Batch;
    var w' := Next(w, Digest(user, sources));
    forall i | 0 <= i < |w'.rows| ensures MessageOk(w'.rows[i]) && Past(w'.rows[i], w'.clock) {
      assert i < |w.rows| ==> MessageOk(w.rows[i]) && Past(w.rows[i], w.clock);
    }
    forall k | 0 <= k < |w.pending| ensures PickOk(w', w.pending[k]) {
      assert PickOk(w, w.pending[k]) && MessageOk(w.rows[w.pending[k].index]);
    }
  }

  lemma EnqueueKeepsInv(w: World, recipient: Option<nat>, email: bool)
    requires Inv(w)
    ensures Inv(Next(w, Enqueue(recipient, email)))
  {
    hide Batch, Retryable;
    var w' := Next(w, Enqueue(recipient, email));
    forall k | 0 <= k < |w.pending| ensures PickOk(w', w.pending[k]) {
      assert PickOk(w, w.pending[k]);
    }
  }

  lemma NextKeepsInv(w: World, e: Event)
    requires Inv(w)
    ensures Inv(Next(w, e))
  {
    hide Inv;
    match e {
      case Enqueue(recipient, email) => EnqueueKeepsInv(w, recipient, email);
      case Scan(now) => ScanKeepsInv(w, now);
      case Deliver(o, at) => if w.pending != [] { DeliverKeepsInv(w, o, at); }
      case Digest(user, sources) => DigestKeepsInv(w, user, sources);
    }
  }

  function Empty(): World {
    World([], [], 0, 0)
  }

  /**
   * In every interleaving of passes, deliveries, digests and new messages: no message makes more than three attempts or
   * is handed to the provider more than three times, and the passes of its calls are at least 5 and then 30 minutes apart.
   */
  lemma {:induction false} OutboxSafe(events: seq<Event>)
    ensures Inv(Play(Empty(), events))
  {
    if events != [] {
      OutboxSafe(events[..|events| - 1]);
      NextKeepsInv(Play(Empty(), events[..|events| - 1]), events[|events| - 1]);
    }
  }

  /** How late in its pass a call was made. */
  function Lag(s: Send): Time {
    s.at - s.pass
  }

  /** Message i of this run was called at least j + 2 times, and its call j was this late in its pass. */
  predicate CallsAgain(events: seq<Event>, i: nat, j: nat, lag: Time) {
    var w := Play(Empty(), events);
    i < |w.rows| && j + 1 < |w.rows[i].sends| && Lag(w.rows[i].sends[j]) == lag
  }

  /** The time between that call and the next. */
  function Gap(events: seq<Event>, i: nat, j: nat): Time
    requires i < |Play(Empty(), events).rows| && j + 1 < |Play(Empty(), events).rows[i].sends|
  {
    var sends := Play(Empty(), events).rows[i].sends;
    sends[j + 1].at - sends[j].at
  }

  /** What is left of the backoff after a call that came this late: the retry time counts from the pass clock. */
  function Remaining(j: nat, lag: Time): Time
    requires j < 2
  {
    Later(0, Backoff(j + 1).value - lag)
  }

  /** In every run, the calls themselves are apart by at least what is left of the backoff. */
  lemma CallsAreApart(events: seq<Event>, i: nat, j: nat, lag: Time)
    requires CallsAgain(events, i, j, lag)
    ensures j < 2 && lag >= 0 && Gap(events, i, j) >= Remaining(j, lag)
  {
    OutboxSafe(events);
    assert MessageOk(Play(Empty(), events).rows[i]);
  }

  /** A run in which the j-th call comes this late and the next as soon as it may. */
  function TightRun(j: nat, lag: Time): seq<Event> {
    var first := [Enqueue(None, true), Scan(0)];
    if j == 0 then
      var again := Later(lag, FIRST_BACKOFF);
      first + [Deliver(SendFailed, lag), Scan(again), Deliver(SendFailed, again)]
    else
      var again := Later(FIRST_BACKOFF + lag, FIRST_BACKOFF + SECOND_BACKOFF);
      first + [Deliver(SendFailed, 0), Scan(FIRST_BACKOFF), Deliver(SendFailed, FIRST_BACKOFF + lag), Scan(again),
               Deliver(SendFailed, again)]
  }

  lemma PlaySnoc(w: World, events: seq<Event>, e: Event)
    ensures Play(w, events + [e]) == Next(Play(w, events), e)
  {
    assert (events + [e])[..|events|] == events;
  }

  lemma {:induction false} Increasing(b: seq<nat>, n: nat)
    requires forall j, k :: 0 <= j < k < |b| ==> b[j] < b[k]
    requires forall k :: 0 <= k < |b| ==> b[k] < n
    ensures |b| <= n
  {
    if b != [] {
      Increasing(b[..|b| - 1], b[|b| - 1]);
    }
  }

  /** One failed pass over a lone message. */
  lemma LonePass(events: seq<Event>, m: Message, now: Time, at: Time)
    requires var w := Play(Empty(), events); w.rows == [m] && w.pending == [] && now >= w.clock
    requires Retryable(m, now) && at >= now
    ensures var w := Play(Empty(), events + [Scan(now)] + [Deliver(SendFailed, at)]);
      w == World([Delivered(m, m.attempts, SendFailed, now, at)], [], now, at)
  {
    hide Batch, Delivered, Play, Retryable;
    var w := Play(Empty(), events);
    PlaySnoc(Empty(), events, Scan(now));
    PlaySnoc(Empty(), events + [Scan(now)], Deliver(SendFailed, at));
    BatchFacts(w.rows, now);
    var b := Batch(w.rows, now);
    assert Retryable(w.rows[0], now);
    Increasing(b, 1);
    assert b == [0];
    assert PicksOf(w.rows, now) == [Pick(0, m.attempts)];
  }

  /** And no more than that: for either retry and every lag there is a run that comes as close. */
  lemma GapReached(j: nat, lag: Time)
    requires j < 2 && lag >= 0
    ensures CallsAgain(TightRun(j, lag), 0, j, lag) && Gap(TightRun(j, lag), 0, j) == Remaining(j, lag)
  {
    hide Play, Next;
    var m := Message(Queued, 0, None, None, true, None, []);
    var start := [Enqueue(None, true)];
    StartsLone();
    if j == 0 {
      LonePass(start, m, 0, lag);
      var m1 := Delivered(m, 0, SendFailed, 0, lag);
      var again := Later(lag, FIRST_BACKOFF);
      var e1 := start + [Scan(0)] + [Deliver(SendFailed, lag)];
      LonePass(e1, m1, again, again);
      assert e1 + [Scan(again)] + [Deliver(SendFailed, again)] == TightRun(0, lag);
    } else {
      LonePass(start, m, 0, 0);
      var m1 := Delivered(m, 0, SendFailed, 0, 0);
      var e1 := start + [Scan(0)] + [Deliver(SendFailed, 0)];
      LonePass(e1, m1, FIRST_BACKOFF, FIRST_BACKOFF + lag);
      var m2 := Delivered(m1, 1, SendFailed, FIRST_BACKOFF, FIRST_BACKOFF + lag);
      var e2 := e1 + [Scan(FIRST_BACKOFF)] + [Deliver(SendFailed, FIRST_BACKOFF + lag)];
      var again := Later(FIRST_BACKOFF + lag, FIRST_BACKOFF + SECOND_BACKOFF);
      LonePass(e2, m2, again, again);
      assert e2 + [Scan(again)] + [Deliver(SendFailed, again)] == TightRun(j, lag);
    }
  }

  lemma StartsLone()
    ensures Play(Empty(), [Enqueue(None, true)]) == World([Message(Queued, 0, None, None, true, None, [])], [], 0, 0)
  {
    assert [Enqueue(None, true)][..0] == [];
    assert Play(Empty(), []) == Empty();
  }

  /**
   * The full backoff between the calls themselves is guaranteed if and only if the earlier call did not lag behind its
   * pass.
   */
  lemma FullSpacingExact(j: nat, lag: Time)
    requires j < 2 && lag >= 0
    ensures (forall events, i :: CallsAgain(events, i, j, lag) ==> Gap(events, i, j) >= Backoff(j + 1).value) <==> lag == 0
  {
    hide Play;
    if lag == 0 {
      forall events, i | CallsAgain(events, i, j, lag) ensures Gap(events, i, j) >= Backoff(j + 1).value {
        CallsAreApart(events, i, j, lag);
      }
    } else {
      GapReached(j, lag);
    }
  }

  lemma StepKeepsSent(w: World, e: Event, i: nat)
    requires i < |w.rows|
    ensures i < |Next(w, e).rows|
    ensures w.rows[i].status == Sent ==> var m := Next(w, e).rows[i];
      m.status == Sent && m.digestedInto == w.rows[i].digestedInto && m.attempts == w.rows[i].attempts
  {
    hide Batch;
  }

  /** SENT is absorbing, messages are never lost, and a message enters at most one digest. */
  lemma {:induction false} SentIsAbsorbing(w: World, events: seq<Event>, i: nat)
    requires i < |w.rows|
    ensures i < |Play(w, events).rows|
    ensures w.rows[i].status == Sent ==> var m := Play(w, events).rows[i];
      m.status == Sent && m.digestedInto == w.rows[i].digestedInto && m.attempts == w.rows[i].attempts
  {
    hide Next;
    if events != [] {
      SentIsAbsorbing(w, events[..|events| - 1], i);
      StepKeepsSent(Play(w, events[..|events| - 1]), events[|events| - 1], i);
    }
  }

  // ---- Liveness ----

  /** How many times a message can still be picked. */
  function Budget(m: Message): nat {
    if m.status == Queued then MAX_ATTEMPTS
    else if m.status == Failed && m.attempts < MAX_ATTEMPTS && m.nextRetryAt.Some? then MAX_ATTEMPTS - m.attempts
    else 0
  }

  /** The budget not already spoken for by the running pass. */
  function Slack(w: World, j: nat): nat
    requires j < |w.rows|
  {
    if Budget(w.rows[j]) > 0 && InPass(w, j) then Budget(w.rows[j]) - 1 else Budget(w.rows[j])
  }

  predicate InPass(w: World, j: nat) {
    exists k :: 0 <= k < |w.pending| && w.pending[k].index == j
  }

  function TotalSlack(w: World, n: nat): nat
    requires n <= |w.rows|
  {
    if n == 0 then 0 else TotalSlack(w, n - 1) + Slack(w, n - 1)
  }

  lemma {:induction false} SlackMonotone(w: World, w': World, n: nat)
    requires n <= |w.rows| && n <= |w'.rows|
    requires forall j :: 0 <= j < n ==> Slack(w', j) <= Slack(w, j)
    ensures TotalSlack(w', n) <= TotalSlack(w, n)
  {
    if n > 0 {
      SlackMonotone(w, w', n - 1);
    }
  }

  function Below(s: set<nat>, n: nat): set<nat> {
    set j | j in s && j < n
  }

  /** Reserving one pick from each of these messages takes one from each slack. */
  lemma {:induction false} SlackReserved(w: World, w': World, picked: set<nat>, n: nat)
    requires n <= |w.rows| && n <= |w'.rows|
    requires forall j :: 0 <= j < n ==> Slack(w, j) == Slack(w', j) + if j in picked then 1 else 0
    ensures TotalSlack(w, n) == TotalSlack(w', n) + |Below(picked, n)|
  {
    hide Slack;
    if n == 0 {
      assert Below(picked, 0) == {};
    } else {
      SlackReserved(w, w', picked, n - 1);
      assert Below(picked, n) == Below(picked, n - 1) + if n - 1 in picked then {n - 1} else {};
    }
  }

  /** Neither new messages, nor deliveries, nor digests give an older message more picks. */
  lemma NonScanKeepsSlack(w: World, e: Event, n: nat)
    requires Inv(w) && n <= |w.rows| && !e.Scan?
    ensures n <= |Next(w, e).rows| && TotalSlack(Next(w, e), n) <= TotalSlack(w, n)
  {
    hide MessageOk, Batch;
    var w' := Next(w, e);
    forall j: nat | j < n ensures Slack(w', j) <= Slack(w, j) {
      NonScanKeepsOne(w, e, j);
    }
    SlackMonotone(w, w', n);
  }

  lemma NonScanKeepsOne(w: World, e: Event, j: nat)
    requires Inv(w) && j < |w.rows| && !e.Scan?
    ensures j < |Next(w, e).rows| && Slack(Next(w, e), j) <= Slack(w, j)
  {
    hide Batch, MessageOk;
    var w' := Next(w, e);
    match e {
      case Enqueue(_, _) => assert InPass(w', j) == InPass(w, j);
      case Digest(_, _) => assert InPass(w', j) == InPass(w, j);
      case Deliver(o, _) =>
        if w.pending != [] && w.pending[0].index < |w.rows| {
          var p := w.pending[0];
          assert PickOk(w, p);
          if j == p.index {
            assert InPass(w, j);
            assert Budget(w'.rows[j]) <= if Budget(w.rows[j]) > 0 then Budget(w.rows[j]) - 1 else 0;
          } else {
            assert InPass(w, j) ==> InPass(w', j) by {
              if InPass(w, j) {
                var k :| 0 <= k < |w.pending| && w.pending[k].index == j;
                assert w'.pending[k - 1].index == j;
              }
            }
          }
        }
    }
  }

  predicate Starts(w: World, e: Event) {
    e.Scan? && w.pending == [] && e.now >= w.clock
  }

  lemma ReservesOne(w: World, e: Event, j: nat)
    requires Starts(w, e) && j < |w.rows|
    ensures Slack(w, j) == Slack(Next(w, e), j) + if j in Members(Batch(w.rows, e.now)) then 1 else 0
  {
    hide Batch;
    var w', b := Next(w, e), Batch(w.rows, e.now);
    BatchFacts(w.rows, e.now);
    assert !InPass(w, j);
    if j in b {
      var k :| 0 <= k < |b| && b[k] == j;
      assert w'.pending[k].index == j && Budget(w.rows[j]) > 0;
    } else {
      assert !InPass(w', j);
    }
  }

  /** A pass that leaves a queued message out is full of older ones. */
  lemma PassSpendsSlack(w: World, e: Event, i: nat)
    requires Inv(w) && Starts(w, e) && i < |w.rows| && w.rows[i].status == Queued && !InPass(Next(w, e), i)
    ensures TotalSlack(Next(w, e), i) + BATCH_LIMIT == TotalSlack(w, i)
  {
    hide MessageOk, Batch;
    var w', b := Next(w, e), Batch(w.rows, e.now);
    BatchFacts(w.rows, e.now);
    forall k | 0 <= k < |b| ensures b[k] != i {
      assert w'.pending[k].index == b[k];
    }
    var picked := Members(b);
    forall j: nat | j < i ensures Slack(w, j) == Slack(w', j) + if j in picked then 1 else 0 {
      ReservesOne(w, e, j);
    }
    SlackReserved(w, w', picked, i);
    assert Below(picked, i) == picked;
    DistinctSize(b);
  }

  /** How many passes start in a trace. */
  function Passes(w: World, events: seq<Event>): nat {
    if events == [] then 0
    else
      var front := events[..|events| - 1];
      Passes(w, front) + if Starts(Play(w, front), events[|events| - 1]) then 1 else 0
  }

  /** The message has been queued and outside every pass so far. */
  ghost predicate Waiting(w: World, events: seq<Event>, i: nat) {
    forall n :: 0 <= n <= |events| ==>
      var v := Play(w, events[..n]);
      i < |v.rows| && v.rows[i].status == Queued && !InPass(v, i)
  }

  lemma {:induction false} WaitingSpendsSlack(w: World, events: seq<Event>, i: nat)
    requires Inv(w) && Waiting(w, events, i)
    ensures Inv(Play(w, events)) && i < |w.rows| && i <= |Play(w, events).rows|
    ensures TotalSlack(Play(w, events), i) + BATCH_LIMIT * Passes(w, events) <= TotalSlack(w, i)
  {
    assert events[..|events|] == events && Play(w, events[..0]) == w;
    if events != [] {
      var front, e := events[..|events| - 1], events[|events| - 1];
      forall n | 0 <= n <= |front| ensures front[..n] == events[..n] {
      }
      WaitingSpendsSlack(w, front, i);
      var v := Play(w, front);
      assert Play(w, events[..|front|]) == v && Play(w, events[..|events|]) == Next(v, e);
      NextKeepsInv(v, e);
      WaitingStep(v, e, i);
    }
  }

  lemma WaitingStep(v: World, e: Event, i: nat)
    requires Inv(v) && i < |v.rows| && v.rows[i].status == Queued && !InPass(Next(v, e), i)
    ensures i <= |Next(v, e).rows|
    ensures TotalSlack(Next(v, e), i) + (if Starts(v, e) then BATCH_LIMIT else 0) <= TotalSlack(v, i)
  {
    hide Inv, Batch;
    if Starts(v, e) {
      PassSpendsSlack(v, e, i);
    } else if !e.Scan? {
      NonScanKeepsSlack(v, e, i);
    }
  }

  /** How many of the messages before i can still be picked at all. */
  function LiveBefore(w: World, i: nat): nat
    requires i <= |w.rows|
  {
    if i == 0 then 0 else LiveBefore(w, i - 1) + if Budget(w.rows[i - 1]) > 0 then 1 else 0
  }

  /** Live are the messages that are QUEUED, or FAILED with a retry ahead. */
  lemma {:induction false} LiveBeforeExact(w: World, i: nat)
    requires i <= |w.rows|
    ensures LiveBefore(w, i) == |LiveIndices(w, i)|
  {
    if i == 0 {
      assert LiveIndices(w, 0) == {};
    } else {
      LiveBeforeExact(w, i - 1);
      assert LiveIndices(w, i) == LiveIndices(w, i - 1) + if Live(w.rows[i - 1]) then {i - 1} else {};
    }
  }

  ghost predicate Live(m: Message) {
    m.status == Queued || (m.status == Failed && m.attempts < 3 && m.nextRetryAt != None)
  }

  ghost function LiveIndices(w: World, i: nat): set<nat>
    requires i <= |w.rows|
  {
    set j: nat | j < i && Live(w.rows[j])
  }

  /** Passes counts the scans that find the previous pass done and do not run the clock backwards. */
  lemma {:induction false} PassesExact(w: World, events: seq<Event>)
    ensures Passes(w, events) == |PassStarts(w, events)|
  {
    hide Next;
    if events == [] {
      assert PassStarts(w, events) == {};
    } else {
      var n := |events| - 1;
      PassesExact(w, events[..n]);
      forall k: nat | k < n ensures k in PassStarts(w, events) <==> k in PassStarts(w, events[..n]) {
        assert events[..n][..k] == events[..k];
      }
      assert PassStarts(w, events) == PassStarts(w, events[..n]) + if Starts(Play(w, events[..n]), events[n]) then {n} else {};
    }
  }

  ghost function PassStarts(w: World, events: seq<Event>): set<nat> {
    set n: nat | n < |events| && StartsPass(w, events, n)
  }

  ghost predicate StartsPass(w: World, events: seq<Event>, n: nat)
    requires n < |events|
  {
    var v := Play(w, events[..n]);
    events[n].Scan? && v.pending == [] && events[n].now >= v.clock
  }

  lemma {:induction false} SlackBound(w: World, i: nat)
    requires i <= |w.rows|
    ensures TotalSlack(w, i) <= MAX_ATTEMPTS * LiveBefore(w, i)
  {
    if i > 0 {
      SlackBound(w, i - 1);
    }
  }

  /**
   * A queued message with r older live messages is picked, or leaves the queue through a digest, within
   * floor(3r / 100) + 1 passes, whatever else happens in between.
   */
  lemma PickedInTime(w: World, events: seq<Event>, i: nat)
    requires Inv(w) && i < |w.rows|
    requires Passes(w, events) > MAX_ATTEMPTS * LiveBefore(w, i) / BATCH_LIMIT
    ensures !Waiting(w, events, i)
  {
    if Waiting(w, events, i) {
      WaitingSpendsSlack(w, events, i);
      SlackBound(w, i);
    }
  }

  // ---- The jobs ----

  datatype DispatchResult = DispatchResult(picked: nat, sent: nat, failed: nat, optedOut: nat, terminal: nat)

  /** The events of one undisturbed pass whose k-th delivery comes to outcome(k) at calls(k). */
  function PassEvents(now: Time, outcome: nat -> Outcome, calls: nat -> Time, n: nat): seq<Event> {
    [Scan(now)] + seq(n, k requires 0 <= k < n => Deliver(outcome(k), calls(k)))
  }

  /** How many of the first n deliveries are of this kind. */
  function CountOf(n: nat, kind: nat -> bool): nat {
    if n == 0 then 0 else CountOf(n - 1, kind) + if kind(n - 1) then 1 else 0
  }

  // ---- Sent alone, or in a digest? ----

  /** The pass that starts here picks message i. */
  predicate PickedAt(events: seq<Event>, s: nat, i: nat) {
    s < |events| && !InPass(Play(Empty(), events[..s]), i) && InPass(Play(Empty(), events[..s + 1]), i)
  }

  predicate AwaitsDelivery(events: seq<Event>, s: nat, n: nat, i: nat) {
    forall j :: s < j <= n <= |events| ==> InPass(Play(Empty(), events[..j]), i)
  }

  /** This digest names message i in its summary. */
  predicate ListedAt(events: seq<Event>, d: nat, i: nat) {
    d < |events| && events[d].Digest? && i in events[d].sources && i < |Play(Empty(), events[..d]).rows|
  }

  /** And it still was QUEUED, so it is flipped. */
  predicate FlippedAt(events: seq<Event>, d: nat, i: nat) {
    ListedAt(events, d, i) && Play(Empty(), events[..d]).rows[i].status == Queued
  }

  /** This event hands message i to the provider. */
  predicate CalledAt(events: seq<Event>, n: nat, i: nat) {
    && n < |events| && i < |Play(Empty(), events[..n]).rows| && i < |Play(Empty(), events[..n + 1]).rows|
    && |Play(Empty(), events[..n + 1]).rows[i].sends| > |Play(Empty(), events[..n]).rows[i].sends|
  }

  /** The digest falls between the pick and the delivery. */
  ghost predicate FlippedInPass(events: seq<Event>, i: nat) {
    exists s: nat, d: nat, n: nat :: s < d < n && PickedAt(events, s, i) && AwaitsDelivery(events, s, n, i)
      && FlippedAt(events, d, i) && CalledAt(events, n, i)
  }

  /** The digest names a message that has been handed over since the digest looked. */
  ghost predicate ListedAfterCall(events: seq<Event>, i: nat) {
    exists n: nat, d: nat :: n < d && CalledAt(events, n, i) && ListedAt(events, d, i)
  }

  lemma PlayNext(events: seq<Event>, n: nat)
    requires n < |events|
    ensures Play(Empty(), events[..n + 1]) == Next(Play(Empty(), events[..n]), events[n])
  {
    assert events[..n + 1][..n] == events[..n];
  }

  /** What one event does to a message, and to its place in the pass. */
  lemma StepOfMessage(w: World, e: Event, i: nat)
    requires Inv(w) && i < |w.rows|
    ensures var w' := Next(w, e);
      && i < |w'.rows|
      && (InPass(w, i) && InPass(w', i) && w'.rows[i].status == Sent && w.rows[i].status != Sent ==>
            e.Digest? && i in e.sources && w.rows[i].status == Queued)
      && (!InPass(w, i) && InPass(w', i) ==> e.Scan? && w'.rows[i].status != Sent)
      && (w'.rows[i].sends != w.rows[i].sends ==> InPass(w, i) && e.Deliver?)
      && (e.Digest? && i in e.sources && w.rows[i].status == Queued ==> w'.rows[i].status == Sent)
  {
    hide Batch, MessageOk, Retryable, Spaced;
    match e {
      case Scan(now) => ScanOfMessage(w, now, i);
      case Deliver(_, _) => DeliverOfMessage(w, e, i);
      case Digest(_, _) => assert Next(w, e).pending == w.pending;
      case Enqueue(_, _) => assert Next(w, e).pending == w.pending;
    }
  }

  lemma ScanOfMessage(w: World, now: Time, i: nat)
    requires i < |w.rows|
    ensures Next(w, Scan(now)).rows == w.rows
    ensures !InPass(w, i) && InPass(Next(w, Scan(now)), i) ==> w.rows[i].status != Sent
    ensures w.pending != [] || now < w.clock ==> Next(w, Scan(now)) == w
  {
    hide Batch;
    BatchFacts(w.rows, now);
  }

  lemma DeliverOfMessage(w: World, e: Event, i: nat)
    requires Inv(w) && i < |w.rows| && e.Deliver?
    ensures InPass(Next(w, e), i) ==> InPass(w, i) && Next(w, e).rows[i] == w.rows[i]
    ensures Next(w, e).rows[i] != w.rows[i] ==> InPass(w, i)
  {
    hide Batch, MessageOk, Retryable, Delivered, Past, PickOk;
  }

  /** A message that awaits its delivery was picked at some scan, and has awaited it since. */
  lemma {:induction false} PickStart(events: seq<Event>, n: nat, i: nat) returns (s: nat)
    requires n <= |events| && InPass(Play(Empty(), events[..n]), i)
    ensures s < n && PickedAt(events, s, i) && AwaitsDelivery(events, s, n, i)
    decreases n
  {
    hide InPass, Next;
    if n == 0 {
      NothingYet(events, i);
    } else if InPass(Play(Empty(), events[..n - 1]), i) {
      s := PickStart(events, n - 1, i);
    } else {
      s := n - 1;
    }
  }

  lemma NothingYet(events: seq<Event>, i: nat)
    ensures Play(Empty(), events[..0]).rows == [] && !InPass(Play(Empty(), events[..0]), i)
  {
  }

  /** If it is SENT all the same, a digest has flipped it in between. */
  lemma {:induction false} FlipInPass(events: seq<Event>, n: nat, i: nat) returns (s: nat, d: nat)
    requires n <= |events| && InPass(Play(Empty(), events[..n]), i)
    requires i < |Play(Empty(), events[..n]).rows| && Play(Empty(), events[..n]).rows[i].status == Sent
    ensures s < d < n && PickedAt(events, s, i) && AwaitsDelivery(events, s, n, i) && FlippedAt(events, d, i)
    decreases n
  {
    hide InPass, Next, Inv, Play;
    if n == 0 {
      NothingYet(events, i);
    } else {
      OutboxSafe(events[..n - 1]);
      PlayNext(events, n - 1);
      var w := Play(Empty(), events[..n - 1]);
      if i < |w.rows| {
        StepOfMessage(w, events[n - 1], i);
        s := PickStart(events, n, i);
        if InPass(w, i) && w.rows[i].status == Sent {
          s, d := FlipInPass(events, n - 1, i);
        } else {
          d := n - 1;
          PickedBefore(events, s, n, i);
        }
      } else {
        NewRow(w, events[n - 1], i);
      }
    }
  }

  lemma PickedBefore(events: seq<Event>, s: nat, n: nat, i: nat)
    requires 0 < n <= |events| && s < n && PickedAt(events, s, i) && InPass(Play(Empty(), events[..n - 1]), i)
    ensures s < n - 1
  {
    hide InPass, Play;
  }

  lemma NewRow(w: World, e: Event, i: nat)
    requires Inv(w) && i >= |w.rows|
    ensures !InPass(Next(w, e), i)
    ensures i < |Next(w, e).rows| ==> Next(w, e).rows[i].status == Queued && Next(w, e).rows[i].sends == []
  {
    hide Batch, MessageOk, Retryable, Past;
    if e.Scan? {
      BatchFacts(w.rows, e.now);
    }
    assert forall k :: 0 <= k < |w.pending| ==> PickOk(w, w.pending[k]);
  }

  /** The calls of a message so far, one event each. */
  lemma {:induction false} FirstCallOf(events: seq<Event>, n: nat, i: nat) returns (c: nat)
    requires n <= |events| && i < |Play(Empty(), events[..n]).rows| && Play(Empty(), events[..n]).rows[i].sends != []
    ensures c < n && CalledAt(events, c, i) && Play(Empty(), events[..c]).rows[i].sends == []
    decreases n
  {
    hide InPass, Next, Inv, Play;
    if n == 0 {
      NothingYet(events, i);
    } else {
      OutboxSafe(events[..n - 1]);
      PlayNext(events, n - 1);
      var w := Play(Empty(), events[..n - 1]);
      if i >= |w.rows| {
        NewRow(w, events[n - 1], i);
      } else if w.rows[i].sends == [] {
        c := n - 1;
      } else {
        c := FirstCallOf(events, n - 1, i);
      }
    }
  }

  /**
   * A message is sent alone or in a digest; in which runs is it both? Exactly in those where a digest flips it between its
   * pick and its delivery, so that the pass still hands it over, or names it after it has been handed over.
   */
  lemma InBothExact(events: seq<Event>, i: nat)
    ensures (exists d: nat :: ListedAt(events, d, i)) && (exists n: nat :: CalledAt(events, n, i))
      <==> FlippedInPass(events, i) || ListedAfterCall(events, i)
  {
    hide CalledAt, ListedAt, FlippedAt, PickedAt, AwaitsDelivery;
    if d: nat, n: nat :| ListedAt(events, d, i) && CalledAt(events, n, i) {
      BothWays(events, d, n, i);
    }
    if FlippedInPass(events, i) {
      FlippedIsListed(events, i);
    }
  }

  /** Whenever a digest takes the message that is delivered next, it is in the digest and goes out alone as well. */
  lemma SentInBoth(w: World, user: nat, sources: set<nat>, at: Time)
    requires w.pending != [] && w.pending[0].index in sources
    requires w.pending[0].index < |w.rows| && w.rows[w.pending[0].index].status == Queued
    ensures var i, after := w.pending[0].index, Play(w, [Digest(user, sources), Deliver(SendOk, at)]);
      && i < |after.rows| && after.rows[i].digestedInto == Some(|w.rows|)
      && |after.rows[i].sends| == |w.rows[i].sends| + 1
  {
    hide Batch;
    var taken := Next(w, Digest(user, sources));
    assert Play(w, []) == w;
    assert Play(w, [Digest(user, sources)]) == taken by {
      assert [Digest(user, sources)][..0] == [];
    }
    assert Play(w, [Digest(user, sources), Deliver(SendOk, at)]) == Next(taken, Deliver(SendOk, at)) by {
      assert [Digest(user, sources), Deliver(SendOk, at)][..1] == [Digest(user, sources)];
    }
  }

  lemma FlippedIsListed(events: seq<Event>, i: nat)
    requires FlippedInPass(events, i)
    ensures (exists d: nat :: ListedAt(events, d, i)) && exists n: nat :: CalledAt(events, n, i)
  {
    hide CalledAt, ListedAt, PickedAt, AwaitsDelivery;
    var s: nat, d: nat, n: nat :| s < d < n && PickedAt(events, s, i) && AwaitsDelivery(events, s, n, i)
      && FlippedAt(events, d, i) && CalledAt(events, n, i);
  }

  lemma BothWays(events: seq<Event>, d: nat, n: nat, i: nat)
    requires ListedAt(events, d, i) && CalledAt(events, n, i)
    ensures FlippedInPass(events, i) || ListedAfterCall(events, i)
  {
    var c := FirstOfCalls(events, n, i);
    if c >= d {
      var s, d' := FlippedByThen(events, d, c, i);
      Flipped(events, s, d', c, i);
    }
  }

  lemma FirstOfCalls(events: seq<Event>, n: nat, i: nat) returns (c: nat)
    requires CalledAt(events, n, i)
    ensures CalledAt(events, c, i) && Play(Empty(), events[..c]).rows[i].sends == []
  {
    hide Play;
    c := FirstCallOf(events, n + 1, i);
  }

  lemma Flipped(events: seq<Event>, s: nat, d: nat, n: nat, i: nat)
    requires s < d < n && PickedAt(events, s, i) && AwaitsDelivery(events, s, n, i)
    requires FlippedAt(events, d, i) && CalledAt(events, n, i)
    ensures FlippedInPass(events, i)
  {
    hide CalledAt, FlippedAt, PickedAt, AwaitsDelivery;
  }

  /** A first call at or after a digest that names the message: the message was flipped while it awaited its delivery. */
  lemma FlippedByThen(events: seq<Event>, d: nat, c: nat, i: nat) returns (s: nat, d': nat)
    requires ListedAt(events, d, i) && d <= c && CalledAt(events, c, i) && Play(Empty(), events[..c]).rows[i].sends == []
    ensures s < d' < c && PickedAt(events, s, i) && AwaitsDelivery(events, s, c, i) && FlippedAt(events, d', i)
  {
    hide PickedAt, AwaitsDelivery, FlippedAt, Next, Play, InPass, Inv;
    var w := Play(Empty(), events[..c]);
    OutboxSafe(events[..c]);
    PlayNext(events, c);
    StepOfMessage(w, events[c], i);
    NotQueuedAfter(events, d, c, i);
    UncalledIsQueuedOrSent(w, i);
    s, d' := FlipInPass(events, c, i);
  }

  /** After a digest named it, a message is not QUEUED. */
  lemma {:induction false} NotQueuedAfter(events: seq<Event>, d: nat, c: nat, i: nat)
    requires ListedAt(events, d, i) && d < c <= |events|
    ensures i < |Play(Empty(), events[..c]).rows| && Play(Empty(), events[..c]).rows[i].status != Queued
    decreases c
  {
    hide InPass, Inv, Play;
    OutboxSafe(events[..c - 1]);
    PlayNext(events, c - 1);
    if d < c - 1 {
      NotQueuedAfter(events, d, c - 1, i);
    }
    NeverQueuedAgain(Play(Empty(), events[..c - 1]), events[c - 1], i);
  }

  lemma NeverQueuedAgain(w: World, e: Event, i: nat)
    requires i < |w.rows|
    ensures i < |Next(w, e).rows|
    ensures w.rows[i].status != Queued || (e.Digest? && i in e.sources) ==> Next(w, e).rows[i].status != Queued
  {
    hide Batch;
  }

  lemma UncalledIsQueuedOrSent(w: World, i: nat)
    requires Inv(w) && InPass(w, i) && i < |w.rows| && w.rows[i].sends == []
    ensures w.rows[i].status in {Queued, Sent}
  {
    hide Past, Spaced;
    var k :| 0 <= k < |w.pending| && w.pending[k].index == i;
    assert PickOk(w, w.pending[k]) && MessageOk(w.rows[i]);
  }

  // ---- What a message's status says of its deliveries ----

  /** This event is a delivery of message i. */
  predicate DeliveredAt(events: seq<Event>, n: nat, i: nat) {
    n < |events| && events[n].Deliver?
    && var w := Play(Empty(), events[..n]); w.pending != [] && w.pending[0].index == i && i < |w.rows|
  }

  /** A delivery that leaves nothing to do. */
  predicate DoneAt(events: seq<Event>, n: nat, i: nat) {
    DeliveredAt(events, n, i) && events[n].outcome in {NoProvider, OptedOut, SendOk}
  }

  /** A message that has been delivered successfully, or flipped. */
  ghost predicate Settled(events: seq<Event>, n: nat, i: nat) {
    exists d: nat :: d < n && (DoneAt(events, d, i) || FlippedAt(events, d, i))
  }

  ghost predicate Touched(events: seq<Event>, n: nat, i: nat) {
    exists d: nat :: d < n && (DeliveredAt(events, d, i) || FlippedAt(events, d, i))
  }

  /** A delivery whose provider call failed, with no other call since. */
  ghost predicate LastCallFailed(events: seq<Event>, d: nat, n: nat, i: nat) {
    && d < n <= |events| && DeliveredAt(events, d, i) && events[d].outcome == SendFailed && CalledAt(events, d, i)
    && forall c: nat :: d < c < n ==> !CalledAt(events, c, i)
  }

  /** One event and the status of a message. */
  lemma StatusStep(w: World, e: Event, i: nat)
    requires Inv(w) && i < |w.rows|
    ensures var w' := Next(w, e);
      var delivers := e.Deliver? && w.pending != [] && w.pending[0].index == i;
      var flips := e.Digest? && i in e.sources && w.rows[i].status == Queued;
      && i < |w'.rows| && (delivers ==> InPass(w, i))
      && (w'.rows[i].status == Sent <==>
            w.rows[i].status == Sent || flips || (delivers && e.outcome in {NoProvider, OptedOut, SendOk}))
      && (w'.rows[i].status == Queued <==> w.rows[i].status == Queued && !delivers && !flips)
      && (w'.rows[i].sends != w.rows[i].sends <==> delivers && e.outcome in {SendOk, SendFailed})
      && (w'.rows[i].nextRetryAt.Some? ==>
            || (w'.rows[i].nextRetryAt == w.rows[i].nextRetryAt && w'.rows[i].sends == w.rows[i].sends)
            || (delivers && e.outcome == SendFailed))
  {
    hide Batch, Past, Spaced;
    if e.Deliver? && w.pending != [] {
      assert PickOk(w, w.pending[0]) && MessageOk(w.rows[i]);
    }
    assert forall m: Message, s: Send :: m.sends + [s] != m.sends by {
      forall m: Message, s: Send ensures m.sends + [s] != m.sends {
        assert |m.sends + [s]| == |m.sends| + 1;
      }
    }
  }

  /**
   * Over every run: a message is SENT exactly if some delivery of it found no provider, an opt-out, or a provider that
   * accepted it, or a digest flipped it; and QUEUED exactly if neither a delivery nor a digest has taken it.
   */
  lemma {:induction false} StatusExact(events: seq<Event>, n: nat, i: nat)
    requires n <= |events| && i < |Play(Empty(), events[..n]).rows|
    ensures var m := Play(Empty(), events[..n]).rows[i];
      (m.status == Sent <==> Settled(events, n, i)) && (m.status == Queued <==> !Touched(events, n, i))
    decreases n
  {
    hide Next, Play, Inv, DoneAt, FlippedAt, DeliveredAt;
    if n == 0 {
      NothingYet(events, i);
    } else {
      OutboxSafe(events[..n - 1]);
      PlayNext(events, n - 1);
      var w := Play(Empty(), events[..n - 1]);
      if i < |w.rows| {
        StatusExact(events, n - 1, i);
        StatusStep(w, events[n - 1], i);
        TouchedStep(events, n - 1, i);
      } else {
        NewRow(w, events[n - 1], i);
        NotYetTouched(events, n, i);
      }
    }
  }

  lemma TouchedStep(events: seq<Event>, n: nat, i: nat)
    requires n < |events|
    ensures Settled(events, n + 1, i) <==> Settled(events, n, i) || DoneAt(events, n, i) || FlippedAt(events, n, i)
    ensures Touched(events, n + 1, i) <==> Touched(events, n, i) || DeliveredAt(events, n, i) || FlippedAt(events, n, i)
    ensures var w, e := Play(Empty(), events[..n]), events[n];
      i < |w.rows| ==>
        && (DeliveredAt(events, n, i) <==> e.Deliver? && w.pending != [] && w.pending[0].index == i)
        && (DoneAt(events, n, i) <==> DeliveredAt(events, n, i) && e.outcome in {NoProvider, OptedOut, SendOk})
        && (FlippedAt(events, n, i) <==> e.Digest? && i in e.sources && w.rows[i].status == Queued)
  {
    hide Play;
  }

  lemma {:induction false} NotYetTouched(events: seq<Event>, n: nat, i: nat)
    requires 0 < n <= |events| && i >= |Play(Empty(), events[..n - 1]).rows|
    ensures !Settled(events, n, i) && !Touched(events, n, i)
  {
    hide Next, Play;
    forall d: nat | d < n ensures !DeliveredAt(events, d, i) && !FlippedAt(events, d, i) {
      RowsGrow(events, d, n - 1);
    }
  }

  lemma {:induction false} RowsGrow(events: seq<Event>, m: nat, n: nat)
    requires m <= n <= |events|
    ensures |Play(Empty(), events[..m]).rows| <= |Play(Empty(), events[..n]).rows|
    decreases n
  {
    hide Next, Play;
    if m < n {
      RowsGrow(events, m, n - 1);
      PlayNext(events, n - 1);
      NextGrows(Play(Empty(), events[..n - 1]), events[n - 1]);
    }
  }

  lemma NextGrows(w: World, e: Event)
    ensures |w.rows| <= |Next(w, e).rows|
  {
    hide Batch;
  }

  /**
   * A delivery the provider accepted makes its message SENT for good, and is its last call: no later pass hands it over
   * again.
   */
  lemma {:induction false} AcceptedIsLastCall(events: seq<Event>, d: nat, n: nat, i: nat)
    requires d < n <= |events| && DeliveredAt(events, d, i) && events[d].outcome == SendOk
    ensures var before, m := Play(Empty(), events[..d]), Play(Empty(), events[..n]);
      && i < |before.rows| && i < |m.rows| && m.rows[i].status == Sent && m.rows[i].nextRetryAt == None
      && |m.rows[i].sends| == |before.rows[i].sends| + 1
      && !InPass(m, i)
    decreases n
  {
    hide Next, Play, Inv, InPass;
    OutboxSafe(events[..n - 1]);
    PlayNext(events, n - 1);
    var w := Play(Empty(), events[..n - 1]);
    if d == n - 1 {
      Accepts(w, events[d], i);
      assert Play(Empty(), events[..d]) == w;
    } else {
      AcceptedIsLastCall(events, d, n - 1, i);
      StatusStep(w, events[n - 1], i);
      StepOfMessage(w, events[n - 1], i);
    }
  }

  lemma Accepts(w: World, e: Event, i: nat)
    requires Inv(w) && e.Deliver? && e.outcome == SendOk && w.pending != [] && w.pending[0].index == i && i < |w.rows|
    ensures i < |Next(w, e).rows|
    ensures var m := Next(w, e).rows[i];
      && m.status == Sent && m.nextRetryAt == None && |m.sends| == |w.rows[i].sends| + 1 && !InPass(Next(w, e), i)
  {
    hide Batch, Past, Spaced;
    assert PickOk(w, w.pending[0]) && MessageOk(w.rows[i]);
  }

  /** A message awaits a retry only if its last call failed. */
  lemma {:induction false} RetryAfterFailure(events: seq<Event>, n: nat, i: nat) returns (d: nat)
    requires n <= |events| && i < |Play(Empty(), events[..n]).rows| && Play(Empty(), events[..n]).rows[i].nextRetryAt.Some?
    ensures LastCallFailed(events, d, n, i)
    decreases n
  {
    hide Next, Play, Inv, CalledAt;
    if n == 0 {
      NothingYet(events, i);
    } else {
      OutboxSafe(events[..n - 1]);
      PlayNext(events, n - 1);
      var w := Play(Empty(), events[..n - 1]);
      if i < |w.rows| {
        StatusStep(w, events[n - 1], i);
        SendsOnlyGrow(w, events[n - 1], i);
        CalledExact(events, n - 1, i);
        if events[n - 1].Deliver? && w.pending != [] && w.pending[0].index == i && events[n - 1].outcome == SendFailed {
          d := n - 1;
        } else {
          d := RetryAfterFailure(events, n - 1, i);
        }
      } else {
        NewRow(w, events[n - 1], i);
        NewAwaitsNothing(w, events[n - 1], i);
      }
    }
  }

  lemma NewAwaitsNothing(w: World, e: Event, i: nat)
    requires i >= |w.rows| && i < |Next(w, e).rows|
    ensures Next(w, e).rows[i].nextRetryAt == None
  {
    hide Batch;
  }

  /** The deliveries that count as an attempt: to a message not yet SENT, without an address or through a provider. */
  ghost function AttemptsMade(events: seq<Event>, n: nat, i: nat): nat
    requires n <= |events|
  {
    if n == 0 then 0
    else
      var w := Play(Empty(), events[..n - 1]);
      AttemptsMade(events, n - 1, i)
      + if DeliveredAt(events, n - 1, i) && w.rows[i].status != Sent && events[n - 1].outcome in {NoAddress, SendOk, SendFailed}
        then 1 else 0
  }

  /** Over every run the attempts of a message are exactly those deliveries. */
  lemma {:induction false} AttemptsExact(events: seq<Event>, n: nat, i: nat)
    requires n <= |events|
    ensures var rows := Play(Empty(), events[..n]).rows;
      AttemptsMade(events, n, i) == if i < |rows| then rows[i].attempts else 0
    decreases n
  {
    hide Next, Play, Inv;
    if n == 0 {
      NothingYet(events, i);
    } else {
      AttemptsExact(events, n - 1, i);
      PlayNext(events, n - 1);
      AttemptStep(Play(Empty(), events[..n - 1]), events[n - 1], i);
    }
  }

  lemma AttemptStep(w: World, e: Event, i: nat)
    ensures var before, after := if i < |w.rows| then w.rows[i].attempts else 0,
                                 if i < |Next(w, e).rows| then Next(w, e).rows[i].attempts else 0;
      after == before + if e.Deliver? && w.pending != [] && w.pending[0].index == i && i < |w.rows|
                           && w.rows[i].status != Sent && e.outcome in {NoAddress, SendOk, SendFailed} then 1 else 0
  {
    hide Batch;
  }

  lemma SendsOnlyGrow(w: World, e: Event, i: nat)
    requires i < |w.rows|
    ensures i < |Next(w, e).rows| && w.rows[i].sends <= Next(w, e).rows[i].sends
  {
    hide Batch;
  }

  lemma CalledExact(events: seq<Event>, n: nat, i: nat)
    requires n < |events| && i < |Play(Empty(), events[..n]).rows| && i < |Play(Empty(), events[..n + 1]).rows|
    requires Play(Empty(), events[..n]).rows[i].sends <= Play(Empty(), events[..n + 1]).rows[i].sends
    ensures CalledAt(events, n, i) <==> Play(Empty(), events[..n + 1]).rows[i].sends != Play(Empty(), events[..n]).rows[i].sends
  {
    hide Play;
  }

  /** The delivery leaves its message FAILED for good: no address, or the last attempt used up. */
  predicate GivesUp(p: Pick, o: Outcome) {
    o.NoAddress? || (o.SendFailed? && p.attempts + 1 >= MAX_ATTEMPTS)
  }

  /** And that is what the table says: FAILED without a retry time, unless the digest had taken the message. */
  lemma GivesUpExact(m: Message, p: Pick, o: Outcome, now: Time, at: Time)
    requires m.status != Sent && p.attempts == m.attempts
    ensures var post := Delivered(m, p.attempts, o, now, at);
      GivesUp(p, o) <==> post.status == Failed && Budget(post) == 0
  {
  }

  /** The counters of a pass, by what its deliveries came to. */
  ghost predicate Tallied(r: DispatchResult, picked: seq<Pick>, outcome: nat -> Outcome, n: nat) {
    && r.sent == CountOf(n, (k: nat) => outcome(k) in {NoProvider, SendOk})
    && r.optedOut == CountOf(n, (k: nat) => outcome(k) == OptedOut)
    && r.failed == CountOf(n, (k: nat) => outcome(k) in {NoAddress, SendFailed})
    && r.terminal == CountOf(n, (k: nat) => k < |picked| && GivesUp(picked[k], outcome(k)))
  }

  lemma NothingTallied(r: DispatchResult, picked: seq<Pick>, outcome: nat -> Outcome)
    requires r.sent == r.optedOut == r.failed == r.terminal == 0
    ensures Tallied(r, picked, outcome, 0)
  {
  }

  lemma TallyStep(r: DispatchResult, picked: seq<Pick>, outcome: nat -> Outcome, k: nat)
    requires Tallied(r, picked, outcome, k) && k < |picked|
    ensures forall r' :: Bumped(r, r', outcome(k), GivesUp(picked[k], outcome(k))) ==> Tallied(r', picked, outcome, k + 1)
  {
  }

  predicate Bumped(r: DispatchResult, r': DispatchResult, o: Outcome, givesUp: bool) {
    && r'.picked == r.picked
    && r'.sent == r.sent + (if o in {NoProvider, SendOk} then 1 else 0)
    && r'.optedOut == r.optedOut + (if o == OptedOut then 1 else 0)
    && r'.failed == r.failed + (if o in {NoAddress, SendFailed} then 1 else 0)
    && r'.terminal == r.terminal + (if givesUp then 1 else 0)
  }

  ghost predicate PassStep(w: World, outcome: nat -> Outcome, calls: nat -> Time, k: nat) {
    var before := Play(w, PassEvents(w.now, outcome, calls, k));
    Play(w, PassEvents(w.now, outcome, calls, k + 1)) == Next(before, Deliver(outcome(k), calls(k)))
  }

  lemma PassSteps(w: World, outcome: nat -> Outcome, calls: nat -> Time)
    ensures Play(w, PassEvents(w.now, outcome, calls, 0)) == Next(w, Scan(w.now))
    ensures forall k: nat :: PassStep(w, outcome, calls, k)
  {
    hide Next;
    assert PassEvents(w.now, outcome, calls, 0) == [Scan(w.now)] && [Scan(w.now)][..0] == [];
    forall k: nat ensures PassStep(w, outcome, calls, k) {
      assert PassEvents(w.now, outcome, calls, k + 1)[..k + 1] == PassEvents(w.now, outcome, calls, k);
    }
  }

  class Store {
    var rows: seq<Message>

    constructor (rows: seq<Message>)
      ensures this.rows == rows
    {
      this.rows := rows;
    }

    /** One pass of the dispatcher over this tenant: it is exactly a scan followed by its deliveries. */
    method DispatchPass(now: Time, outcome: nat -> Outcome, calls: nat -> Time) returns (r: DispatchResult)
      modifies this
      ensures r.picked == |Batch(old(rows), now)|
      ensures var w := Play(World(old(rows), [], now, now), PassEvents(now, outcome, calls, r.picked));
        w.pending == [] && rows == w.rows
      ensures Tallied(r, PicksOf(old(rows), now), outcome, r.picked)
    {
      hide Batch, Delivered, Tallied, Play, PassEvents;
      PassSteps(World(rows, [], now, now), outcome, calls);
      ghost var w0 := World(rows, [], now, now);
      BatchFacts(rows, now);
      var batch := Batch(rows, now);
      var picked, clock := Picks(rows, batch), now;
      r := DispatchResult(|picked|, 0, 0, 0, 0);
      NothingTallied(r, picked, outcome);
      for k := 0 to |picked|
        invariant |rows| == |w0.rows|
        invariant Play(w0, PassEvents(now, outcome, calls, k)) == World(rows, picked[k..], now, clock)
        invariant r.picked == |picked| && Tallied(r, picked, outcome, k)
      {
        var p, o := picked[k], outcome(k);
        ghost var before := r;
        TallyStep(r, picked, outcome, k);
        assert PassStep(w0, outcome, calls, k);
        clock := Later(calls(k), clock);
        rows := rows[p.index := Delivered(rows[p.index], p.attempts, o, now, clock)];
        match o {
          case NoProvider => r := r.(sent := r.sent + 1);
          case OptedOut => r := r.(optedOut := r.optedOut + 1);
          case NoAddress => r := r.(terminal := r.terminal + 1, failed := r.failed + 1);
          case SendOk => r := r.(sent := r.sent + 1);
          case SendFailed =>
            r := r.(failed := r.failed + 1);
            if p.attempts + 1 >= MAX_ATTEMPTS {
              r := r.(terminal := r.terminal + 1);
            }
        }
        assert Bumped(before, r, o, GivesUp(p, o));
        assert picked[k..][0] == p && picked[k..][1..] == picked[k + 1..];
      }
    }

    /** The digest of one user: collapse the oldest queued e-mails addressed to them into one new message. */
    method CollapseFor(user: nat) returns (collapsed: nat)
      modifies this
      ensures collapsed <= 500
      ensures collapsed == 0 ==> rows == old(rows)
      ensures collapsed > 0 ==> exists sources: set<nat> ::
        && |sources| == collapsed && rows == Digested(old(rows), user, sources)
        && forall i :: i in sources ==> QueuedFor(old(rows), user, i)
      ensures collapsed < 500 ==> forall i: nat :: i < |old(rows)| ==> !QueuedFor(rows, user, i)
    {
      hide Digested, Ascending;
      ghost var rows0 := rows;
      assert StrictTotal(Older);
      var all := set i: nat | i < |rows| && ForDigest(rows, user, i);
      var queued := Ascending(all, Older, DIGEST_LIMIT);
      collapsed := |queued|;
      AscendingTakes(all, Older, DIGEST_LIMIT);
      if queued == [] {
        assert all == {} && forall i: nat :: QueuedFor(rows, user, i) ==> i in all;
        return;
      }
      var sources := Members(queued);
      DistinctSize(queued);
      rows := Digested(rows, user, sources);
      DigestFlips(rows0, user, sources);
    }
  }

  /** A queued e-mail to this user. */
  ghost predicate QueuedFor(rows: seq<Message>, user: nat, i: nat) {
    i < |rows| && rows[i].status == Queued && rows[i].email && rows[i].recipient == Some(user)
  }

  predicate ForDigest(rows: seq<Message>, user: nat, i: nat) {
    i < |rows| && rows[i].status == Queued && rows[i].email && rows[i].recipient == Some(user)
  }

  /** What the digest does to each row, and the back-pointer it leaves. */
  lemma DigestFlips(rows: seq<Message>, user: nat, sources: set<nat>)
    ensures var post := Digested(rows, user, sources);
      && |post| == |rows| + 1 && post[|rows|].status == Queued && post[|rows|].recipient == Some(user)
      && forall i: nat :: i < |rows| ==>
           && (i in sources && rows[i].status == Queued <==> post[i] != rows[i])
           && (post[i] != rows[i] ==> post[i].status == Sent && post[i].digestedInto == Some(|rows|) && post[i].sends == rows[i].sends)
  {
  }
}
