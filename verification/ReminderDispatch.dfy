/**
 * The reminder dispatcher of one tenant (apps/backend/src/jobs/reminderDispatcher.ts): any number of workers claim
 * PENDING reminders and fan each one out to an IN_APP and an EMAIL message, in one transaction per reminder.
 */
module ReminderDispatch {
  import opened Ordering
  import opened Wrappers

  type Id = nat
  type UserId = nat
  type Time = int

  datatype Status = Pending | Dispatched

  datatype Reminder = Reminder(status: Status, fireCount: nat, sentAt: Option<Time>, scheduledFor: Time, deleted: bool,
                               studentId: Option<nat>, href: Option<string>, assignedTo: Option<UserId>)

  datatype Channel = InApp | Email

  datatype Message = Message(reminder: Id, channel: Channel, recipient: Option<UserId>)

  /** A row of the candidate scan, as it was then. */
  datatype Candidate = Candidate(id: Id, studentId: Option<nat>, href: Option<string>, assignedTo: Option<UserId>)

  /** One attempt to dispatch: by whichever worker, from a scan of any age. The transaction commits or rolls back. */
  datatype Claim = Claim(candidate: Candidate, fallbackAdmin: Option<UserId>, now: Time, commits: bool) {

    /** There is a thread to post to: the student's, or a synthetic one with somewhere to navigate. */
    predicate Usable() {
      candidate.studentId.Some? || candidate.href.Some?
    }

    function Recipient(): Option<UserId> {
      if candidate.assignedTo.Some? then candidate.assignedTo else fallbackAdmin
    }

    function Messages(): seq<Message> {
      if !Usable() then []
      else [Message(candidate.id, InApp, Recipient())] +
           if Recipient().Some? then [Message(candidate.id, Email, Recipient())] else []
    }
  }

  /** `won` is history: the claims that flipped their reminder and committed. */
  datatype World = World(reminders: map<Id, Reminder>, messages: seq<Message>, won: seq<Claim>)

  /** updateMany({ id, status: PENDING }) touches one row. */
  predicate Wins(w: World, c: Claim) {
    c.candidate.id in w.reminders && w.reminders[c.candidate.id].status == Pending
  }

  function Flip(r: Reminder, now: Time): Reminder {
    r.(status := Dispatched, sentAt := Some(now), fireCount := r.fireCount + 1)
  }

  /** The claim transaction. */
  function Attempt(w: World, c: Claim): World {
    if !c.commits || !Wins(w, c) then w
    else World(w.reminders[c.candidate.id := Flip(w.reminders[c.candidate.id], c.now)],
               w.messages + c.Messages(), w.won + [c])
  }

  function Attempts(w: World, claims: seq<Claim>): World {
    if claims == [] then w else Attempt(Attempts(w, claims[..|claims| - 1]), claims[|claims| - 1])
  }

  function Count(messages: seq<Message>, id: Id, channel: Channel): nat {
    if messages == [] then 0
    else
      var last := messages[|messages| - 1];
      Count(messages[..|messages| - 1], id, channel) + if last.reminder == id && last.channel == channel then 1 else 0
  }

  function WonFor(won: seq<Claim>, id: Id): seq<Claim> {
    if won == [] then []
    else WonFor(won[..|won| - 1], id) + if won[|won| - 1].candidate.id == id then [won[|won| - 1]] else []
  }

  /** What the tables say about one reminder, given the claims it has lost its PENDING status to. */
  ghost predicate Accounted(w: World, start: Reminder, id: Id) {
    var wins := WonFor(w.won, id);
    && id in w.reminders
    && |wins| <= 1
    && w.reminders[id].fireCount == start.fireCount + |wins|
    && (w.reminders[id].status == Dispatched <==> wins != [])
    && Count(w.messages, id, InApp) == (if wins != [] && wins[0].Usable() then 1 else 0)
    && Count(w.messages, id, Email) == (if wins != [] && wins[0].Usable() && wins[0].Recipient().Some? then 1 else 0)
  }

  lemma {:induction false} CountConcat(a: seq<Message>, b: seq<Message>, id: Id, channel: Channel)
    ensures Count(a + b, id, channel) == Count(a, id, channel) + Count(b, id, channel)
  {
    if b == [] {
      assert a + b == a;
    } else {
      assert (a + b)[..|a + b| - 1] == a + b[..|b| - 1];
      CountConcat(a, b[..|b| - 1], id, channel);
    }
  }

  lemma CountClaim(c: Claim, id: Id)
    ensures Count(c.Messages(), id, InApp) == (if c.Usable() && c.candidate.id == id then 1 else 0)
    ensures Count(c.Messages(), id, Email) == (if c.Usable() && c.candidate.id == id && c.Recipient().Some? then 1 else 0)
  {
    if c.Usable() {
      var inApp, email := Message(c.candidate.id, InApp, c.Recipient()), Message(c.candidate.id, Email, c.Recipient());
      assert [inApp] + [] == [inApp];
      CountOne(inApp, id, InApp);
      CountOne(inApp, id, Email);
      CountOne(email, id, InApp);
      CountOne(email, id, Email);
      CountConcat([inApp], [email], id, InApp);
      CountConcat([inApp], [email], id, Email);
    }
  }

  lemma CountOne(m: Message, id: Id, channel: Channel)
    ensures Count([m], id, channel) == if m.reminder == id && m.channel == channel then 1 else 0
  {
    assert [m][..0] == [];
  }

  lemma AttemptAccounts(w: World, c: Claim, start: Reminder, id: Id)
    requires Accounted(w, start, id)
    ensures Accounted(Attempt(w, c), start, id)
  {
    var w' := Attempt(w, c);
    if w' != w {
      assert w'.won[..|w'.won| - 1] == w.won;
      CountConcat(w.messages, c.Messages(), id, InApp);
      CountConcat(w.messages, c.Messages(), id, Email);
      CountClaim(c, id);
    }
  }

  lemma {:induction false} AttemptsAccount(w: World, claims: seq<Claim>, start: Reminder, id: Id)
    requires Accounted(w, start, id)
    ensures Accounted(Attempts(w, claims), start, id)
  {
    if claims != [] {
      AttemptsAccount(w, claims[..|claims| - 1], start, id);
      AttemptAccounts(Attempts(w, claims[..|claims| - 1]), claims[|claims| - 1], start, id);
    }
  }

  /**
   * For any number of workers, scans of any age and any rollbacks: each pending reminder yields at most one IN_APP
   * message, one EMAIL message and one fire_count increment; it is SENT with a message exactly when one claim with a
   * usable thread committed; and it stays PENDING without one while every claim on it has rolled back.
   */
  lemma DispatchedOnce(reminders: map<Id, Reminder>, claims: seq<Claim>, id: Id)
    requires id in reminders && reminders[id].status == Pending
    ensures var w := Attempts(World(reminders, [], []), claims);
      && Accounted(w, reminders[id], id)
      && (WonFor(w.won, id) == [] <==> forall k :: 0 <= k < |claims| && claims[k].candidate.id == id ==> !claims[k].commits)
  {
    AttemptsAccount(World(reminders, [], []), claims, reminders[id], id);
    FirstCommitWins(reminders, claims, id);
  }

  lemma {:induction false} FirstCommitWins(reminders: map<Id, Reminder>, claims: seq<Claim>, id: Id)
    requires id in reminders && reminders[id].status == Pending
    ensures var w := Attempts(World(reminders, [], []), claims);
      WonFor(w.won, id) == [] <==> forall k :: 0 <= k < |claims| && claims[k].candidate.id == id ==> !claims[k].commits
  {
    if claims != [] {
      var front, c := claims[..|claims| - 1], claims[|claims| - 1];
      FirstCommitWins(reminders, front, id);
      AttemptsAccount(World(reminders, [], []), front, reminders[id], id);
      var w := Attempts(World(reminders, [], []), front);
      var w' := Attempt(w, c);
      if w' != w {
        assert w'.won[..|w'.won| - 1] == w.won;
      }
      assert forall k :: 0 <= k < |front| ==> claims[k] == front[k];
    }
  }

  // ---- One worker's pass ----

  const BATCH_LIMIT := 200

  datatype Slot = Slot(scheduledFor: Time, id: Id)

  predicate Sooner(a: Slot, b: Slot) {
    a.scheduledFor < b.scheduledFor || (a.scheduledFor == b.scheduledFor && a.id < b.id)
  }

  function DueSlots(reminders: map<Id, Reminder>, now: Time): set<Slot> {
    set id | id in reminders && reminders[id].status == Pending && !reminders[id].deleted && reminders[id].scheduledFor <= now
      :: Slot(reminders[id].scheduledFor, id)
  }

  function CandidateOf(reminders: map<Id, Reminder>, id: Id): Candidate
    requires id in reminders
  {
    var r := reminders[id];
    Candidate(id, r.studentId, r.href, r.assignedTo)
  }

  /** The first BATCH_LIMIT due reminders, soonest first. */
  function BatchSlots(reminders: map<Id, Reminder>, now: Time): seq<Slot> {
    assert StrictTotal(Sooner);
    Ascending(DueSlots(reminders, now), Sooner, BATCH_LIMIT)
  }

  function CandidatesOf(reminders: map<Id, Reminder>, slots: seq<Slot>): seq<Candidate>
    requires forall k :: 0 <= k < |slots| ==> slots[k].id in reminders
  {
    seq(|slots|, k requires 0 <= k < |slots| => CandidateOf(reminders, slots[k].id))
  }

  function Batch(reminders: map<Id, Reminder>, now: Time): seq<Candidate> {
    SlotsFacts(reminders, now);
    CandidatesOf(reminders, BatchSlots(reminders, now))
  }

  lemma SlotsFacts(reminders: map<Id, Reminder>, now: Time)
    ensures var slots := BatchSlots(reminders, now);
      && |slots| <= BATCH_LIMIT
      && (forall k :: 0 <= k < |slots| ==> slots[k].id in reminders)
      && (forall j, k :: 0 <= j < k < |slots| ==> slots[j].id != slots[k].id)
      && (|DueSlots(reminders, now)| <= BATCH_LIMIT ==> DueSlots(reminders, now) == Members(slots))
  {
    hide Ascending, DueSlots;
    assert StrictTotal(Sooner);
    AscendingTakes(DueSlots(reminders, now), Sooner, BATCH_LIMIT);
    var slots := BatchSlots(reminders, now);
    forall k | 0 <= k < |slots| ensures slots[k].id in reminders {
      SlotFacts(reminders, now, slots[k]);
    }
    forall j, k | 0 <= j < k < |slots| ensures slots[j].id != slots[k].id {
      SlotFacts(reminders, now, slots[j]);
      SlotFacts(reminders, now, slots[k]);
    }
  }

  lemma BatchFacts(reminders: map<Id, Reminder>, now: Time)
    ensures var b := Batch(reminders, now);
      && |b| <= BATCH_LIMIT
      && (forall k :: 0 <= k < |b| ==> b[k].id in reminders && b[k] == CandidateOf(reminders, b[k].id))
      && (forall j, k :: 0 <= j < k < |b| ==> b[j].id != b[k].id)
      && (|DueSlots(reminders, now)| <= BATCH_LIMIT ==>
           forall s :: s in DueSlots(reminders, now) ==> exists k :: 0 <= k < |b| && b[k].id == s.id)
  {
    hide BatchSlots, DueSlots;
    SlotsFacts(reminders, now);
    var slots, b := BatchSlots(reminders, now), Batch(reminders, now);
    if |DueSlots(reminders, now)| <= BATCH_LIMIT {
      forall s | s in DueSlots(reminders, now) ensures exists k :: 0 <= k < |b| && b[k].id == s.id {
        assert s in Members(slots);
        var k :| 0 <= k < |slots| && slots[k] == s;
        assert b[k].id == s.id;
      }
    }
  }

  /**
   * What a scan picks: pending reminders, not deleted, due by now, soonest first; and when it stops at the limit, none that
   * it leaves is sooner than one that it takes.
   */
  lemma PickedAreDue(reminders: map<Id, Reminder>, now: Time)
    ensures var b := Batch(reminders, now);
      && (forall k :: 0 <= k < |b| ==> IsDue(reminders, b[k].id, now))
      && (forall j, k :: 0 <= j < k < |b| ==> reminders[b[j].id].scheduledFor <= reminders[b[k].id].scheduledFor)
      && (forall id, k :: 0 <= k < |b| && IsDue(reminders, id, now) && !Picks(b, id) ==>
            reminders[b[k].id].scheduledFor <= reminders[id].scheduledFor)
      && |b| <= 200 && (|b| < 200 ==> forall id :: IsDue(reminders, id, now) ==> Picks(b, id))
  {
    hide Ascending, Batch;
    assert StrictTotal(Sooner);
    var due, slots, b := DueSlots(reminders, now), BatchSlots(reminders, now), Batch(reminders, now);
    AscendingTakes(due, Sooner, BATCH_LIMIT);
    SlotsFacts(reminders, now);
    BatchIsSlots(reminders, now);
    forall k | 0 <= k < |b| ensures IsDue(reminders, b[k].id, now) && slots[k] == Slot(reminders[b[k].id].scheduledFor, b[k].id) {
      assert slots[k] in due;
    }
    forall id, k | 0 <= k < |b| && IsDue(reminders, id, now) && !Picks(b, id)
      ensures reminders[b[k].id].scheduledFor <= reminders[id].scheduledFor
    {
      var s := Slot(reminders[id].scheduledFor, id);
      assert s in due;
      forall j | 0 <= j < |slots| ensures slots[j] != s {
        assert b[j].id != id;
      }
      assert Sooner(slots[k], s);
    }
    if |b| < 200 {
      forall id | IsDue(reminders, id, now) ensures Picks(b, id) {
        var s := Slot(reminders[id].scheduledFor, id);
        assert s in due && s in Members(slots);
        var j :| 0 <= j < |slots| && slots[j] == s;
        assert b[j].id == id;
      }
    }
  }

  ghost predicate IsDue(reminders: map<Id, Reminder>, id: Id, now: Time) {
    && id in reminders && reminders[id].status == Pending && !reminders[id].deleted && reminders[id].scheduledFor <= now
  }

  ghost predicate Picks(b: seq<Candidate>, id: Id) {
    exists j :: 0 <= j < |b| && b[j].id == id
  }

  lemma BatchIsSlots(reminders: map<Id, Reminder>, now: Time)
    ensures var b, slots := Batch(reminders, now), BatchSlots(reminders, now);
      |b| == |slots| && forall k :: 0 <= k < |b| ==> b[k].id == slots[k].id
  {
    hide BatchSlots;
    SlotsFacts(reminders, now);
  }

  /**
   * What a winning claim writes: to the assignee the scan saw, or else to the fallback admin, one IN_APP message if there
   * is a thread, one e-mail if there is also a recipient; and the reminder carries the time of the claim.
   */
  lemma WinningClaimWrites(w: World, c: Claim)
    requires c.commits && Wins(w, c)
    ensures var after, to := Attempt(w, c), if c.candidate.assignedTo.Some? then c.candidate.assignedTo else c.fallbackAdmin;
      var thread := c.candidate.studentId.Some? || c.candidate.href.Some?;
      && after.messages == w.messages
         + (if thread then [Message(c.candidate.id, InApp, to)] else [])
         + (if thread && to.Some? then [Message(c.candidate.id, Email, to)] else [])
      && after.reminders == w.reminders[c.candidate.id := after.reminders[c.candidate.id]]
      && after.reminders[c.candidate.id].sentAt == Some(c.now) && after.reminders[c.candidate.id].status == Dispatched
  {
  }

  lemma SlotFacts(reminders: map<Id, Reminder>, now: Time, s: Slot)
    requires s in DueSlots(reminders, now)
    ensures s.id in reminders && s == Slot(reminders[s.id].scheduledFor, s.id) && CandidateOf(reminders, s.id).id == s.id
  {
  }

  /** The IN_APP messages: one per reminder a pass counts as sent. */
  function InApps(messages: seq<Message>): nat {
    if messages == [] then 0
    else InApps(messages[..|messages| - 1]) + if messages[|messages| - 1].channel == InApp then 1 else 0
  }

  function Rollbacks(claims: seq<Claim>): nat {
    if claims == [] then 0
    else Rollbacks(claims[..|claims| - 1]) + if claims[|claims| - 1].commits then 0 else 1
  }

  /** One count per claim that does not commit. */
  lemma {:induction false} RollbacksExact(claims: seq<Claim>)
    ensures Rollbacks(claims) == |RolledBack(claims)|
  {
    if claims == [] {
      assert RolledBack(claims) == {};
    } else {
      var n := |claims| - 1;
      RollbacksExact(claims[..n]);
      assert RolledBack(claims) == RolledBack(claims[..n]) + if claims[n].commits then {} else {n};
    }
  }

  ghost function RolledBack(claims: seq<Claim>): set<nat> {
    set k: nat | k < |claims| && !claims[k].commits
  }

  lemma InAppsSnoc(messages: seq<Message>, m: Message)
    ensures InApps(messages + [m]) == InApps(messages) + if m.channel == InApp then 1 else 0
  {
    assert (messages + [m])[..|messages|] == messages;
  }

  lemma AttemptPosts(w: World, c: Claim)
    ensures InApps(Attempt(w, c).messages) == InApps(w.messages) + if c.commits && Wins(w, c) && c.Usable() then 1 else 0
  {
    hide InApps, Flip;
    if c.commits && Wins(w, c) {
      if c.Usable() {
        var inApp, email := Message(c.candidate.id, InApp, c.Recipient()), Message(c.candidate.id, Email, c.Recipient());
        InAppsSnoc(w.messages, inApp);
        InAppsSnoc(w.messages + [inApp], email);
        if c.Recipient().Some? {
          assert w.messages + c.Messages() == w.messages + [inApp] + [email];
        } else {
          assert c.Messages() == [inApp];
        }
      } else {
        assert w.messages + c.Messages() == w.messages;
      }
    }
  }

  /** The world after a pass over `own`, with the claims of the peers before each of its own. */
  function PassWorld(w: World, peers: nat -> seq<Claim>, own: seq<Claim>): World {
    if own == [] then w
    else
      var n := |own| - 1;
      Attempt(Attempts(PassWorld(w, peers, own[..n]), peers(n)), own[n])
  }

  /** How many of its own claims a pass wins and can post. */
  function SentIn(w: World, peers: nat -> seq<Claim>, own: seq<Claim>): nat {
    if own == [] then 0
    else
      var n := |own| - 1;
      var before := Attempts(PassWorld(w, peers, own[..n]), peers(n));
      SentIn(w, peers, own[..n]) + if own[n].commits && own[n].Usable() && Wins(before, own[n]) then 1 else 0
  }

  datatype DispatchResult = DispatchResult(picked: nat, sent: nat, failed: nat, skipped: nat)

  class Worker {
    var world: World

    constructor (reminders: map<Id, Reminder>)
      ensures world == World(reminders, [], [])
    {
      world := World(reminders, [], []);
    }

    /**
     * One pass: a claim per candidate of the scan, in order, with any claims of the peers before each. Every candidate is
     * counted once: as sent exactly if its claim won and had a thread to post to, as failed exactly if it rolled back.
     */
    method DispatchPending(now: Time, fallbackAdmin: Option<UserId>, commits: nat -> bool, peers: nat -> seq<Claim>)
      returns (r: DispatchResult, ghost claims: seq<Claim>)
      modifies this
      ensures |claims| == |Batch(old(world).reminders, now)| == r.picked
      ensures forall k :: 0 <= k < |claims| ==>
        claims[k] == Claim(Batch(old(world).reminders, now)[k], fallbackAdmin, now, commits(k))
      ensures world == PassWorld(old(world), peers, claims)
      ensures r.sent + r.failed + r.skipped == r.picked
      ensures r.failed == Rollbacks(claims) && r.sent == SentIn(old(world), peers, claims)
    {
      hide Attempt, Attempts, Batch;
      ghost var w0 := world;
      var candidates := Batch(world.reminders, now);
      r := DispatchResult(|candidates|, 0, 0, 0);
      claims := [];
      for k := 0 to |candidates|
        invariant |claims| == k && world == PassWorld(w0, peers, claims)
        invariant r.picked == |candidates| && r.sent + r.failed + r.skipped == k
        invariant r.failed == Rollbacks(claims) && r.sent == SentIn(w0, peers, claims)
        invariant forall j :: 0 <= j < k ==> claims[j] == Claim(candidates[j], fallbackAdmin, now, commits(j))
      {
        var c := Claim(candidates[k], fallbackAdmin, now, commits(k));
        world := Attempts(world, peers(k));
        var wins := Wins(world, c);
        world := Attempt(world, c);
        ghost var before := claims;
        claims := claims + [c];
        assert claims[..k] == before;
        if !c.commits {
          r := r.(failed := r.failed + 1);       // left PENDING for the next pass
        } else if c.Usable() && wins {
          r := r.(sent := r.sent + 1);
        } else {
          r := r.(skipped := r.skipped + 1);     // nothing to post to, or claimed by a peer
        }
      }
    }
  }

  /** A pass among peers is one sequence of claims, so all that is said of any claims holds of it. */
  function AllClaims(peers: nat -> seq<Claim>, own: seq<Claim>): seq<Claim> {
    if own == [] then []
    else AllClaims(peers, own[..|own| - 1]) + peers(|own| - 1) + [own[|own| - 1]]
  }

  lemma {:induction false} AttemptsConcat(w: World, a: seq<Claim>, b: seq<Claim>)
    ensures Attempts(w, a + b) == Attempts(Attempts(w, a), b)
  {
    hide Attempt;
    if b == [] {
      assert a + b == a;
    } else {
      assert (a + b)[..|a + b| - 1] == a + b[..|b| - 1];
      AttemptsConcat(w, a, b[..|b| - 1]);
    }
  }

  lemma {:induction false} PassIsAttempts(w: World, peers: nat -> seq<Claim>, own: seq<Claim>)
    ensures PassWorld(w, peers, own) == Attempts(w, AllClaims(peers, own))
  {
    hide Attempt;
    if own != [] {
      var n := |own| - 1;
      var front := AllClaims(peers, own[..n]);
      PassIsAttempts(w, peers, own[..n]);
      AttemptsConcat(w, front, peers(n));
      AttemptsConcat(w, front + peers(n), [own[n]]);
      assert [own[n]][..0] == [];
    }
  }

  /** Messages are only ever added. */
  lemma {:induction false} AttemptsPost(w: World, claims: seq<Claim>)
    ensures InApps(Attempts(w, claims).messages) >= InApps(w.messages)
  {
    hide Attempt;
    if claims != [] {
      AttemptsPost(w, claims[..|claims| - 1]);
      AttemptPosts(Attempts(w, claims[..|claims| - 1]), claims[|claims| - 1]);
    }
  }

  /**
   * A pass counts no more as sent than the IN_APP messages written meanwhile, and exactly those it wrote if it was
   * alone.
   */
  lemma {:induction false} SentArePosted(w: World, peers: nat -> seq<Claim>, own: seq<Claim>)
    ensures InApps(PassWorld(w, peers, own).messages) >= InApps(w.messages) + SentIn(w, peers, own)
    ensures (forall k :: peers(k) == []) ==> InApps(PassWorld(w, peers, own).messages) == InApps(w.messages) + SentIn(w, peers, own)
  {
    hide Attempt, Wins;
    if own != [] {
      var n := |own| - 1;
      SentArePosted(w, peers, own[..n]);
      var before := PassWorld(w, peers, own[..n]);
      AttemptsPost(before, peers(n));
      AttemptPosts(Attempts(before, peers(n)), own[n]);
    }
  }

  /** The same world with these reminders deleted. */
  ghost function Deleted(w: World, ids: set<Id>): World {
    w.(reminders := map id | id in w.reminders ::
         if id in ids then w.reminders[id].(deleted := true) else w.reminders[id])
  }

  /**
   * A claim checks only the id and PENDING. So reminders deleted after a scan are fired by the claims of that scan exactly
   * as if they had not been: the same messages and the same winners, over any sequence of claims.
   */
  lemma {:induction false} DeletionIsIgnored(w: World, ids: set<Id>, claims: seq<Claim>)
    ensures Attempts(Deleted(w, ids), claims) == Deleted(Attempts(w, claims), ids)
  {
    hide Attempt, Deleted;
    if claims != [] {
      DeletionIsIgnored(w, ids, claims[..|claims| - 1]);
      DeletedAttempt(Attempts(w, claims[..|claims| - 1]), ids, claims[|claims| - 1]);
    }
  }

  lemma DeletedAttempt(w: World, ids: set<Id>, c: Claim)
    ensures Attempt(Deleted(w, ids), c) == Deleted(Attempt(w, c), ids)
  {
  }

  /** A scan itself picks no deleted reminder, so only a deletion after it is ignored. */
  lemma DeletedAreNotPicked(w: World, ids: set<Id>, now: Time)
    ensures forall k :: 0 <= k < |Batch(Deleted(w, ids).reminders, now)| ==> Batch(Deleted(w, ids).reminders, now)[k].id !in ids
  {
    hide Ascending;
    var reminders := Deleted(w, ids).reminders;
    SlotsFacts(reminders, now);
    assert StrictTotal(Sooner);
    AscendingTakes(DueSlots(reminders, now), Sooner, BATCH_LIMIT);
    forall k | 0 <= k < |BatchSlots(reminders, now)| ensures BatchSlots(reminders, now)[k].id !in ids {
      assert BatchSlots(reminders, now)[k] in DueSlots(reminders, now);
    }
  }

  /** A pass whose transactions all commit leaves nothing due, if the batch was large enough. */
  lemma CleanPassClears(w: World, claims: seq<Claim>, now: Time)
    requires |DueSlots(w.reminders, now)| <= BATCH_LIMIT
    requires |claims| == |Batch(w.reminders, now)|
    requires forall k :: 0 <= k < |claims| ==> claims[k].candidate == Batch(w.reminders, now)[k] && claims[k].commits
    ensures DueSlots(Attempts(w, claims).reminders, now) == {}
  {
    hide Attempts, Batch;
    BatchFacts(w.reminders, now);
    if DueSlots(Attempts(w, claims).reminders, now) != {} {
      var s :| s in DueSlots(Attempts(w, claims).reminders, now);
      StillDue(w, claims, now, s);
    }
  }

  lemma StillDue(w: World, claims: seq<Claim>, now: Time, s: Slot)
    requires s in DueSlots(Attempts(w, claims).reminders, now)
    ensures s in DueSlots(w.reminders, now)
    ensures forall k :: 0 <= k < |claims| && claims[k].candidate.id == s.id ==> !claims[k].commits
  {
    PendingUntouched(w, claims, s.id);
  }

  lemma {:induction false} PendingUntouched(w: World, claims: seq<Claim>, id: Id)
    ensures Attempts(w, claims).reminders.Keys == w.reminders.Keys
    ensures id in w.reminders && Attempts(w, claims).reminders[id].status == Pending ==>
      && Attempts(w, claims).reminders[id] == w.reminders[id]
      && forall k :: 0 <= k < |claims| && claims[k].candidate.id == id ==> !claims[k].commits
  {
    if claims != [] {
      var front := claims[..|claims| - 1];
      PendingUntouched(w, front, id);
      assert forall k :: 0 <= k < |front| ==> claims[k] == front[k];
    }
  }
}
