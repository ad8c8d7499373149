/**
 * The job runner (apps/backend/src/jobs/runner.ts) around the advisory lock (apps/backend/src/jobs/lock.ts): what it
 * attempts, and what the JobRun table says afterwards, for every pattern of failures.
 */
module Runner {
  import opened Wrappers

  datatype Status = Running | Succeeded | Partial | Failed | SkippedLocked

  datatype Outcome = Outcome(rowsProcessed: nat, rowsFailed: nat)

  /**
   * Which statements fail in one run. `job(i)` is what attempt i returns, or None if it throws; `voidError` says that its
   * last error is `undefined`, of which no message can be made.
   */
  datatype Script = Script(
    lockQuery: Option<bool>,     // None: the lock statement itself throws
    unlocks: bool,
    insertsRunning: bool,
    recordsDone: bool,
    recordsFailed: bool,
    insertsSkipped: bool,
    insertsLockFailed: bool,
    job: nat -> Option<Outcome>,
    voidError: bool)

  /** Everything the runner attempts, in order, whether or not it works. */
  datatype Effect =
    | QueryLock | InsertRunning | Call(attempt: nat) | RecordDone(status: Status) | RecordFailed | Unlock
    | InsertSkipped | InsertLockFailed

  function Max(attempts: int): nat {
    if attempts > 1 then attempts else 1
  }

  /** How many times the job is called: up to the first success, at most `max`. */
  function CallsMade(job: nat -> Option<Outcome>, max: nat): nat {
    if max == 0 then 0
    else
      var n := CallsMade(job, max - 1);
      if n < max - 1 || (n > 0 && job(n - 1).Some?) then n else max
  }

  function CallTrace(n: nat): seq<Effect> {
    seq(n, i requires 0 <= i < n => Call(i))
  }

  /** What withRetry returns: the outcome of the last call. */
  function RetryResult(s: Script, attempts: int): Option<Outcome> {
    var n := CallsMade(s.job, Max(attempts));
    if n == 0 then None else s.job(n - 1)
  }

  function DoneStatus(o: Outcome): Status {
    if o.rowsFailed > 0 then Partial else Succeeded
  }

  /** The failure handler itself throws: it cuts to length the message of an error that has none. */
  predicate BodyThrows(s: Script, attempts: int) {
    RetryResult(s, attempts).None? && s.voidError
  }

  /** The body that runs under the lock. */
  function LockedTrace(s: Script, attempts: int): seq<Effect> {
    [InsertRunning] + CallTrace(CallsMade(s.job, Max(attempts))) +
    if !s.insertsRunning then []
    else match RetryResult(s, attempts)
      case None => if s.voidError then [] else [RecordFailed]
      case Some(o) => if s.recordsDone then [RecordDone(DoneStatus(o))] else [RecordDone(DoneStatus(o)), RecordFailed]
  }

  function JobTrace(s: Script, attempts: int): seq<Effect> {
    match s.lockQuery
    case None => [QueryLock, InsertLockFailed]
    case Some(false) => [QueryLock, InsertSkipped]
    case Some(true) =>
      [QueryLock] + LockedTrace(s, attempts) + [Unlock] +
      if BodyThrows(s, attempts) then [InsertLockFailed] else if s.insertsRunning then [] else [InsertSkipped]
  }

  /** What the locked body leaves of its own row. */
  function BodyRows(s: Script, attempts: int): seq<Status> {
    if !s.insertsRunning then []
    else match RetryResult(s, attempts)
      case Some(o) => if s.recordsDone then [DoneStatus(o)] else if s.recordsFailed then [Failed] else [Running]
      case None => if s.recordsFailed && !s.voidError then [Failed] else [Running]
  }

  /** The rows a run adds to the JobRun table. */
  function JobRows(s: Script, attempts: int): seq<Status> {
    match s.lockQuery
    case None => if s.insertsLockFailed then [Failed] else []
    case Some(false) => if s.insertsSkipped then [SkippedLocked] else []
    case Some(true) =>
      BodyRows(s, attempts) +
      if BodyThrows(s, attempts) then if s.insertsLockFailed then [Failed] else []
      else if !s.insertsRunning && s.insertsSkipped then [SkippedLocked] else []
  }

  class JobStore {
    var runs: seq<Status>
    var trace: seq<Effect>
    var held: bool   // this session holds the advisory lock

    constructor ()
      ensures runs == [] && trace == [] && !held
    {
      runs, trace, held := [], [], false;
    }

    /** Retry with backoff: the outcome of the first success, or the last failure. */
    method WithRetry(s: Script, attempts: int) returns (r: Option<Outcome>)
      modifies this`trace
      ensures r == RetryResult(s, attempts)
      ensures trace == old(trace) + CallTrace(CallsMade(s.job, Max(attempts)))
    {
      var max := Max(attempts);
      r := None;
      var i := 0;
      while i < max
        invariant 0 <= i <= max && CallsMade(s.job, i) == i
        invariant i > 0 ==> s.job(i - 1) == None
        invariant r == None
        invariant trace == old(trace) + CallTrace(i)
      {
        trace := trace + [Call(i)];
        assert CallTrace(i + 1) == CallTrace(i) + [Call(i)];
        r := s.job(i);
        i := i + 1;
        if r.Some? {
          CallsStop(s.job, i, max);
          return;
        }
      }
    }

    /** Insert RUNNING, run under retry, persist the outcome; it throws only where the failure handler does. */
    method Locked(s: Script, attempts: int) returns (r: Result<Option<nat>, ()>)
      modifies this`trace, this`runs
      ensures trace == old(trace) + LockedTrace(s, attempts)
      ensures r.Err? <==> BodyThrows(s, attempts)
      ensures r.Ok? ==> (r.value.Some? <==> s.insertsRunning)
      ensures runs == old(runs) + BodyRows(s, attempts)
    {
      var runId: Option<nat> := None;
      trace := trace + [InsertRunning];
      if s.insertsRunning {
        runs := runs + [Running];
        runId := Some(|runs| - 1);
      }
      var out := WithRetry(s, attempts);
      var threw := out.None?;
      if out.Some? && runId.Some? {
        var status := DoneStatus(out.value);
        trace := trace + [RecordDone(status)];
        if s.recordsDone {
          runs := runs[runId.value := status];
        } else {
          threw := true;   // the failed update lands in the same catch as a failed job
        }
      }
      var noMessage := out.None? && s.voidError;
      if threw && runId.Some? && !noMessage {
        trace := trace + [RecordFailed];
        if s.recordsFailed {
          runs := runs[runId.value := Failed];
        }
      }
      if threw && noMessage {
        return Err(());   // cutting the message to length, for the audit entry
      }
      r := Ok(runId);
    }

    /**
     * Fail-closed locking: Err when the lock statement or the body throws, Ok(None) when another session holds the
     * lock.
     */
    method WithJobLock(s: Script, attempts: int) returns (r: Result<Option<nat>, ()>)
      requires !held
      modifies this
      ensures r.Err? <==> s.lockQuery == None || (s.lockQuery == Some(true) && BodyThrows(s, attempts))
      ensures r.Ok? ==> (r.value.Some? <==> s.lockQuery == Some(true) && s.insertsRunning)
      ensures held <==> s.lockQuery == Some(true) && !s.unlocks
      ensures trace == old(trace) + [QueryLock] +
        if s.lockQuery == Some(true) then LockedTrace(s, attempts) + [Unlock] else []
      ensures runs == old(runs) + if s.lockQuery == Some(true) then BodyRows(s, attempts) else []
    {
      hide LockedTrace, BodyRows, BodyThrows;
      trace := trace + [QueryLock];
      if s.lockQuery == None {
        return Err(());
      }
      if !s.lockQuery.value {
        return Ok(None);
      }
      held := true;
      r := Locked(s, attempts);
      trace := trace + [Unlock];   // finally
      if s.unlocks {
        held := false;
      }
    }

    /** Always returns; what it attempted and recorded is a function of the failures alone. */
    method RunJob(s: Script, attempts: Option<int>) returns (runId: Option<nat>)
      requires !held
      modifies this
      ensures trace == old(trace) + JobTrace(s, if attempts.Some? then attempts.value else 3)
      ensures runs == old(runs) + JobRows(s, if attempts.Some? then attempts.value else 3)
      ensures held <==> s.lockQuery == Some(true) && !s.unlocks
    {
      hide LockedTrace, RetryResult, CallsMade, BodyRows, BodyThrows;
      var max := if attempts.Some? then attempts.value else 3;
      var locked := WithJobLock(s, max);
      match locked {
        case Ok(Some(id)) =>
          runId := Some(id);
        case Ok(None) =>
          trace := trace + [InsertSkipped];
          runId := None;
          if s.insertsSkipped {
            runs := runs + [SkippedLocked];
            runId := Some(|runs| - 1);
          }
        case Err(_) =>
          trace := trace + [InsertLockFailed];
          runId := None;
          if s.insertsLockFailed {
            runs := runs + [Failed];
          }
      }
    }
  }

  lemma {:induction false} CallsStop(job: nat -> Option<Outcome>, n: nat, max: nat)
    requires 0 < n <= max && CallsMade(job, n) == n && job(n - 1).Some?
    ensures CallsMade(job, max) == n
    decreases max
  {
    if n < max {
      CallsStop(job, n, max - 1);
    }
  }

  /** The job is called at least once, at most `max` times, and never again after it has returned. */
  lemma {:induction false} CallsBounded(job: nat -> Option<Outcome>, max: nat)
    ensures CallsMade(job, max) <= max && (max > 0 ==> CallsMade(job, max) > 0)
    ensures forall k :: 0 <= k < CallsMade(job, max) - 1 ==> job(k) == None
    ensures CallsMade(job, max) < max ==> job(CallsMade(job, max) - 1).Some?
  {
    if max > 0 {
      CallsBounded(job, max - 1);
    }
  }

  ghost predicate Attempts(trace: seq<Effect>, e: Effect) {
    exists i :: 0 <= i < |trace| && trace[i] == e
  }

  /**
   * For every failure pattern: calls happen exactly when the lock was taken, in order, before the unlock; the unlock is
   * the only one and is issued exactly when the lock was taken; and the job never runs twice past a success.
   */
  lemma TraceIsSafe(s: Script, attempts: int)
    ensures var trace, n := JobTrace(s, attempts), CallsMade(s.job, Max(attempts));
      && 1 <= n <= Max(attempts) && (forall k :: 0 <= k < n - 1 ==> s.job(k) == None)
      && (forall i :: 0 <= i < |trace| && trace[i].Call? ==> s.lockQuery == Some(true) && trace[i] == Call(i - 2) && i - 2 < n)
      && (s.lockQuery == Some(true) ==> forall k :: 0 <= k < n ==> 2 + k < |trace| && trace[2 + k] == Call(k))
      && (Attempts(trace, Unlock) <==> s.lockQuery == Some(true))
      && (forall i, j :: 0 <= i < |trace| && 0 <= j < |trace| && trace[i] == Unlock && (trace[j] == Unlock || trace[j].Call?) ==> j <= i)
  {
    hide LockedTrace, CallsMade;
    CallsBounded(s.job, Max(attempts));
    var trace := JobTrace(s, attempts);
    if s.lockQuery == Some(true) {
      BodyShape(s, attempts);
      var body := LockedTrace(s, attempts);
      assert forall i :: 0 <= i < |body| ==> trace[1 + i] == body[i];
      assert trace[1 + |body|] == Unlock;
      forall i | 0 <= i < |trace| && (trace[i].Call? || trace[i] == Unlock)
        ensures i <= 1 + |body| && (trace[i] == Unlock <==> i == 1 + |body|)
        ensures trace[i].Call? ==> trace[i] == Call(i - 2) && i - 2 < CallsMade(s.job, Max(attempts))
      {
        if 1 <= i <= |body| {
          assert trace[i] == body[i - 1];
        }
      }
    } else {
      assert forall i :: 0 <= i < |trace| ==> trace[i] in {QueryLock, InsertSkipped, InsertLockFailed};
    }
  }

  lemma BodyShape(s: Script, attempts: int)
    ensures var body, n := LockedTrace(s, attempts), CallsMade(s.job, Max(attempts));
      && |body| >= 1 + n
      && (forall k :: 0 <= k < n ==> body[1 + k] == Call(k))
      && (forall i :: 0 <= i < |body| ==> body[i] != Unlock && body[i] != InsertSkipped && (body[i].Call? <==> 1 <= i <= n))
  {
    hide CallsMade;
    var body, n := LockedTrace(s, attempts), CallsMade(s.job, Max(attempts));
    assert body[0] == InsertRunning;
    assert body[1..1 + n] == CallTrace(n);
    assert forall k :: 0 <= k < n ==> body[1 + k] == CallTrace(n)[k];
  }

  /**
   * SKIPPED_LOCKED is attempted when the lock was not taken, and also when it was but the RUNNING insert failed and the body
   * returned: its null run id is read as "lock held". With the insert, it is attempted exactly when the lock was not taken.
   */
  lemma SkippedExact(s: Script, attempts: int)
    ensures Attempts(JobTrace(s, attempts), InsertSkipped) <==>
      s.lockQuery == Some(false) || (s.lockQuery == Some(true) && !s.insertsRunning && !BodyThrows(s, attempts))
  {
    var trace := JobTrace(s, attempts);
    match s.lockQuery {
      case Some(true) =>
        var body := LockedTrace(s, attempts);
        BodyShape(s, attempts);
        assert !s.insertsRunning && !BodyThrows(s, attempts) ==> trace[|trace| - 1] == InsertSkipped;
      case Some(false) => assert trace[1] == InsertSkipped;
      case None =>
    }
  }

  /** The misreading, concretely: the job ran and succeeded, and the only row says it was skipped. */
  lemma SucceededButSkipped()
    ensures exists s: Script ::
      RetryResult(s, 3) == Some(Outcome(1, 0)) && s.lockQuery == Some(true) && JobRows(s, 3) == [SkippedLocked]
  {
    var s := Script(Some(true), true, false, true, true, true, true, (i: nat) => Some(Outcome(1, 0)), false);
    CallsBounded(s.job, 3);
    assert JobRows(s, 3) == [SkippedLocked];
  }

  /**
   * What a run attempts to record: the outcome exactly if the job succeeded and has a row; a failure exactly if the job
   * failed with a message, or the outcome could not be stored; and a lock failure if the lock statement or the body throws.
   */
  lemma RecordsExact(s: Script, attempts: int)
    ensures var trace, last, locked := JobTrace(s, attempts), RetryResult(s, attempts), s.lockQuery == Some(true);
      && (Attempts(trace, InsertRunning) <==> locked)
      && (forall status :: Attempts(trace, RecordDone(status)) <==>
            locked && s.insertsRunning && last.Some? && status == if last.value.rowsFailed > 0 then Partial else Succeeded)
      && (Attempts(trace, RecordFailed) <==>
            locked && s.insertsRunning && if last.Some? then !s.recordsDone else !s.voidError)
      && (Attempts(trace, InsertLockFailed) <==> s.lockQuery == None || (locked && last.None? && s.voidError))
      && (JobRows(s, attempts) == [] <==>
            || (s.lockQuery == None && !s.insertsLockFailed) || (s.lockQuery == Some(false) && !s.insertsSkipped)
            || (locked && !s.insertsRunning && if last.None? && s.voidError then !s.insertsLockFailed else !s.insertsSkipped))
      && (s.lockQuery == None && s.insertsLockFailed ==> JobRows(s, attempts) == [Failed])
      && (s.lockQuery == Some(false) && s.insertsSkipped ==> JobRows(s, attempts) == [SkippedLocked])
  {
    var trace := JobTrace(s, attempts);
    if s.lockQuery == Some(true) {
      var n := CallsMade(s.job, Max(attempts));
      assert trace[1] == InsertRunning && forall i :: 2 <= i < n + 2 ==> trace[i].Call?;
      if s.insertsRunning && |trace| > n + 2 {
        assert trace[n + 2] == (if RetryResult(s, attempts).None? && s.voidError then Unlock
                                else if RetryResult(s, attempts).Some? then RecordDone(DoneStatus(RetryResult(s, attempts).value))
                                else RecordFailed);
      }
      LastEffects(s, attempts);
    } else if s.lockQuery == None {
      assert trace[1] == InsertLockFailed;
    }
  }

  lemma LastEffects(s: Script, attempts: int)
    requires s.lockQuery == Some(true)
    ensures var trace, last := JobTrace(s, attempts), RetryResult(s, attempts);
      && (s.insertsRunning && last.Some? && !s.recordsDone ==> trace[|trace| - 2] == RecordFailed)
      && (last.None? && s.voidError ==> trace[|trace| - 1] == InsertLockFailed)
  {
  }

  /** A job that always rejects is called exactly max(1, attempts) times; one that succeeds at once, exactly once. */
  lemma CallsExact(job: nat -> Option<Outcome>, attempts: int)
    ensures (forall k :: job(k) == None) ==> CallsMade(job, Max(attempts)) == if attempts > 1 then attempts else 1
    ensures job(0).Some? ==> CallsMade(job, Max(attempts)) == 1
  {
    CallsBounded(job, Max(attempts));
  }

  /**
   * When are the rows a run leaves behind true? A run that took the lock and inserted its row records a success exactly
   * when the job succeeded and the final update worked; a success whose update fails is recorded as FAILED, or not at all.
   * A failure without a message keeps the row RUNNING and tries to add a second one.
   */
  lemma RowsExact(s: Script, attempts: int)
    requires s.lockQuery == Some(true) && s.insertsRunning
    ensures var rows, succeeded := JobRows(s, attempts), RetryResult(s, attempts).Some?;
      && |rows| == (if BodyThrows(s, attempts) && s.insertsLockFailed then 2 else 1)
      && (|rows| == 2 ==> rows[1] == Failed)
      && (rows[0] in {Succeeded, Partial} <==> succeeded && s.recordsDone)
      && (succeeded && s.recordsDone ==>
            (rows[0] == Partial <==> RetryResult(s, attempts).value.rowsFailed > 0)
            && (rows[0] == Succeeded <==> RetryResult(s, attempts).value.rowsFailed == 0))
      && (rows[0] == Failed <==> !(succeeded && s.recordsDone) && s.recordsFailed && !BodyThrows(s, attempts))
      && (rows[0] == Running <==> !(succeeded && s.recordsDone) && (!s.recordsFailed || BodyThrows(s, attempts)))
      && (succeeded <==> exists k :: 0 <= k < Max(attempts) && s.job(k).Some?)
  {
    CallsBounded(s.job, Max(attempts));
  }
}
