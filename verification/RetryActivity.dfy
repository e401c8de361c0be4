/**
 The unreliable activity of retryactivity/retry_activity_workflow.go and the retry policy it runs under.
 */
module RetryActivity {
  import opened Wrappers
  import opened Ranges
  import opened Resume

  // How many tasks an attempt may process before it fails; at least one is processed before it is looked at.
  function Quota(batchSize: int): int {
    if batchSize < 3 then 1 else batchSize / 3
  }

  // An attempt from task `start`: where it stops.
  function Stop(firstTask: int, batchSize: int, start: int): int {
    var end := firstTask + batchSize;
    if start >= end then start else Min(start + Quota(batchSize), end)
  }

  /**
   One attempt: the tasks it processed, the heartbeat it leaves, and whether it succeeded. It fails after a
   third of the batch, rounded down but at least one task, unless it has just processed the last one.
   */
  method BatchProcessingActivity(firstTask: int, batchSize: int, heartbeat: Option<int>)
    returns (ok: bool, processed: seq<int>, beat: Option<int>)
    ensures var start := if heartbeat.Some? then heartbeat.value + 1 else firstTask;
      && processed == Range(start, Stop(firstTask, batchSize, start))
      && (ok <==> Stop(firstTask, batchSize, start) >= firstTask + batchSize)
      && beat == if processed == [] then heartbeat else Some(Stop(firstTask, batchSize, start) - 1)
  {
    var i := if heartbeat.Some? then heartbeat.value + 1 else firstTask;
    var third := if batchSize >= 0 then batchSize / 3 else -((-batchSize) / 3);
    ghost var start := i;
    processed, beat := [], heartbeat;
    var taskProcessedInThisAttempt := 0;
    while i < firstTask + batchSize
      invariant i == start + taskProcessedInThisAttempt && taskProcessedInThisAttempt >= 0
      invariant taskProcessedInThisAttempt > 0 ==> i <= Stop(firstTask, batchSize, start)
      invariant taskProcessedInThisAttempt > 0 ==> i < start + Quota(batchSize) || i == firstTask + batchSize
      invariant processed == Range(start, i)
      invariant beat == if processed == [] then heartbeat else Some(i - 1)
    {
      processed := processed + [i];
      beat := Some(i);
      taskProcessedInThisAttempt := taskProcessedInThisAttempt + 1;
      if taskProcessedInThisAttempt >= third && i < firstTask + batchSize - 1 {
        return false, processed, beat;
      }
      i := i + 1;
    }
    return true, processed, beat;
  }

  /** An attempt that fails has processed a third of the batch, rounded down, but at least one task; one that succeeds no more. */
  lemma FailsAfterAThird(firstTask: int, batchSize: int, start: int)
    requires start < firstTask + batchSize
    ensures var done := Stop(firstTask, batchSize, start) - start;
      && done >= 1 && (done == 1 || 3 * done <= batchSize) && start + done <= firstTask + batchSize
      && (start + done < firstTask + batchSize ==> batchSize < 3 * done + 3)
  {}

  const MAXIMUM_ATTEMPTS := 5

  // In numbers: three thirds, and one more attempt for what is left over, up to two for five tasks.
  function AttemptsNeeded(batchSize: int): nat {
    if batchSize <= 1 then 1
    else if batchSize == 2 then 2
    else if batchSize == 5 then 5
    else if batchSize % 3 == 0 then 3
    else 4
  }

  lemma AttemptsInNumbers(batchSize: int, attempts: int)
    requires if batchSize >= 1 then IsCeilDiv(attempts, batchSize, Quota(batchSize)) else attempts == 1
    ensures attempts == AttemptsNeeded(batchSize)
  {
    if batchSize < 1 {
      return;
    }
    var q := Quota(batchSize);
    FiveTasksNeedFiveAttempts(batchSize, attempts);
    assert batchSize >= 3 ==> batchSize == 3 * q + batchSize % 3;
    if attempts == 1 {
      assert batchSize <= q;
    } else if attempts == 2 {
      assert q < batchSize <= 2 * q;
    } else if attempts == 3 {
      assert 2 * q < batchSize <= 3 * q;
    } else if attempts == 4 {
      assert 3 * q < batchSize <= 4 * q;
    }
  }

  /**
   The activity under its retry policy, when each attempt sees the heartbeat of the one before: it succeeds
   within the five attempts for every batch size, after the least number of attempts that a third of the
   batch each can do, and every task was processed once, in order.
   */
  method RetryWorkflow(firstTask: int, batchSize: int) returns (ok: bool, attempts: nat, processed: seq<int>)
    ensures ok && 1 <= attempts <= MAXIMUM_ATTEMPTS
    ensures processed == Range(firstTask, firstTask + batchSize)
    ensures batchSize >= 1 ==> IsCeilDiv(attempts, batchSize, Quota(batchSize))
    ensures attempts == AttemptsNeeded(batchSize)
  {
    ok, attempts, processed := false, 0, [];
    var beat := None;
    ghost var next := firstTask;
    while !ok && attempts < MAXIMUM_ATTEMPTS
      invariant attempts <= MAXIMUM_ATTEMPTS && processed == Range(firstTask, next)
      invariant firstTask <= next
      invariant beat == if next == firstTask then None else Some(next - 1)
      invariant attempts == 0 ==> next == firstTask && !ok
      invariant attempts > 0 ==> next <= firstTask + batchSize || next == firstTask
      invariant !ok ==> next == firstTask + attempts * Quota(batchSize) && (attempts > 0 ==> next < firstTask + batchSize)
      invariant ok ==> attempts > 0 && next >= firstTask + batchSize
      invariant batchSize <= 0 && attempts > 0 ==> ok && attempts == 1
      invariant ok && batchSize >= 1 ==> IsCeilDiv(attempts, batchSize, Quota(batchSize))
      decreases MAXIMUM_ATTEMPTS - attempts
    {
      var succeeded, done, last := BatchProcessingActivity(firstTask, batchSize, beat);
      ghost var stop := Stop(firstTask, batchSize, next);
      RangesJoin(firstTask, next, stop);
      assert (attempts + 1) * Quota(batchSize) == attempts * Quota(batchSize) + Quota(batchSize);
      processed := processed + done;
      beat := last;
      next := stop;
      ok := succeeded;
      attempts := attempts + 1;
    }
    AttemptsInNumbers(batchSize, attempts);
  }

  /** The fifth attempt is needed for five tasks, and for no other number. */
  lemma FiveTasksNeedFiveAttempts(batchSize: int, attempts: int)
    requires batchSize >= 1 && IsCeilDiv(attempts, batchSize, Quota(batchSize))
    ensures 1 <= attempts <= MAXIMUM_ATTEMPTS
    ensures attempts == MAXIMUM_ATTEMPTS <==> batchSize == 5
  {
    if attempts <= 0 {
      MoreAttempts(attempts, 0, Quota(batchSize));
    } else if attempts >= 6 {
      MoreAttempts(5, attempts - 1, Quota(batchSize));
    }
  }

  lemma MoreAttempts(a: int, b: int, quota: int)
    requires a <= b && quota >= 1
    ensures a * quota <= b * quota
  {}

  // ---------- Stale heartbeats ----------

  // Attempts that each start after some heartbeat recorded before, and stop where the activity does.
  predicate Attempts(firstTask: int, batchSize: int, attempts: seq<Attempt>) {
    && Resumed(firstTask, firstTask + batchSize, attempts)
    && forall k | 0 <= k < |attempts| :: attempts[k].next == Stop(firstTask, batchSize, attempts[k].first)
  }

  /** If an attempt succeeds, no task was skipped, whichever earlier heartbeats the attempts saw. */
  lemma StaleHeartbeatsSkipNothing(firstTask: int, batchSize: nat, attempts: seq<Attempt>)
    requires Attempts(firstTask, batchSize, attempts) && attempts != []
    requires attempts[|attempts| - 1].next >= firstTask + batchSize
    ensures forall i | firstTask <= i < firstTask + batchSize :: i in Finished(attempts)
  {
    NothingIsSkipped(firstTask, firstTask + batchSize, attempts);
  }
}
