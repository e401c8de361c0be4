/**
 The recovery of recovery/recovery_workflow.go: the open executions are divided into index ranges, one
 activity each, and each activity recovers its range one execution after the other and can resume.
 */
module Recovery {
  import opened Wrappers
  import opened Ranges
  import opened Resume

  // How many activities and how many executions each; None where the source divides by zero.
  method PlanRecovery(count: nat, requested: int) returns (plan: Option<(int, int)>)
    ensures plan.None? <==> count == 0
    ensures plan.Some? ==>
      var (concurrency, batchSize) := plan.value;
      && concurrency == Min(if requested > 0 then requested else 1, count) >= 1
      && IsCeilDiv(batchSize, count, concurrency)
  {
    var concurrency := 1;
    if requested > 0 {
      concurrency := requested;
    }
    if count < concurrency {
      concurrency := count;
    }
    if concurrency == 0 {
      return None;
    }
    var batchSize := count / concurrency;
    DivisionFacts(count, concurrency);
    if count % concurrency != 0 {
      batchSize := batchSize + 1;
    }
    return Some((concurrency, batchSize));
  }

  lemma DivisionFacts(n: int, d: int)
    requires d >= 1
    ensures n == (n / d) * d + n % d && 0 <= n % d < d
    ensures (n / d + 1) * d == (n / d) * d + d && (n / d - 1) * d == (n / d) * d - d
  {}

  // The indices that activity i recovers: the last ranges may be cut off, or empty.
  function Lo(batchSize: int, count: int, i: int): int {
    Min(i * batchSize, count)
  }

  function Hi(batchSize: int, count: int, i: int): int {
    Min(i * batchSize + batchSize, count)
  }

  predicate InRange(batchSize: int, count: int, i: int, index: int) {
    Lo(batchSize, count, i) <= index < Hi(batchSize, count, i)
  }

  ghost predicate OnlyInRange(batchSize: int, count: int, i: int, index: int) {
    InRange(batchSize, count, i, index) && forall j :: InRange(batchSize, count, j, index) ==> j == i
  }

  // The activity that recovers an index.
  function Owner(batchSize: int, index: int): int
    requires batchSize >= 1
  {
    index / batchSize
  }

  lemma OwnerIsUnique(count: nat, concurrency: int, batchSize: int, index: int)
    requires concurrency >= 1 && batchSize >= 1 && IsCeilDiv(batchSize, count, concurrency)
    requires 0 <= index < count
    ensures 0 <= Owner(batchSize, index) < concurrency
    ensures forall i :: InRange(batchSize, count, i, index) <==> i == Owner(batchSize, index)
  {
    var q := Owner(batchSize, index);
    DivisionFacts(index, batchSize);
    assert q < concurrency by {
      if q >= concurrency { ProductGrows(concurrency, q, batchSize); }
    }
    assert q >= 0 by {
      if q <= -1 { ProductGrows(q, -1, batchSize); }
    }
    forall i ensures InRange(batchSize, count, i, index) <==> i == q {
      if i < q {
        ProductGrows(i + 1, q, batchSize);
        assert (i + 1) * batchSize == i * batchSize + batchSize;
      } else if i > q {
        ProductGrows(q + 1, i, batchSize);
      }
    }
  }

  /** Every index is in the range of exactly one of the activities. */
  lemma RangesPartition(count: nat, concurrency: int, batchSize: int, index: int)
    requires concurrency >= 1 && batchSize >= 1 && IsCeilDiv(batchSize, count, concurrency)
    requires 0 <= index < count
    ensures exists i | 0 <= i < concurrency :: OnlyInRange(batchSize, count, i, index)
  {
    OwnerIsUnique(count, concurrency, batchSize, index);
    assert OnlyInRange(batchSize, count, Owner(batchSize, index), index);
  }

  lemma ProductGrows(a: int, b: int, d: int)
    requires a <= b && d >= 1
    ensures a * d <= b * d
  {}

  // ---------- One activity ----------

  /**
   One attempt to recover a range. `fails` says which executions cannot be recovered in this attempt; the
   attempt ends at the first of them, with a heartbeat for the one before.
   */
  method RecoverExecutions(count: int, startIndex: int, batchSize: int, heartbeat: Option<int>, fails: int -> bool)
    returns (ok: bool, recovered: seq<int>, beat: Option<int>)
    requires startIndex >= 0
    ensures var start := if heartbeat.Some? then heartbeat.value + 1 else startIndex;
      var end := Min(startIndex + batchSize, count);
      && recovered == Range(start, start + |recovered|)
      && (forall i | i in recovered :: i < end && !fails(i))
      && (ok <==> start + |recovered| >= end)
      && (!ok ==> fails(start + |recovered|))
      && beat == if recovered == [] then heartbeat else Some(start + |recovered| - 1)
  {
    var endIndex := startIndex + batchSize;
    var index := startIndex;
    if heartbeat.Some? {
      index := heartbeat.value + 1;
    }
    ghost var start := index;
    recovered, beat := [], heartbeat;
    while index < endIndex && index < count
      invariant start <= index && recovered == Range(start, index)
      invariant forall i | i in recovered :: i < Min(endIndex, count) && !fails(i)
      invariant beat == if recovered == [] then heartbeat else Some(index - 1)
      decreases endIndex - index
    {
      if fails(index) {
        return false, recovered, beat;
      }
      recovered := recovered + [index];
      beat := Some(index);
      index := index + 1;
    }
    return true, recovered, beat;
  }

  // ---------- All activities ----------

  // The attempts of every activity; each starts at the beginning of its range or after a heartbeat.
  ghost predicate Recovering(count: nat, concurrency: int, batchSize: int, attempts: seq<seq<Attempt>>) {
    && |attempts| == concurrency
    && forall i | 0 <= i < concurrency :: Resumed(Lo(batchSize, count, i), Hi(batchSize, count, i), attempts[i])
  }

  predicate Succeeded(batchSize: int, count: int, i: int, attempts: seq<Attempt>) {
    Reached(Lo(batchSize, count, i), attempts) == Hi(batchSize, count, i)
  }

  /**
   When all activities have succeeded, after any number of attempts and however stale their heartbeats,
   every execution was recovered, and by one activity only.
   */
  lemma EveryExecutionRecovered(count: nat, concurrency: int, batchSize: int, attempts: seq<seq<Attempt>>, index: int)
    requires concurrency >= 1 && batchSize >= 1 && IsCeilDiv(batchSize, count, concurrency)
    requires Recovering(count, concurrency, batchSize, attempts)
    requires forall i | 0 <= i < concurrency :: Succeeded(batchSize, count, i, attempts[i])
    requires 0 <= index < count
    ensures forall i | 0 <= i < concurrency :: index in Finished(attempts[i]) <==> i == Owner(batchSize, index)
  {
    OwnerIsUnique(count, concurrency, batchSize, index);
    forall i | 0 <= i < concurrency ensures index in Finished(attempts[i]) <==> i == Owner(batchSize, index) {
      RangeIsOrdered(count, batchSize, i);
      NothingIsSkipped(Lo(batchSize, count, i), Hi(batchSize, count, i), attempts[i]);
      assert InRange(batchSize, count, i, index) <==> i == Owner(batchSize, index);
    }
  }

  lemma RangeIsOrdered(count: nat, batchSize: int, i: int)
    requires i >= 0 && batchSize >= 1
    ensures Lo(batchSize, count, i) <= Hi(batchSize, count, i)
  {}

  /** If moreover every attempt sees the last heartbeat, an activity recovers its range once, in order. */
  lemma ExactlyOnceWithFreshHeartbeats(count: nat, batchSize: int, i: nat, attempts: seq<Attempt>)
    requires batchSize >= 1 && ResumedAtOnce(Lo(batchSize, count, i), Hi(batchSize, count, i), attempts)
    requires Succeeded(batchSize, count, i, attempts)
    ensures Finished(attempts) == Range(Lo(batchSize, count, i), Hi(batchSize, count, i))
  {
    RangeIsOrdered(count, batchSize, i);
    EverythingOnce(Lo(batchSize, count, i), Hi(batchSize, count, i), attempts);
  }

  // ---------- Activities that are retried ----------

  // One attempt: how many heartbeats old the one is that it sees, and which executions fail in it.
  datatype Try = Try(back: nat, fails: int -> bool)

  /**
   The attempts of one activity, each with any heartbeat recorded before or none, up to the first that
   succeeds. Then it has recovered its range and nothing else.
   */
  method RecoverRange(count: nat, startIndex: nat, batchSize: nat, script: seq<Try>)
    returns (ok: bool, recovered: seq<int>, ghost attempts: seq<Attempt>)
    ensures ok ==> forall index :: index in recovered <==> Min(startIndex, count) <= index < Min(startIndex + batchSize, count)
    ensures forall index | index in recovered :: Min(startIndex, count) <= index < Min(startIndex + batchSize, count)
    ensures var lo, hi := Min(startIndex, count), Min(startIndex + batchSize, count);
      && Resumed(lo, hi, attempts) && Finished(attempts) == recovered
      && (if ok then Reached(lo, attempts) == hi else |attempts| == |script|)
  {
    ghost var lo, hi := Min(startIndex, count), Min(startIndex + batchSize, count);
    ok, recovered, attempts := false, [], [];
    var k := 0;
    while k < |script| && !ok
      invariant 0 <= k == |attempts| <= |script|
      invariant Resumed(lo, hi, attempts) && Finished(attempts) == recovered
      invariant ok ==> Reached(lo, attempts) == hi
    {
      var done;
      ghost var attempt;
      ok, done, attempt := OneAttempt(count, startIndex, batchSize, script[k], recovered, attempts);
      attempts := attempts + [attempt];
      recovered := recovered + done;
      k := k + 1;
    }
    NothingIsSkipped(lo, hi, attempts);
  }

  // Every execution recovered so far has recorded a heartbeat, and the attempt sees any of them or none.
  method OneAttempt(count: nat, startIndex: nat, batchSize: nat, t: Try, recovered: seq<int>, ghost attempts: seq<Attempt>)
    returns (ok: bool, done: seq<int>, ghost attempt: Attempt)
    requires Resumed(Min(startIndex, count), Min(startIndex + batchSize, count), attempts) && Finished(attempts) == recovered
    ensures var lo, hi := Min(startIndex, count), Min(startIndex + batchSize, count);
      && Resumed(lo, hi, attempts + [attempt]) && Finished(attempts + [attempt]) == recovered + done
      && (ok ==> Reached(lo, attempts + [attempt]) == hi)
  {
    ghost var lo, hi := Min(startIndex, count), Min(startIndex + batchSize, count);
    var heartbeat := if t.back < |recovered| then Some(recovered[|recovered| - 1 - t.back]) else None;
    NothingIsSkipped(lo, hi, attempts);
    var beat;
    ok, done, beat := RecoverExecutions(count, startIndex, batchSize, heartbeat, t.fails);
    ghost var first := if heartbeat.Some? then heartbeat.value + 1 else lo;
    assert heartbeat.Some? ==> heartbeat.value in recovered;
    EndsWithin(if heartbeat.Some? then first else startIndex, first, done, hi);
    attempt := Attempt(first, first + |done|);
    AttemptResumes(lo, hi, attempts, attempt);
  }

  lemma EndsWithin(start: int, first: int, done: seq<int>, hi: int)
    requires first <= hi && (start == first || start >= hi)
    requires done == Range(start, start + |done|) && forall i | i in done :: i < hi
    ensures done == Range(first, first + |done|) && first + |done| <= hi
  {
    if done != [] {
      assert done[0] in done && done[|done| - 1] in done;
    }
  }

  // The activity of range i.
  method RecoverPart(count: nat, batchSize: nat, i: nat, script: seq<Try>) returns (ok: bool, part: seq<int>)
    ensures ok ==> Covers(part, batchSize, count, i)
  {
    StartIsNatural(i, batchSize);
    ghost var attempts;
    ok, part, attempts := RecoverRange(count, i * batchSize, batchSize, script);
  }

  /**
   RecoverWorkflow: one activity for each range, retried on its own. When all of them have succeeded, every
   execution has been recovered, and each by one activity only.
   */
  method RecoverWorkflow(count: nat, requested: int, scripts: int -> seq<Try>)
    returns (plan: Option<(int, int)>, done: bool, recovered: seq<seq<int>>)
    ensures plan.None? <==> count == 0
    ensures plan.Some? ==> |recovered| == plan.value.0 == Min(if requested > 0 then requested else 1, count)
    ensures plan.Some? && done ==> forall index | 0 <= index < count :: OnlyIn(recovered, index)
  {
    plan := PlanRecovery(count, requested);
    done, recovered := true, [];
    if plan.None? {
      return;
    }
    var (concurrency, batchSize) := plan.value;
    PlanIsPositive(count, concurrency, batchSize);
    for i := 0 to concurrency
      invariant |recovered| == i
      invariant done ==> forall k | 0 <= k < i :: Covers(recovered[k], batchSize, count, k)
    {
      var ok, part := RecoverPart(count, batchSize, i, scripts(i));
      done := done && ok;
      recovered := recovered + [part];
    }
    if done {
      forall index | 0 <= index < count ensures OnlyIn(recovered, index) {
        CoversOnce(count, concurrency, batchSize, recovered, index);
      }
    }
  }

  ghost predicate Covers(part: seq<int>, batchSize: int, count: int, i: int) {
    forall index :: index in part <==> InRange(batchSize, count, i, index)
  }

  lemma CoversOnce(count: nat, concurrency: int, batchSize: int, recovered: seq<seq<int>>, index: int)
    requires concurrency >= 1 && batchSize >= 1 && IsCeilDiv(batchSize, count, concurrency)
    requires |recovered| == concurrency && forall k | 0 <= k < concurrency :: Covers(recovered[k], batchSize, count, k)
    requires 0 <= index < count
    ensures OnlyIn(recovered, index)
  {
    var owner := Owner(batchSize, index);
    OwnerIsUnique(count, concurrency, batchSize, index);
    forall k | 0 <= k < concurrency ensures index in recovered[k] <==> k == owner {
      CoversAt(recovered[k], batchSize, count, k, index);
    }
    assert index in recovered[owner];
  }

  lemma CoversAt(part: seq<int>, batchSize: int, count: int, i: int, index: int)
    requires Covers(part, batchSize, count, i)
    ensures index in part <==> InRange(batchSize, count, i, index)
  {}

  // The index is in exactly one of the sequences.
  ghost predicate OnlyIn(recovered: seq<seq<int>>, index: int) {
    exists i | 0 <= i < |recovered| :: index in recovered[i] && forall j | 0 <= j < |recovered| && index in recovered[j] :: j == i
  }

  lemma PlanIsPositive(count: nat, concurrency: int, batchSize: int)
    requires count >= 1 && concurrency >= 1 && IsCeilDiv(batchSize, count, concurrency)
    ensures batchSize >= 1
  {
    if batchSize <= 0 { ProductGrows(batchSize, 0, concurrency); }
  }

  lemma StartIsNatural(i: nat, batchSize: nat)
    ensures i * batchSize >= 0
  {}
}
