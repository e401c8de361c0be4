/**
 Loops that resume from a heartbeat: an activity works through an interval of items in order, records each
 finished item in a heartbeat, and when an attempt ends early the next one goes on after the heartbeat it
 finds. Shared by the retry and the recovery sample.
 */
module Resume {
  import opened Ranges

  // One attempt finished the items from `first` up to but not including `next`.
  datatype Attempt = Attempt(first: int, next: int)

  // How far the attempts have got.
  function Reached(lo: int, attempts: seq<Attempt>): int {
    if attempts == [] then lo
    else
      var last := attempts[|attempts| - 1];
      var before := Reached(lo, attempts[..|attempts| - 1]);
      if last.next > before then last.next else before
  }

  // Every attempt starts at the beginning or after some item that was finished before, perhaps long before.
  predicate Resumed(lo: int, hi: int, attempts: seq<Attempt>) {
    attempts == []
    || (var last, before := attempts[|attempts| - 1], attempts[..|attempts| - 1];
        && Resumed(lo, hi, before)
        && lo <= last.first <= Reached(lo, before)
        && last.first <= last.next <= hi)
  }

  // Every attempt starts where the one before it stopped.
  predicate ResumedAtOnce(lo: int, hi: int, attempts: seq<Attempt>) {
    attempts == []
    || (var last, before := attempts[|attempts| - 1], attempts[..|attempts| - 1];
        && ResumedAtOnce(lo, hi, before)
        && last.first == (if before == [] then lo else before[|before| - 1].next)
        && last.first <= last.next <= hi)
  }

  // All items that the attempts finished, in the order in which they did.
  function Finished(attempts: seq<Attempt>): seq<int> {
    if attempts == [] then []
    else
      var last := attempts[|attempts| - 1];
      Finished(attempts[..|attempts| - 1]) + Range(last.first, last.next)
  }

  /** However stale the heartbeats were, all items up to the furthest one reached have been finished. */
  lemma {:induction false} NothingIsSkipped(lo: int, hi: int, attempts: seq<Attempt>)
    requires lo <= hi && Resumed(lo, hi, attempts)
    ensures lo <= Reached(lo, attempts) <= hi
    ensures forall i | lo <= i < Reached(lo, attempts) :: i in Finished(attempts)
    ensures forall i | i in Finished(attempts) :: lo <= i < Reached(lo, attempts)
    decreases attempts
  {
    if attempts != [] {
      var last, before := attempts[|attempts| - 1], attempts[..|attempts| - 1];
      NothingIsSkipped(lo, hi, before);
      var range := Range(last.first, last.next);
      forall i | lo <= i < Reached(lo, attempts) ensures i in Finished(attempts) {
        if i < Reached(lo, before) {
          assert i in Finished(before);
        } else {
          assert range[i - last.first] == i;
        }
      }
    }
  }

  // One more attempt, from the beginning or after any item that was finished before.
  lemma AttemptResumes(lo: int, hi: int, attempts: seq<Attempt>, attempt: Attempt)
    requires lo <= hi && Resumed(lo, hi, attempts)
    requires attempt.first == lo || attempt.first - 1 in Finished(attempts)
    requires attempt.first <= attempt.next <= hi
    ensures Resumed(lo, hi, attempts + [attempt])
    ensures Finished(attempts + [attempt]) == Finished(attempts) + Range(attempt.first, attempt.next)
    ensures attempt.next == hi ==> Reached(lo, attempts + [attempt]) == hi
  {
    NothingIsSkipped(lo, hi, attempts);
    assert (attempts + [attempt])[..|attempts|] == attempts;
  }

  lemma {:induction false} RangesJoin(lo: int, mid: int, hi: int)
    requires lo <= mid <= hi
    ensures Range(lo, mid) + Range(mid, hi) == Range(lo, hi)
  {}

  /** With the latest heartbeat every time, every item is finished once, in order. */
  lemma {:induction false} EverythingOnce(lo: int, hi: int, attempts: seq<Attempt>)
    requires lo <= hi && ResumedAtOnce(lo, hi, attempts)
    ensures Resumed(lo, hi, attempts)
    ensures Reached(lo, attempts) == if attempts == [] then lo else attempts[|attempts| - 1].next
    ensures Finished(attempts) == Range(lo, Reached(lo, attempts)) && lo <= Reached(lo, attempts) <= hi
    decreases attempts
  {
    if attempts != [] {
      var last, before := attempts[|attempts| - 1], attempts[..|attempts| - 1];
      EverythingOnce(lo, hi, before);
      RangesJoin(lo, last.first, last.next);
    }
  }
}
