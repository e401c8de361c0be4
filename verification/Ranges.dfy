// Intervals of integers, as the loops over records, tasks and executions visit them.
module Ranges {
  function Range(lo: int, hi: int): (ids: seq<int>)
    ensures |ids| == if lo < hi then hi - lo else 0
    ensures forall i | 0 <= i < |ids| :: ids[i] == lo + i
    decreases hi - lo
  {
    if lo < hi then Range(lo, hi - 1) + [hi - 1] else []
  }

  function Min(a: int, b: int): int { if a <= b then a else b }

  // k is n / d, rounded up.
  predicate IsCeilDiv(k: int, n: int, d: int) {
    (k - 1) * d < n <= k * d
  }
}
