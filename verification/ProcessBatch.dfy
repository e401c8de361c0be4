/**
 The parent of batch-sliding-window/batch_workflow.go: it divides the records and the window among
 partitions, runs one sliding-window chain per partition and adds up what they return.
 */
module ProcessBatch {
  import opened Wrappers
  import opened Ranges
  import opened SlidingWindow
  import opened WindowAccounting

  // Go's division truncates towards zero.
  function GoDiv(a: int, b: int): int
    requires b > 0
  {
    if a >= 0 then a / b else -((-a) / b)
  }

  function GoMod(a: int, b: int): int
    requires b > 0
  {
    if a >= 0 then a % b else -((-a) % b)
  }

  lemma DivMod(a: int, b: int)
    requires b > 0
    ensures a == GoDiv(a, b) * b + GoMod(a, b)
    ensures -b < GoMod(a, b) < b
    ensures if a >= 0 then 0 <= GoMod(a, b) && 0 <= GoDiv(a, b) else GoMod(a, b) <= 0
  {
    if a >= 0 {
      NatDivMod(a, b);
    } else {
      NatDivMod(-a, b);
      NegatedProduct((-a) / b, b);
    }
  }

  lemma NatDivMod(a: int, b: int)
    requires a >= 0 && b > 0
    ensures a == (a / b) * b + a % b && 0 <= a % b < b && a / b >= 0
  {}

  lemma NegatedProduct(q: int, b: int)
    ensures (-q) * b == -(q * b)
  {}

  function Sum(s: seq<int>): int {
    if s == [] then 0 else Sum(s[..|s| - 1]) + s[|s| - 1]
  }

  // n parts of size base, the first of them one larger.
  function Parts(base: int, remainder: int, n: nat): seq<int> {
    seq(n, i => base + if i < remainder then 1 else 0)
  }

  function Partition(number: int, n: int): seq<int>
    requires n >= 1
  {
    Parts(GoDiv(number, n), GoMod(number, n), n)
  }

  // Null where the source panics: it divides by n, and makes a slice of length n.
  method DivideIntoPartitions(number: int, n: int) returns (partitions: array?<int>)
    ensures n < 1 ==> partitions == null
    ensures n >= 1 ==> partitions != null && fresh(partitions) && partitions[..] == Partition(number, n)
  {
    if n < 1 {
      return null;
    }
    var base := GoDiv(number, n);
    var remainder := GoMod(number, n);
    DivMod(number, n);
    partitions := new int[n];
    var i := 0;
    while i < n
      invariant 0 <= i <= n
      invariant forall k | 0 <= k < i :: partitions[k] == base
    {
      partitions[i] := base;
      i := i + 1;
    }
    i := 0;
    while i < remainder
      invariant 0 <= i && (i <= remainder || i == 0)
      invariant forall k | 0 <= k < n :: partitions[k] == base + if k < i then 1 else 0
    {
      partitions[i] := partitions[i] + 1;
      i := i + 1;
    }
  }

  lemma TimesSuccessor(k: int, base: int)
    ensures k * base == (k - 1) * base + base
  {}

  lemma {:induction false} PrefixSum(base: int, remainder: int, n: nat, k: nat)
    requires k <= n
    ensures Sum(Parts(base, remainder, n)[..k]) == k * base + if remainder < 0 then 0 else Min(k, remainder)
    decreases k
  {
    var p := Parts(base, remainder, n);
    if k > 0 {
      PrefixSum(base, remainder, n, k - 1);
      assert p[..k][..k - 1] == p[..k - 1];
      TimesSuccessor(k, base);
    }
  }

  /** The parts add up to the number, less the remainder when the number is negative. */
  lemma PartsAddUp(number: int, n: int)
    requires n >= 1
    ensures Sum(Partition(number, n)) == number - if number >= 0 then 0 else GoMod(number, n)
  {
    DivMod(number, n);
    PrefixSum(GoDiv(number, n), GoMod(number, n), n, n);
    assert Partition(number, n)[..n] == Partition(number, n);
  }

  // So they add up to the number exactly when it is not negative, or divides evenly.
  lemma PartsAddUpExactly(number: int, n: int)
    requires n >= 1
    ensures Sum(Partition(number, n)) == number <==> number >= 0 || GoMod(number, n) == 0
  {
    PartsAddUp(number, n);
  }

  lemma PartsAreEven(number: int, n: int, i: nat, j: nat)
    requires n >= 1 && i < j < n
    ensures 0 <= Partition(number, n)[i] - Partition(number, n)[j] <= 1
  {}

  lemma PartsAreNatural(number: int, n: int)
    requires n >= 1 && number >= 0
    ensures forall i | 0 <= i < n :: Partition(number, n)[i] >= 0
  {
    DivMod(number, n);
  }

  lemma PartsArePositive(number: int, n: int)
    requires number >= n >= 1
    ensures forall i | 0 <= i < n :: Partition(number, n)[i] >= 1
  {
    DivMod(number, n);
    ProductTooSmall(GoDiv(number, n), n);
  }

  lemma ProductTooSmall(q: int, n: int)
    requires n >= 1
    ensures q <= 0 ==> q * n <= 0
  {}

  datatype BatchError = InvalidInput | Panic

  function PartitionInput(recordCount: int, pageSize: int, windowSize: int, n: int, i: nat): Input
    requires n >= 1 && i < n
  {
    var parts := Partition(recordCount, n);
    var offset := Sum(parts[..i]);
    FirstInput(pageSize, Partition(windowSize, n)[i], offset, Min(offset + parts[i], recordCount))
  }

  // The inputs of the children, in the order in which they are started.
  method StartPartitions(recordCount: int, pageSize: int, windowSize: int, n: int) returns (r: Result<seq<Input>, BatchError>)
    ensures windowSize < n ==> r == Err(InvalidInput)
    ensures windowSize >= n && n < 1 ==> r == Err(Panic)
    ensures windowSize >= n >= 1 ==>
      && r.Ok? && |r.value| == n
      && forall i | 0 <= i < n :: r.value[i] == PartitionInput(recordCount, pageSize, windowSize, n, i)
  {
    if windowSize < n {
      return Err(InvalidInput);
    }
    var sizes := DivideIntoPartitions(recordCount, n);
    if sizes == null {
      return Err(Panic);
    }
    var partitions := sizes[..];
    var windows := DivideIntoPartitions(windowSize, n);
    var windowSizes := windows[..];
    var inputs := [];
    var offset := 0;
    var i := 0;
    while i < n
      invariant 0 <= i <= n && offset == Sum(partitions[..i])
      invariant |inputs| == i
      invariant forall k | 0 <= k < i :: inputs[k] == PartitionInput(recordCount, pageSize, windowSize, n, k)
    {
      var maximumPartitionOffset := offset + partitions[i];
      if maximumPartitionOffset > recordCount {
        maximumPartitionOffset := recordCount;
      }
      inputs := inputs + [FirstInput(pageSize, windowSizes[i], offset, maximumPartitionOffset)];
      assert partitions[..i + 1][..i] == partitions[..i];
      offset := offset + partitions[i];
      i := i + 1;
    }
    return Ok(inputs);
  }

  // Waits for the children in order; the first error ends the batch.
  method AddResults(results: seq<Result<int, string>>) returns (r: Result<int, string>)
    ensures r.Ok? <==> forall i | 0 <= i < |results| :: results[i].Ok?
    ensures r.Ok? ==> r.value == Sum(seq(|results|, i requires 0 <= i < |results| && results[i].Ok? => results[i].value))
    ensures r.Err? ==> exists i | 0 <= i < |results| ::
      results[i] == r && forall k | 0 <= k < i :: results[k].Ok?
  {
    var result := 0;
    ghost var values := [];
    var i := 0;
    while i < |results|
      invariant 0 <= i <= |results| && forall k | 0 <= k < i :: results[k].Ok?
      invariant |values| == i && (forall k | 0 <= k < i :: values[k] == results[k].value) && result == Sum(values)
    {
      if results[i].Err? {
        return results[i];
      }
      result := result + results[i].value;
      assert (values + [results[i].value])[..i] == values;
      values := values + [results[i].value];
      i := i + 1;
    }
    assert values == seq(|results|, i requires 0 <= i < |results| && results[i].Ok? => results[i].value);
    return Ok(result);
  }

  // ---------- The whole batch ----------

  /** The partitions are contiguous and cover all records; the clamp changes nothing, and every window has room. */
  lemma PartitionsTile(recordCount: int, pageSize: int, windowSize: int, n: int, i: nat)
    requires recordCount >= 0 && windowSize >= n >= 1 && i < n
    ensures var input := PartitionInput(recordCount, pageSize, windowSize, n, i);
      && IsFirst(input)
      && input.pageSize == pageSize && input.windowSize >= 1
      && input.maxOffset == input.offset + Partition(recordCount, n)[i]
      && (i == 0 ==> input.offset == 0)
      && (if i + 1 == n then input.maxOffset == recordCount
          else input.maxOffset == PartitionInput(recordCount, pageSize, windowSize, n, i + 1).offset)
  {
    var parts := Partition(recordCount, n);
    assert parts[..i + 1][..i] == parts[..i];
    assert parts[..n] == parts;
    PartsAreNatural(recordCount, n);
    PartsArePositive(windowSize, n);
    PartsAddUp(recordCount, n);
    PrefixesGrow(parts, 0, i);
    PrefixesGrow(parts, i + 1, n);
    if i == 0 { assert parts[..0] == []; }
  }

  /** The windows of the partitions add up to the requested one and differ by at most one. */
  lemma WindowsAddUp(recordCount: int, pageSize: int, windowSize: int, n: int)
    requires recordCount >= 0 && windowSize >= n >= 1
    ensures Sum(Windows(recordCount, pageSize, windowSize, n)) == windowSize
    ensures forall i, j | 0 <= i < j < n ::
      0 <= Windows(recordCount, pageSize, windowSize, n)[i] - Windows(recordCount, pageSize, windowSize, n)[j] <= 1
  {
    PartsAddUp(windowSize, n);
    assert Windows(recordCount, pageSize, windowSize, n) == Partition(windowSize, n);
  }

  function Windows(recordCount: int, pageSize: int, windowSize: int, n: int): (windows: seq<int>)
    requires n >= 1
    ensures |windows| == n
  {
    seq(n, i requires 0 <= i < n => PartitionInput(recordCount, pageSize, windowSize, n, i).windowSize)
  }

  lemma {:induction false} PrefixesGrow(s: seq<int>, i: nat, j: nat)
    requires i <= j <= |s| && forall k | 0 <= k < |s| :: s[k] >= 0
    ensures Sum(s[..i]) <= Sum(s[..j])
    decreases j
  {
    if i < j {
      PrefixesGrow(s, i, j - 1);
      assert s[..j][..j - 1] == s[..j - 1];
    }
  }

  // What the partitions hold in flight, and what the finished ones returned.
  function InFlight(chains: seq<Chain>): int {
    if chains == [] then 0 else InFlight(chains[..|chains| - 1]) + |chains[|chains| - 1].fields.currentRecords|
  }

  function Returned(chains: seq<Chain>): int {
    if chains == [] then 0
    else
      var last := chains[|chains| - 1];
      Returned(chains[..|chains| - 1]) + if last.phase.Finished? then last.phase.result else 0
  }

  // Partition i is wherever its own schedule has brought it; the partitions do not share anything.
  ghost predicate Running(recordCount: int, pageSize: int, windowSize: int, n: int, chains: seq<Chain>, schedules: seq<seq<Move>>)
    requires n >= 1
  {
    && |chains| == |schedules| == n
    && forall i: nat | i < n ::
         Chained(PartitionInput(recordCount, pageSize, windowSize, n, i), schedules[i]) == Some(chains[i])
  }

  lemma PartitionKeepsItsShare(
    recordCount: int, pageSize: int, windowSize: int, n: int, chains: seq<Chain>, schedules: seq<seq<Move>>, i: nat)
    requires recordCount >= 0 && windowSize >= n >= 1 && i < n
    requires Running(recordCount, pageSize, windowSize, n, chains, schedules)
    ensures |chains[i].fields.currentRecords| <= Partition(windowSize, n)[i]
    ensures chains[i].phase.Finished? ==> chains[i].phase.result == Partition(recordCount, n)[i]
  {
    PartitionsTile(recordCount, pageSize, windowSize, n, i);
    Accounting(PartitionInput(recordCount, pageSize, windowSize, n, i), schedules[i]);
  }

  lemma SumStep(s: seq<int>, k: nat)
    requires 0 < k <= |s|
    ensures Sum(s[..k]) == Sum(s[..k - 1]) + s[k - 1]
  {
    assert s[..k][..k - 1] == s[..k - 1];
  }

  lemma ChainsStep(chains: seq<Chain>, k: nat)
    requires 0 < k <= |chains|
    ensures var c := chains[k - 1];
      && InFlight(chains[..k]) == InFlight(chains[..k - 1]) + |c.fields.currentRecords|
      && Returned(chains[..k]) == Returned(chains[..k - 1]) + if c.phase.Finished? then c.phase.result else 0
  {
    assert chains[..k][..k - 1] == chains[..k - 1];
  }

  // Chains that each keep to a share of the window and return a share of the records.
  lemma {:induction false} PrefixOfBatch(chains: seq<Chain>, windows: seq<int>, sizes: seq<int>, k: nat)
    requires k <= |chains| == |windows| == |sizes|
    requires forall i | 0 <= i < |chains| ::
      |chains[i].fields.currentRecords| <= windows[i] && (chains[i].phase.Finished? ==> chains[i].phase.result == sizes[i])
    ensures InFlight(chains[..k]) <= Sum(windows[..k])
    ensures (forall i | 0 <= i < k :: chains[i].phase.Finished?) ==> Returned(chains[..k]) == Sum(sizes[..k])
    decreases k
  {
    if k > 0 {
      PrefixOfBatch(chains, windows, sizes, k - 1);
      SumStep(windows, k);
      SumStep(sizes, k);
      ChainsStep(chains, k);
    }
  }

  /**
   However the partitions progress, the children in flight in all of them never exceed the requested window,
   and when all have finished, what they returned adds up to the number of records.
   */
  lemma WholeBatch(recordCount: int, pageSize: int, windowSize: int, n: int, chains: seq<Chain>, schedules: seq<seq<Move>>)
    requires recordCount >= 0 && windowSize >= n >= 1
    requires Running(recordCount, pageSize, windowSize, n, chains, schedules)
    ensures InFlight(chains) <= windowSize
    ensures (forall i: nat | i < n :: chains[i].phase.Finished?) ==> Returned(chains) == recordCount
  {
    var windows, sizes := Partition(windowSize, n), Partition(recordCount, n);
    forall i: nat | i < n
      ensures |chains[i].fields.currentRecords| <= windows[i] && (chains[i].phase.Finished? ==> chains[i].phase.result == sizes[i])
    {
      PartitionKeepsItsShare(recordCount, pageSize, windowSize, n, chains, schedules, i);
    }
    PrefixOfBatch(chains, windows, sizes, n);
    PartsAddUp(recordCount, n);
    PartsAddUp(windowSize, n);
    assert chains[..n] == chains && windows[..n] == windows && sizes[..n] == sizes;
  }
}
