/**
 The sliding window of batch-sliding-window/sliding_window_workflow.go: a chain of continue-as-new runs that
 starts one child per record, keeps a bounded number of them in flight and counts their completion signals,
 which may arrive in any order and more than once.

 The class holds the fields of one run and its methods are the code between two blocking calls. The chain of
 runs, the signal channel and the children are a state machine over the same functions.
 */
module SlidingWindow {
  import opened Wrappers
  import opened Ranges

  datatype Input = Input(pageSize: int, windowSize: int, offset: int, maxOffset: int, progress: int, currentRecords: set<int>)

  // The fields of a run that change while it runs.
  datatype Fields = Fields(currentRecords: set<int>, childrenStarted: seq<int>, progress: int)

  // ---------- Loading a page ----------

  // `None` is the panic of a range that ends beyond the data.
  method GetRecords(recordCount: int, pageSize: int, offset: int, maxOffset: int) returns (records: Option<seq<int>>)
    ensures records == if maxOffset > recordCount then None else Some(Range(offset, Min(offset + pageSize, maxOffset)))
  {
    if maxOffset > recordCount {
      return None;
    }
    var ids := [];
    var limit := offset + pageSize;
    if limit > maxOffset {
      limit := maxOffset;
    }
    var i := offset;
    while i < limit
      invariant offset <= i && (i <= limit || i == offset)
      invariant ids == Range(offset, i)
    {
      ids := ids + [i];
      i := i + 1;
    }
    return Some(ids);
  }

  // ---------- One run ----------

  function Complete(f: Fields, id: int): Fields {
    if id in f.currentRecords then f.(currentRecords := f.currentRecords - {id}, progress := f.progress + 1) else f
  }

  function CompleteAll(f: Fields, ids: seq<int>): Fields
    decreases ids
  {
    if ids == [] then f else CompleteAll(Complete(f, ids[0]), ids[1..])
  }

  // Signals, however often repeated, only move records from those in flight to those counted.
  lemma {:induction false} CompleteAllConserves(f: Fields, ids: seq<int>)
    ensures var g := CompleteAll(f, ids);
      && g.progress + |g.currentRecords| == f.progress + |f.currentRecords|
      && g.currentRecords <= f.currentRecords && |g.currentRecords| <= |f.currentRecords|
      && g.childrenStarted == f.childrenStarted
    decreases ids
  {
    if ids != [] {
      CompleteAllConserves(Complete(f, ids[0]), ids[1..]);
    }
  }

  function Start(f: Fields, id: int): Fields {
    f.(currentRecords := f.currentRecords + {id}, childrenStarted := f.childrenStarted + [id])
  }

  // The input of the next run.
  function Next(input: Input, f: Fields): Input {
    Input(input.pageSize, input.windowSize, input.offset + |f.childrenStarted|, input.maxOffset, f.progress, f.currentRecords)
  }

  class Window {
    const input: Input
    var currentRecords: set<int>
    var childrenStartedByThisRun: seq<int>
    var progress: int

    function Snapshot(): Fields
      reads this
    {
      Fields(currentRecords, childrenStartedByThisRun, progress)
    }

    constructor (input: Input)
      ensures this.input == input && Snapshot() == Fields(input.currentRecords, [], input.progress)
    {
      this.input := input;
      currentRecords := input.currentRecords;
      childrenStartedByThisRun := [];
      progress := input.progress;
    }

    method RecordCompletion(recordId: int)
      modifies this
      ensures Snapshot() == Complete(old(Snapshot()), recordId)
    {
      if recordId in currentRecords {
        currentRecords := currentRecords - {recordId};
        progress := progress + 1;
      }
    }

    // What follows the Await on the window size.
    method StartChild(recordId: int)
      requires |currentRecords| < input.windowSize
      modifies this
      ensures Snapshot() == Start(old(Snapshot()), recordId)
    {
      childrenStartedByThisRun := childrenStartedByThisRun + [recordId];
      currentRecords := currentRecords + {recordId};
    }

    // The loop over a page. arrivals[k] are the signals that the pump receives while record k waits for
    // room; `blocked` says that the loop still waits after them.
    method ProcessRecords(records: seq<int>, arrivals: seq<seq<int>>) returns (blocked: bool)
      requires |arrivals| == |records|
      requires forall i, j | 0 <= i < j < |records| :: records[i] != records[j]
      requires forall i | 0 <= i < |records| :: records[i] !in currentRecords
      modifies this
      ensures childrenStartedByThisRun <= old(childrenStartedByThisRun) + records
      ensures !blocked ==> childrenStartedByThisRun == old(childrenStartedByThisRun) + records
      ensures blocked ==> |currentRecords| >= input.windowSize
      ensures |currentRecords| <= input.windowSize || |currentRecords| <= |old(currentRecords)|
      ensures progress + |currentRecords| - |childrenStartedByThisRun|
           == old(progress + |currentRecords| - |childrenStartedByThisRun|)
    {
      var k := 0;
      while k < |records|
        invariant 0 <= k <= |records|
        invariant childrenStartedByThisRun == old(childrenStartedByThisRun) + records[..k]
        invariant forall i | k <= i < |records| :: records[i] !in currentRecords
        invariant |currentRecords| <= input.windowSize || |currentRecords| <= |old(currentRecords)|
        invariant progress + |currentRecords| - |childrenStartedByThisRun|
               == old(progress + |currentRecords| - |childrenStartedByThisRun|)
      {
        CompleteAllConserves(Snapshot(), arrivals[k]);
        DrainCompletionSignalChannel(arrivals[k]);
        if |currentRecords| >= input.windowSize {
          return true;
        }
        StartChild(records[k]);
        k := k + 1;
      }
      return false;
    }

    // Empties the buffered signals without blocking.
    method DrainCompletionSignalChannel(buffered: seq<int>)
      modifies this
      ensures Snapshot() == CompleteAll(old(Snapshot()), buffered)
    {
      var channel := buffered;
      while channel != []
        invariant CompleteAll(Snapshot(), channel) == CompleteAll(old(Snapshot()), buffered)
        decreases |channel|
      {
        RecordCompletion(channel[0]);
        channel := channel[1..];
      }
    }

    // The end of a run: the input of the next run, or the result of the last one; neither while the last run
    // still waits for its children. starts[k] is how the start of child k of this run ended, None if well;
    // a run that continues as new waits for all of them, and fails with the first error.
    method ContinueAsNewOrComplete(starts: seq<Option<string>>, buffered: seq<int>)
      returns (next: Option<Input>, result: Option<int>, error: Option<string>)
      requires |starts| == |childrenStartedByThisRun|
      modifies this
      ensures input.offset < input.maxOffset && (forall k | 0 <= k < |starts| :: starts[k].None?) ==>
        && next == Some(Next(input, CompleteAll(old(Snapshot()), buffered)))
        && Snapshot() == CompleteAll(old(Snapshot()), buffered) && result == None && error == None
      ensures input.offset < input.maxOffset && !(forall k | 0 <= k < |starts| :: starts[k].None?) ==>
        && next == None && result == None && unchanged(this)
        && exists k :: 0 <= k < |starts| && starts[k].Some? && error == starts[k] && forall j | 0 <= j < k :: starts[j].None?
      ensures input.offset >= input.maxOffset ==>
        && next == None && error == None && unchanged(this)
        && result == if currentRecords == {} then Some(progress) else None
    {
      next, result, error := None, None, None;
      if input.offset < input.maxOffset {
        var k := 0;
        while k < |childrenStartedByThisRun|
          invariant 0 <= k <= |starts| && forall j | 0 <= j < k :: starts[j].None?
        {
          if starts[k].Some? {
            error := starts[k];
            return;
          }
          k := k + 1;
        }
        DrainCompletionSignalChannel(buffered);
        next := Some(Input(input.pageSize, input.windowSize, input.offset + |childrenStartedByThisRun|,
                           input.maxOffset, progress, currentRecords));
      } else if currentRecords == {} {
        result := Some(progress);
      }
    }
  }

  // ---------- The chain of runs ----------

  datatype Phase = Loading | Starting(todo: seq<int>) | Finished(result: int) | Failed

  // `running` are the children that the server has started, `reported` those that have sent their completion
  // signal at least once, `consumed` those whose signal a run has received; the last two are not known to the
  // runs. `continued` counts continue-as-new.
  datatype Chain = Chain(
    input: Input, fields: Fields, phase: Phase, channel: seq<int>,
    running: set<int>, reported: set<int>, consumed: set<int>, continued: nat)

  datatype Move =
    | Load
    | StartNext
    | ChildStarts(id: int)
    | Report(id: int)
    | Pump
    | Continue
    | Finish
    | Fail

  predicate Open(c: Chain) {
    c.phase.Loading? || c.phase.Starting?
  }

  // The chain at the start of the run with this input; the signals before it have all been consumed.
  function Begin(input: Input, running: set<int>, reported: set<int>, consumed: set<int>, continued: nat): Chain {
    Chain(input, Fields(input.currentRecords, [], input.progress), Loading, [], running, reported, consumed, continued)
  }

  function Elements(ids: seq<int>): set<int> {
    set id | id in ids
  }

  function FirstInput(pageSize: int, windowSize: int, offset: int, maxOffset: int): Input {
    Input(pageSize, windowSize, offset, maxOffset, 0, {})
  }

  // The next record that this chain has not started.
  function Position(c: Chain): int {
    c.input.offset + |c.fields.childrenStarted|
  }

  // Continue-as-new waits for the children of this run; without the wait they might never start.
  predicate AllStarted(c: Chain) {
    forall id | id in c.fields.childrenStarted :: id in c.running
  }

  // `origin` is the offset of the first run. A child of this run starts some time after the run asked for it, if
  // the run is still open then, and reports only after it was started.
  function Step(origin: int, c: Chain, m: Move): Option<Chain> {
    match m
    case Load =>
      if !c.phase.Loading? then None
      else if c.input.offset < c.input.maxOffset then
        var limit := Min(c.input.offset + c.input.pageSize, c.input.maxOffset);
        Some(c.(phase := Starting(Range(c.input.offset, limit))))
      else Some(c.(phase := Starting([])))
    case StartNext =>
      if c.phase.Starting? && c.phase.todo != [] && |c.fields.currentRecords| < c.input.windowSize then
        Some(c.(fields := Start(c.fields, c.phase.todo[0]), phase := Starting(c.phase.todo[1..])))
      else None
    case ChildStarts(id) =>
      if Open(c) && id in c.fields.childrenStarted then Some(c.(running := c.running + {id})) else None
    case Report(id) =>
      if Open(c) && id in c.running then
        Some(c.(channel := c.channel + [id], reported := c.reported + {id}))
      else None
    case Pump =>
      if Open(c) && c.channel != [] then
        Some(c.(fields := Complete(c.fields, c.channel[0]), channel := c.channel[1..],
                  consumed := c.consumed + {c.channel[0]}))
      else None
    case Continue =>
      if c.phase == Starting([]) && c.input.offset < c.input.maxOffset && AllStarted(c) then
        Some(Begin(Next(c.input, CompleteAll(c.fields, c.channel)), c.running, c.reported, c.consumed + Elements(c.channel),
                   c.continued + 1))
      else None
    case Finish =>
      if c.phase == Starting([]) && c.input.offset >= c.input.maxOffset && c.fields.currentRecords == {} then
        Some(c.(phase := Finished(c.fields.progress)))
      else None
    case Fail =>
      if Open(c) then Some(c.(phase := Failed)) else None
  }

  function Run(origin: int, c: Chain, moves: seq<Move>): Option<Chain>
    decreases moves
  {
    if moves == [] then Some(c)
    else
      var c1 := Step(origin, c, moves[0]);
      if c1.None? then None else Run(origin, c1.value, moves[1..])
  }
}
