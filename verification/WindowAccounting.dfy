/**
 What every run of every sliding-window chain keeps, whatever the order and the repetitions of the
 completion signals: each record is started once and counted once, no signal is lost, the window is never
 exceeded, and a chain that ends returns the right count.
 */
module WindowAccounting {
  import opened Wrappers
  import opened Ranges
  import opened SlidingWindow

  function Interval(lo: int, hi: int): (ids: set<int>)
    ensures forall id :: id in ids <==> lo <= id < hi
    decreases hi - lo
  {
    if lo < hi then Interval(lo, hi - 1) + {hi - 1} else {}
  }

  function Started(origin: int, c: Chain): set<int> {
    Interval(origin, Position(c))
  }

  lemma {:induction false} IntervalSize(lo: int, hi: int)
    requires lo <= hi
    ensures |Interval(lo, hi)| == hi - lo
    decreases hi - lo
  {
    if lo < hi {
      IntervalSize(lo, hi - 1);
    }
  }

  function PageEnd(input: Input): int {
    Min(input.offset + input.pageSize, input.maxOffset)
  }

  // Where the chain stands in its range. `first` is the input of the first run.
  predicate Placed(first: Input, c: Chain) {
    && c.input.pageSize == first.pageSize
    && c.input.windowSize == first.windowSize
    && c.input.maxOffset == first.maxOffset
    && first.offset <= c.input.offset <= Position(c) <= c.input.maxOffset
    && c.fields.childrenStarted == Range(c.input.offset, Position(c))
    && (c.fields.childrenStarted != [] ==> Position(c) <= PageEnd(c.input))
    && (c.phase.Loading? ==> c.fields.childrenStarted == [])
    && (c.phase.Starting? ==>
          c.phase.todo == if c.input.offset < c.input.maxOffset then Range(Position(c), PageEnd(c.input)) else [])
  }

  // What has been counted when the records in `started` have been started.
  predicate Tally(started: set<int>, windowSize: int, f: Fields, reported: set<int>, consumed: set<int>, channel: seq<int>) {
    && f.currentRecords == started - consumed
    && f.progress == |consumed|
    && (f.currentRecords == {} || |f.currentRecords| <= windowSize)
    && reported == consumed + Elements(channel)
    && reported <= started
  }

  predicate Counted(first: Input, c: Chain) {
    && Tally(Started(first.offset, c), first.windowSize, c.fields, c.reported, c.consumed, c.channel)
    && (c.phase.Finished? ==>
          c.input.offset == c.input.maxOffset && c.fields.currentRecords == {} && c.phase.result == c.fields.progress)
  }

  // The children of earlier runs have all started, and no others than those that runs asked for.
  predicate Confirmed(first: Input, c: Chain) {
    && c.reported <= c.running <= Started(first.offset, c)
    && Interval(first.offset, c.input.offset) <= c.running
  }

  predicate Invariant(first: Input, c: Chain) {
    Placed(first, c) && Confirmed(first, c) && Counted(first, c)
  }

  lemma CompleteCounts(f: Fields, id: int, consumed: set<int>)
    requires f.progress == |consumed| && f.currentRecords !! consumed && (id in f.currentRecords || id in consumed)
    ensures var g := Complete(f, id);
      && g.currentRecords == f.currentRecords - {id} && g.currentRecords !! consumed + {id}
      && g.childrenStarted == f.childrenStarted && g.progress == |consumed + {id}|
  {
    if id in consumed { assert consumed + {id} == consumed; }
  }

  lemma HeadAndTail(ids: seq<int>)
    requires ids != []
    ensures Elements(ids) == {ids[0]} + Elements(ids[1..])
  {
    assert ids == [ids[0]] + ids[1..];
  }

  lemma InTwoSteps(records: set<int>, consumed: set<int>, a: set<int>, b: set<int>)
    ensures (records - a) - b == records - (a + b)
    ensures (consumed + a) + b == consumed + (a + b)
  {}

  lemma {:induction false} CompleteAllCounts(f: Fields, ids: seq<int>, consumed: set<int>)
    requires f.progress == |consumed| && f.currentRecords !! consumed
    requires Elements(ids) <= f.currentRecords + consumed
    ensures var g := CompleteAll(f, ids);
      && g.currentRecords == f.currentRecords - Elements(ids)
      && g.childrenStarted == f.childrenStarted
      && g.progress == |consumed + Elements(ids)|
    decreases ids
  {
    if ids == [] {
      assert consumed + Elements(ids) == consumed;
    } else {
      HeadAndTail(ids);
      assert ids[0] in Elements(ids);
      CompleteCounts(f, ids[0], consumed);
      CompleteAllCounts(Complete(f, ids[0]), ids[1..], consumed + {ids[0]});
      InTwoSteps(f.currentRecords, consumed, {ids[0]}, Elements(ids[1..]));
    }
  }

  lemma BeginIsInvariant(first: Input)
    requires first == FirstInput(first.pageSize, first.windowSize, first.offset, first.maxOffset)
    requires first.offset <= first.maxOffset
    ensures Invariant(first, Begin(first, {}, {}, {}, 0))
  {}

  lemma StepKeepsPlaced(first: Input, c: Chain, m: Move)
    requires Placed(first, c) && Step(first.offset, c, m).Some?
    ensures Placed(first, Step(first.offset, c, m).value)
  {
    match m
    case StartNext =>
      StartKeepsPlaced(first, c);
    case Continue =>
      CompleteAllConserves(c.fields, c.channel);
    case _ =>
  }

  lemma StepKeepsConfirmed(first: Input, c: Chain, m: Move)
    requires Placed(first, c) && Confirmed(first, c) && Step(first.offset, c, m).Some?
    ensures Confirmed(first, Step(first.offset, c, m).value)
  {
    if m.Continue? {
      CompleteAllConserves(c.fields, c.channel);
      forall id | id in Interval(first.offset, Position(c)) ensures id in c.running {
        if id >= c.input.offset {
          assert c.fields.childrenStarted[id - c.input.offset] == id;
        }
      }
    }
  }

  lemma StartKeepsPlaced(first: Input, c: Chain)
    requires Placed(first, c) && Step(first.offset, c, StartNext).Some?
    ensures Placed(first, Step(first.offset, c, StartNext).value)
  {
    var d := Step(first.offset, c, StartNext).value;
    assert c.phase.todo[0] == Position(c);
    assert d.fields.childrenStarted == Range(c.input.offset, Position(d));
    assert d.phase.todo == Range(Position(d), PageEnd(c.input));
  }

  lemma StepKeepsCounted(first: Input, c: Chain, m: Move)
    requires Invariant(first, c) && Step(first.offset, c, m).Some?
    ensures Counted(first, Step(first.offset, c, m).value)
  {
    match m
    case StartNext =>
      StartKeepsCounted(first, c);
    case Report(id) =>
      TallyReport(Started(first.offset, c), first.windowSize, c.fields, c.reported, c.consumed, c.channel, id);
    case Pump =>
      PumpKeepsCounted(first, c);
    case Continue =>
      ContinueKeepsCounted(first, c);
    case Finish =>
      assert c.input.offset == c.input.maxOffset;
    case _ =>
  }

  lemma StartKeepsCounted(first: Input, c: Chain)
    requires Counted(first, c) && Step(first.offset, c, StartNext).Some?
    requires c.phase.todo[0] == Position(c) && first.offset <= Position(c) && c.input.windowSize == first.windowSize
    ensures Counted(first, Step(first.offset, c, StartNext).value)
  {
    TallyStart(Started(first.offset, c), first.windowSize, c.fields, c.reported, c.consumed, c.channel, Position(c));
  }

  lemma TallyStart(started: set<int>, windowSize: int, f: Fields, reported: set<int>, consumed: set<int>, channel: seq<int>,
                   id: int)
    requires Tally(started, windowSize, f, reported, consumed, channel)
    requires id !in started && |f.currentRecords| < windowSize
    ensures Tally(started + {id}, windowSize, Start(f, id), reported, consumed, channel)
  {}

  lemma TallyReport(started: set<int>, windowSize: int, f: Fields, reported: set<int>, consumed: set<int>, channel: seq<int>,
                    id: int)
    requires Tally(started, windowSize, f, reported, consumed, channel) && id in started
    ensures Tally(started, windowSize, f, reported + {id}, consumed, channel + [id])
  {
    ElementsOfConcat(channel, [id]);
    CompleteOne(f, id);
  }

  lemma ElementsOfConcat(a: seq<int>, b: seq<int>)
    ensures Elements(a + b) == Elements(a) + Elements(b)
  {}

  // Receiving the signals `ids`, which leaves `rest` in the channel.
  lemma TallyReceive(started: set<int>, windowSize: int, f: Fields, reported: set<int>, consumed: set<int>,
                     ids: seq<int>, rest: seq<int>)
    requires Tally(started, windowSize, f, reported, consumed, ids + rest)
    ensures Tally(started, windowSize, CompleteAll(f, ids), reported, consumed + Elements(ids), rest)
  {
    var received, left := Elements(ids), Elements(rest);
    ElementsOfConcat(ids, rest);
    assert received <= started;
    assert received <= f.currentRecords + consumed;
    CompleteAllCounts(f, ids, consumed);
    CompleteAllConserves(f, ids);
    assert started - (consumed + received) == (started - consumed) - received;
    assert consumed + (received + left) == (consumed + received) + left;
  }

  lemma PumpKeepsCounted(first: Input, c: Chain)
    requires Counted(first, c) && Step(first.offset, c, Pump).Some?
    ensures Counted(first, Step(first.offset, c, Pump).value)
  {
    TallyPump(Started(first.offset, c), first.windowSize, c.fields, c.reported, c.consumed, c.channel);
  }

  lemma TallyPump(started: set<int>, windowSize: int, f: Fields, reported: set<int>, consumed: set<int>, channel: seq<int>)
    requires channel != [] && Tally(started, windowSize, f, reported, consumed, channel)
    ensures Complete(f, channel[0]).childrenStarted == f.childrenStarted
    ensures Tally(started, windowSize, Complete(f, channel[0]), reported, consumed + {channel[0]}, channel[1..])
  {
    assert channel == [channel[0]] + channel[1..];
    CompleteOne(f, channel[0]);
    TallyReceive(started, windowSize, f, reported, consumed, [channel[0]], channel[1..]);
  }

  lemma CompleteOne(f: Fields, id: int)
    ensures CompleteAll(f, [id]) == Complete(f, id) && Elements([id]) == {id}
  {
    assert [id][1..] == [];
  }

  lemma ContinueKeepsCounted(first: Input, c: Chain)
    requires Counted(first, c) && Step(first.offset, c, Continue).Some?
    ensures Counted(first, Step(first.offset, c, Continue).value)
  {
    assert c.channel == c.channel + [];
    TallyReceive(Started(first.offset, c), first.windowSize, c.fields, c.reported, c.consumed, c.channel, []);
    CompleteAllConserves(c.fields, c.channel);
  }

  lemma StepKeepsInvariant(first: Input, c: Chain, m: Move)
    requires Invariant(first, c) && Step(first.offset, c, m).Some?
    ensures Invariant(first, Step(first.offset, c, m).value)
  {
    StepKeepsPlaced(first, c, m);
    StepKeepsConfirmed(first, c, m);
    StepKeepsCounted(first, c, m);
  }

  lemma {:induction false} RunKeepsInvariant(first: Input, c: Chain, moves: seq<Move>)
    requires Invariant(first, c) && Run(first.offset, c, moves).Some?
    ensures Invariant(first, Run(first.offset, c, moves).value)
    decreases |moves|
  {
    if moves != [] {
      StepKeepsInvariant(first, c, moves[0]);
      RunKeepsInvariant(first, Step(first.offset, c, moves[0]).value, moves[1..]);
    }
  }

  function Chained(first: Input, moves: seq<Move>): Option<Chain> {
    Run(first.offset, Begin(first, {}, {}, {}, 0), moves)
  }

  predicate IsFirst(first: Input) {
    first == FirstInput(first.pageSize, first.windowSize, first.offset, first.maxOffset) && first.offset <= first.maxOffset
  }

  /**
   At every point of every chain the records started so far are the interval from the first offset; those in
   currentRecords are the ones whose completion has not been received; progress counts the others, so the
   two add up to the records started; the window is not exceeded; a signal that was sent is either received
   or still buffered; the children of earlier runs have really been started; and a finished chain returns the
   size of its range, all of which has been reported.
   */
  lemma Accounting(first: Input, moves: seq<Move>)
    requires IsFirst(first) && Chained(first, moves).Some?
    ensures var c := Chained(first, moves).value;
      && c.fields.currentRecords == Started(first.offset, c) - c.consumed
      && c.fields.progress + |c.fields.currentRecords| == Position(c) - first.offset
      && (|c.fields.currentRecords| <= first.windowSize || c.fields.currentRecords == {})
      && c.reported == c.consumed + Elements(c.channel)
      && (forall id | first.offset <= id < c.input.offset :: id in c.running)
      && (c.phase.Finished? ==>
            c.phase.result == first.maxOffset - first.offset && c.reported == Interval(first.offset, first.maxOffset))
  {
    var c := Chained(first, moves).value;
    BeginIsInvariant(first);
    RunKeepsInvariant(first, Begin(first, {}, {}, {}, 0), moves);
    IntervalSize(first.offset, Position(c));
    SplitCounts(Started(first.offset, c), c.consumed);
  }

  lemma SplitCounts(all: set<int>, part: set<int>)
    requires part <= all
    ensures |part| + |all - part| == |all|
  {
    assert all == part + (all - part);
  }
}
