/**
 How long a sliding-window chain is, when it can end, and that it never waits for a signal that was sent.
 */
module WindowTermination {
  import opened Wrappers
  import opened Ranges
  import opened SlidingWindow
  import opened WindowAccounting

  // ---------- The number of runs ----------

  // The offset of the run that follows `continued` others, and that the one before it had records left.
  predicate OnSchedule(first: Input, c: Chain) {
    && c.input.offset == Min(first.offset + c.continued * first.pageSize, first.maxOffset)
    && (c.continued > 0 ==> first.offset + (c.continued - 1) * first.pageSize < first.maxOffset)
  }

  lemma ContinueAdvancesOnePage(first: Input, c: Chain)
    requires Placed(first, c) && first.pageSize >= 1 && Step(first.offset, c, Continue).Some?
    ensures var d := Step(first.offset, c, Continue).value;
      d.input.offset == Min(c.input.offset + first.pageSize, first.maxOffset) > c.input.offset
  {
    CompleteAllConserves(c.fields, c.channel);
  }

  lemma StepKeepsSchedule(first: Input, c: Chain, m: Move)
    requires Placed(first, c) && OnSchedule(first, c) && first.pageSize >= 1 && Step(first.offset, c, m).Some?
    ensures OnSchedule(first, Step(first.offset, c, m).value)
  {
    if m.Continue? {
      ContinueAdvancesOnePage(first, c);
      assert (c.continued + 1) * first.pageSize == c.continued * first.pageSize + first.pageSize;
    }
  }

  lemma {:induction false} RunKeepsSchedule(first: Input, c: Chain, moves: seq<Move>)
    requires Invariant(first, c) && OnSchedule(first, c) && first.pageSize >= 1
    requires Run(first.offset, c, moves).Some?
    ensures OnSchedule(first, Run(first.offset, c, moves).value)
    decreases |moves|
  {
    if moves != [] {
      StepKeepsInvariant(first, c, moves[0]);
      StepKeepsSchedule(first, c, moves[0]);
      RunKeepsSchedule(first, Step(first.offset, c, moves[0]).value, moves[1..]);
    }
  }

  /** A chain over n records continues as new exactly ceil(n / pageSize) times before its last run. */
  lemma ChainLength(first: Input, moves: seq<Move>)
    requires IsFirst(first) && first.pageSize >= 1
    requires Chained(first, moves).Some? && Chained(first, moves).value.phase.Finished?
    ensures IsCeilDiv(Chained(first, moves).value.continued, first.maxOffset - first.offset, first.pageSize)
  {
    var begin := Begin(first, {}, {}, {}, 0);
    BeginIsInvariant(first);
    assert OnSchedule(first, begin);
    RunKeepsInvariant(first, begin, moves);
    RunKeepsSchedule(first, begin, moves);
    var c := Chained(first, moves).value;
    assert c.continued == 0 ==> first.offset == first.maxOffset;
  }

  // ---------- No lost signal keeps a run waiting ----------

  predicate Internal(m: Move) {
    m.Load? || m.StartNext? || m.Pump? || m.Continue? || m.Finish?
  }

  // What is left of a run, most significant first.
  function Left(c: Chain): (nat, nat, nat, nat) {
    (if c.input.offset < c.input.maxOffset then c.input.maxOffset - c.input.offset else 0,
     if c.phase.Loading? then 2 else if c.phase.Starting? then 1 else 0,
     if c.phase.Starting? then |c.phase.todo| else 0,
     |c.channel|)
  }

  predicate Less(a: (nat, nat, nat, nat), b: (nat, nat, nat, nat)) {
    || a.0 < b.0
    || (a.0 == b.0 && (a.1 < b.1 || (a.1 == b.1 && (a.2 < b.2 || (a.2 == b.2 && a.3 < b.3)))))
  }

  /** What a run does by itself brings it closer to its end, so it can do that only finitely often between two signals. */
  lemma InternalStepsDecrease(first: Input, c: Chain, m: Move)
    requires Invariant(first, c) && first.pageSize >= 1 && Internal(m) && Step(first.offset, c, m).Some?
    ensures Less(Left(Step(first.offset, c, m).value), Left(c))
  {
    if m.Continue? {
      ContinueAdvancesOnePage(first, c);
    }
  }

  // ---------- Every chain can be brought to its end ----------

  lemma {:induction false} RunConcat(origin: int, c: Chain, a: seq<Move>, b: seq<Move>)
    requires Run(origin, c, a).Some?
    ensures Run(origin, c, a + b) == Run(origin, Run(origin, c, a).value, b)
    decreases a
  {
    if a == [] {
      assert a + b == b;
    } else {
      assert (a + b)[1..] == a[1..] + b;
      RunConcat(origin, Step(origin, c, a[0]).value, a[1..], b);
    }
  }

  // As Left, but what is in flight counts, too, and what has not started.
  function Remaining(c: Chain): (nat, nat, nat, nat) {
    (Left(c).0, Left(c).1, Left(c).2, |c.fields.currentRecords| + |Unstarted(c)| + Left(c).3)
  }

  function Unstarted(c: Chain): set<int> {
    Elements(c.fields.childrenStarted) - c.running
  }

  predicate Closer(c: Chain, d: Chain) {
    d.phase.Finished? || (Open(d) && Less(Remaining(d), Remaining(c)))
  }

  lemma InternalStepIsCloser(first: Input, c: Chain, m: Move)
    requires Placed(first, c) && first.pageSize >= 1 && Internal(m) && Step(first.offset, c, m).Some?
    ensures Closer(c, Step(first.offset, c, m).value)
  {
    match m
    case Continue => ContinueAdvancesOnePage(first, c);
    case Pump => PumpIsCloser(first.offset, c);
    case _ => InternalStepsLower(first, c, m);
  }

  lemma PumpIsCloser(origin: int, c: Chain)
    requires Step(origin, c, Pump).Some?
    ensures Closer(c, Step(origin, c, Pump).value)
  {
    var d := Step(origin, c, Pump).value;
    assert Unstarted(d) == Unstarted(c) && |d.channel| == |c.channel| - 1;
    assert |d.fields.currentRecords| <= |c.fields.currentRecords|;
  }

  // The other steps lower what comes before the last component.
  lemma InternalStepsLower(first: Input, c: Chain, m: Move)
    requires Placed(first, c) && Internal(m) && !m.Pump? && !m.Continue? && Step(first.offset, c, m).Some?
    ensures Closer(c, Step(first.offset, c, m).value)
  {}

  // The run waits for a child that has not reported.
  predicate Waits(first: Input, c: Chain) {
    && c.channel == [] && c.phase.Starting? && c.fields.currentRecords != {}
    && if c.phase.todo != [] then |c.fields.currentRecords| >= first.windowSize else c.input.offset >= c.input.maxOffset
  }

  function NextMove(c: Chain): Move {
    if c.channel != [] then Pump
    else if c.phase.Loading? then Load
    else if c.phase.Starting? && c.phase.todo != [] then StartNext
    else if c.input.offset < c.input.maxOffset then Continue
    else Finish
  }

  lemma NextMoveIsEnabled(first: Input, c: Chain)
    requires Open(c) && c.input.windowSize == first.windowSize >= 1 && !Waits(first, c) && AllStarted(c)
    ensures Internal(NextMove(c)) && Step(first.offset, c, NextMove(c)).Some?
  {}

  /** Once every child that was asked for has started and reported, an open run can go on by itself. */
  lemma NeverBlocked(first: Input, moves: seq<Move>)
    requires IsFirst(first) && first.pageSize >= 1 && first.windowSize >= 1 && Chained(first, moves).Some?
    requires var c := Chained(first, moves).value; Open(c) && c.reported == Started(first.offset, c)
    ensures exists m :: Internal(m) && Step(first.offset, Chained(first, moves).value, m).Some?
  {
    var c := Chained(first, moves).value;
    BeginIsInvariant(first);
    RunKeepsInvariant(first, Begin(first, {}, {}, {}, 0), moves);
    ReportedHaveStarted(first, c);
    if id :| id in c.fields.currentRecords {
      assert id in Elements(c.channel);
    }
    NextMoveIsEnabled(first, c);
  }

  lemma ReportedHaveStarted(first: Input, c: Chain)
    requires Placed(first, c) && Confirmed(first, c) && c.reported == Started(first.offset, c)
    ensures AllStarted(c)
  {}

  lemma ReportIsCloser(origin: int, c: Chain, id: int)
    requires Open(c) && c.channel == [] && id in c.fields.currentRecords && id in c.running
    ensures Run(origin, c, [Report(id), Pump]).Some? && Closer(c, Run(origin, c, [Report(id), Pump]).value)
  {
    TwoMoves(origin, c, Report(id), Pump);
    var d := Run(origin, c, [Report(id), Pump]).value;
    assert d.fields == Complete(c.fields, id) && d.channel == [];
  }

  lemma StartIsCloser(origin: int, c: Chain, id: int)
    requires Open(c) && id in Unstarted(c)
    ensures Run(origin, c, [ChildStarts(id)]).Some? && Closer(c, Run(origin, c, [ChildStarts(id)]).value)
  {
    OneMove(origin, c, ChildStarts(id));
    assert id in c.fields.childrenStarted;
    var d := Run(origin, c, [ChildStarts(id)]).value;
    assert Unstarted(d) == Unstarted(c) - {id};
  }

  lemma OneMove(origin: int, c: Chain, m: Move)
    ensures Run(origin, c, [m]) == Step(origin, c, m)
  {
    assert [m][1..] == [];
  }

  lemma NoneUnstarted(c: Chain)
    requires Unstarted(c) == {}
    ensures AllStarted(c)
  {
    forall id | id in c.fields.childrenStarted ensures id in c.running {
      assert id in c.running || id in Unstarted(c);
    }
  }

  lemma AllAreRunning(first: Input, c: Chain, id: int)
    requires Invariant(first, c) && Unstarted(c) == {} && id in Started(first.offset, c)
    ensures id in c.running
  {
    if id < c.input.offset {
      assert id in Interval(first.offset, c.input.offset);
    } else {
      assert c.fields.childrenStarted[id - c.input.offset] == id;
      assert id in Elements(c.fields.childrenStarted);
    }
  }

  // A move, or the report of a child and its receipt, that brings the chain closer to its end.
  lemma OneStepCloser(first: Input, c: Chain) returns (moves: seq<Move>)
    requires Invariant(first, c) && Open(c) && first.pageSize >= 1 && first.windowSize >= 1
    ensures Run(first.offset, c, moves).Some? && Closer(c, Run(first.offset, c, moves).value)
  {
    if id :| id in Unstarted(c) {
      StartIsCloser(first.offset, c, id);
      moves := [ChildStarts(id)];
    } else if Waits(first, c) {
      var id :| id in c.fields.currentRecords;
      AllAreRunning(first, c, id);
      ReportIsCloser(first.offset, c, id);
      moves := [Report(id), Pump];
    } else {
      NoneUnstarted(c);
      NextMoveIsEnabled(first, c);
      InternalStepIsCloser(first, c, NextMove(c));
      moves := [NextMove(c)];
      OneMove(first.offset, c, NextMove(c));
    }
  }

  lemma TwoMoves(origin: int, c: Chain, m0: Move, m1: Move)
    requires Step(origin, c, m0).Some?
    ensures Run(origin, c, [m0, m1]) == Step(origin, Step(origin, c, m0).value, m1)
  {
    var c1 := Step(origin, c, m0).value;
    assert [m0, m1][1..] == [m1] && [m1][1..] == [];
    assert Run(origin, c1, [m1]) == Step(origin, c1, m1);
  }

  lemma {:induction false} CanFinish(first: Input, c: Chain) returns (moves: seq<Move>)
    requires Invariant(first, c) && Open(c) && first.pageSize >= 1 && first.windowSize >= 1
    ensures Run(first.offset, c, moves).Some? && Run(first.offset, c, moves).value.phase.Finished?
    decreases Remaining(c).0, Remaining(c).1, Remaining(c).2, Remaining(c).3
  {
    moves := OneStepCloser(first, c);
    var d := Run(first.offset, c, moves).value;
    RunKeepsInvariant(first, c, moves);
    if Open(d) {
      var rest := CanFinish(first, d);
      RunConcat(first.offset, c, moves, rest);
      moves := moves + rest;
    }
  }

  /** Whatever has happened so far, short of a failure, a chain can still finish, and with the right result. */
  lemma EveryChainCanFinish(first: Input, moves: seq<Move>)
    requires IsFirst(first) && first.pageSize >= 1 && first.windowSize >= 1
    requires Chained(first, moves).Some? && Open(Chained(first, moves).value)
    ensures exists rest ::
      && Chained(first, moves + rest).Some?
      && Chained(first, moves + rest).value.phase == Finished(first.maxOffset - first.offset)
  {
    var begin := Begin(first, {}, {}, {}, 0);
    BeginIsInvariant(first);
    RunKeepsInvariant(first, begin, moves);
    var rest := CanFinish(first, Chained(first, moves).value);
    RunConcat(first.offset, begin, moves, rest);
    Accounting(first, moves + rest);
  }

  // ---------- When a chain cannot end ----------

  predicate Idle(first: Input, c: Chain) {
    && c.input.offset == first.offset && c.input.maxOffset == first.maxOffset
    && c.input.pageSize == first.pageSize && c.input.windowSize == first.windowSize
    && c.fields.childrenStarted == []
    && !c.phase.Finished?
    && (first.pageSize < 1 && c.phase.Starting? ==> c.phase.todo == [])
  }

  lemma {:induction false} RunStaysIdle(first: Input, c: Chain, moves: seq<Move>)
    requires Idle(first, c) && first.offset < first.maxOffset && (first.pageSize < 1 || first.windowSize < 1)
    requires Run(first.offset, c, moves).Some?
    ensures Idle(first, Run(first.offset, c, moves).value)
    decreases |moves|
  {
    if moves != [] {
      CompleteAllConserves(c.fields, c.channel);
      RunStaysIdle(first, Step(first.offset, c, moves[0]).value, moves[1..]);
    }
  }

  /** With records to process, a page size or a window below one starts nothing, and the chain never ends. */
  lemma EmptyPageOrWindowNeverEnds(first: Input, moves: seq<Move>)
    requires IsFirst(first) && first.offset < first.maxOffset && (first.pageSize < 1 || first.windowSize < 1)
    requires Chained(first, moves).Some?
    ensures var c := Chained(first, moves).value; !c.phase.Finished? && Started(first.offset, c) == {}
  {
    RunStaysIdle(first, Begin(first, {}, {}, {}, 0), moves);
  }
}
