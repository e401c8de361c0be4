/**
 When confluence is lost: the exact condition for a parallel block of two activities. They give the same
 bindings in every schedule, whatever the activities compute, exactly when neither writes a variable that
 the other one writes or uses, or when they are the same activity and do not read what they write.
 */
module DslRace {
  import opened Wrappers
  import opened Dsl
  import opened DslConfluence
  import opened DslOutcome
  import opened DslProgress

  function Invoke(inv: ActivityInvocation): Statement {
    Statement(Some(inv), None, None)
  }

  function Both(a: ActivityInvocation, b: ActivityInvocation): Statement {
    Statement(None, None, Some(Parallel([Invoke(a), Invoke(b)])))
  }

  predicate SameCall(a: ActivityInvocation, b: ActivityInvocation) {
    a.name == b.name && a.arguments == b.arguments
  }

  // Both write one variable, or one reads what the other writes, and it shows.
  predicate Conflict(a: ActivityInvocation, b: ActivityInvocation) {
    && a.result != "" && b.result != ""
    && (|| (a.result == b.result && !SameCall(a, b))
        || a.result in b.arguments
        || b.result in a.arguments)
  }

  // A schedule that brings the block to its end, and the bindings it leaves.
  predicate Ends(a: ActivityInvocation, b: ActivityInvocation, variables: Bindings, f: Activities, moves: seq<Move>) {
    var r := Run(Init(Both(a, b), variables), moves, Functional(f));
    r.Some? && StatusOf(r.value.task) == Returned(None)
  }

  function EndBindings(a: ActivityInvocation, b: ActivityInvocation, variables: Bindings, f: Activities, moves: seq<Move>): Bindings
    requires Ends(a, b, variables, f, moves)
  {
    Run(Init(Both(a, b), variables), moves, Functional(f)).value.bindings
  }

  // ---------- The two branches ----------

  function Branch(id: nat, inv: ActivityInvocation, state: LeafState): Task {
    Chain([Leaf(id, inv, state)], 0, Running)
  }

  // Both branches before either has returned, with their activities in states sa and sb.
  function Tree(a: ActivityInvocation, b: ActivityInvocation, sa: LeafState, sb: LeafState): Task {
    Chain([Fork([Branch(0, a, sa), Branch(1, b, sb)], {}, Running)], 0, Running)
  }

  function At(a: ActivityInvocation, b: ActivityInvocation, sa: LeafState, sb: LeafState, bindings: Bindings, log: seq<Event>): State {
    State(Tree(a, b, sa, sb), bindings, log)
  }

  lemma Loaded(a: ActivityInvocation, b: ActivityInvocation, variables: Bindings)
    ensures Init(Both(a, b), variables) == At(a, b, Idle, Idle, variables, [])
  {
    LoadedBranch(a, 0);
    LoadedBranch(b, 1);
    var root, bs := Both(a, b), [Invoke(a), Invoke(b)];
    assert bs[1..] == [Invoke(b)] && bs[1..][1..] == [];
    assert LoadAll(bs[1..], 1) == [Load(Invoke(b), 1)];
    assert LoadAll(bs, 0) == [Branch(0, a, Idle), Branch(1, b, Idle)];
    assert LoadParallel(root, 0) == [Fork([Branch(0, a, Idle), Branch(1, b, Idle)], {}, Running)];
    assert LoadSequence(root, ParallelSize(root)) == [] && LoadActivity(root, ParallelSize(root)) == [];
    assert Load(root, 0) == Chain(LoadParallel(root, 0) + [] + [], 0, Running);
    assert Load(root, 0).children == LoadParallel(root, 0);
  }

  lemma LoadedBranch(inv: ActivityInvocation, id: nat)
    ensures Load(Invoke(inv), id) == Branch(id, inv, Idle) && Size(Invoke(inv)) == 1
  {}

  // ---------- Steps ----------

  // A move of the activity of branch k, seen from the root.
  lemma LeafMove(a: ActivityInvocation, b: ActivityInvocation, sa: LeafState, sb: LeafState, state: LeafState, bindings: Bindings,
                 log: seq<Event>, k: nat, m: Move, write: Option<(string, string)>, event: Event, permits: Permits)
    requires k < 2 && !m.In?
    requires var leaf := if k == 0 then Leaf(0, a, sa) else Leaf(1, b, sb);
      Next(leaf, m, false, bindings, permits) == Some(Effect(leaf.(state := state), write, Some(event)))
    ensures Step(At(a, b, sa, sb, bindings, log), In(0, In(k, In(0, m))), permits)
         == Some(At(a, b, if k == 0 then state else sa, if k == 0 then sb else state, Apply(write, bindings), log + [event]))
  {
    var root := Tree(a, b, sa, sb);
    var root1 := Tree(a, b, if k == 0 then state else sa, if k == 0 then sb else state);
    var fork, fork1 := root.children[0], root1.children[0];
    var c, c1 := fork.children[k], fork1.children[k];
    assert c1.children == c.children[0 := c1.children[0]];
    assert Next(c, In(0, m), false, bindings, permits) == Some(Effect(c1, write, Some(event)));
    assert fork1.children == fork.children[k := c1];
    assert Next(fork, In(k, In(0, m)), false, bindings, permits) == Some(Effect(fork1, write, Some(event)));
    assert root1.children == root.children[0 := fork1];
  }

  // Branch k starts its activity.
  lemma StartMove(a: ActivityInvocation, b: ActivityInvocation, sa: LeafState, sb: LeafState, bindings: Bindings, log: seq<Event>,
                  k: nat, f: Activities) returns (m: Move, s: State)
    requires k < 2 && (if k == 0 then sa else sb).Idle?
    ensures Step(At(a, b, sa, sb, bindings, log), m, Functional(f)) == Some(s)
    ensures s == At(a, b, if k == 0 then Waiting(Input(a.arguments, bindings)) else sa,
                    if k == 0 then sb else Waiting(Input(b.arguments, bindings)), bindings, s.log)
  {
    var state := Waiting(Input((if k == 0 then a else b).arguments, bindings));
    m := In(0, In(k, In(0, Start)));
    LeafMove(a, b, sa, sb, state, bindings, log, k, Start, None, Started(k), Functional(f));
    s := Step(At(a, b, sa, sb, bindings, log), m, Functional(f)).value;
  }

  // Branch k finishes its activity with the result that f gives for its input.
  lemma FinishMove(a: ActivityInvocation, b: ActivityInvocation, sa: LeafState, sb: LeafState, bindings: Bindings, log: seq<Event>,
                   k: nat, f: Activities) returns (m: Move, s: State)
    requires k < 2 && (if k == 0 then sa else sb).Waiting?
    ensures Step(At(a, b, sa, sb, bindings, log), m, Functional(f)) == Some(s)
    ensures var inv := if k == 0 then a else b;
      var input := (if k == 0 then sa else sb).input;
      s == At(a, b, if k == 0 then Ended(None) else sa, if k == 0 then sb else Ended(None),
              Store(inv, f(inv.name, input), bindings), s.log)
  {
    var inv := if k == 0 then a else b;
    var value := f(inv.name, (if k == 0 then sa else sb).input);
    var write := if inv.result != "" then Some((inv.result, value)) else None;
    m := In(0, In(k, In(0, Finish(Success(value)))));
    LeafMove(a, b, sa, sb, Ended(None), bindings, log, k, Finish(Success(value)), write, Succeeded(k), Functional(f));
    s := Step(At(a, b, sa, sb, bindings, log), m, Functional(f)).value;
  }

  // ---------- Schedules ----------

  lemma FourSteps(s0: State, s1: State, s2: State, s3: State, s4: State,
                  m0: Move, m1: Move, m2: Move, m3: Move, p: Permits) returns (moves: seq<Move>)
    requires Step(s0, m0, p) == Some(s1) && Step(s1, m1, p) == Some(s2)
    requires Step(s2, m2, p) == Some(s3) && Step(s3, m3, p) == Some(s4)
    ensures Run(s0, moves, p) == Some(s4)
  {
    moves := [m0, m1, m2, m3];
    assert moves[3..][1..] == [] && moves[2..][1..] == moves[3..] && moves[1..][1..] == moves[2..];
    assert Run(s3, moves[3..], p) == Some(s4);
    assert Run(s2, moves[2..], p) == Some(s4);
    assert Run(s1, moves[1..], p) == Some(s4);
  }

  // Once both activities have ended the block can return, and the bindings stay.
  lemma EndedCanReturn(a: ActivityInvocation, b: ActivityInvocation, variables: Bindings, f: Activities,
                       prefix: seq<Move>, s: State) returns (moves: seq<Move>)
    requires Run(Init(Both(a, b), variables), prefix, Functional(f)) == Some(s)
    requires s.task == Tree(a, b, Ended(None), Ended(None))
    ensures Ends(a, b, variables, f, moves) && EndBindings(a, b, variables, f, moves) == s.bindings
  {
    InitIsInvariant(Both(a, b), variables);
    DslOutcome.RunKeepsInvariant(Init(Both(a, b), variables), prefix, Functional(f));
    var rest := CanReturn(s, Functional(f), (name, input) => Success(f(name, input)));
    RunConcat(Init(Both(a, b), variables), prefix, rest, Functional(f));
    BothEnded(a, b);
    EndedRunKeepsBindings(s, rest, Functional(f));
    moves := prefix + rest;
    LoadIsHealthy(Both(a, b), 0);
    RunKeepsHealthy(Init(Both(a, b), variables), moves, f);
    ReturnedIsDone(Run(Init(Both(a, b), variables), moves, Functional(f)).value.task);
  }

  lemma BothEnded(a: ActivityInvocation, b: ActivityInvocation)
    ensures AllEnded(Tree(a, b, Ended(None), Ended(None)))
  {
    var fork := Tree(a, b, Ended(None), Ended(None)).children[0];
    assert AllEnded(Branch(0, a, Ended(None)).children[0]) && AllEnded(Branch(1, b, Ended(None)).children[0]);
    assert AllEnded(Branch(0, a, Ended(None))) && AllEnded(Branch(1, b, Ended(None)));
    assert AllEnded(fork.children[0]) && AllEnded(fork.children[1]);
  }

  // Both start before either finishes; branch `last` finishes last.
  lemma Overlapped(a: ActivityInvocation, b: ActivityInvocation, variables: Bindings, f: Activities, last: nat)
    returns (moves: seq<Move>)
    requires last < 2
    ensures Ends(a, b, variables, f, moves)
    ensures var va, vb := f(a.name, Input(a.arguments, variables)), f(b.name, Input(b.arguments, variables));
      EndBindings(a, b, variables, f, moves)
        == if last == 0 then Store(a, va, Store(b, vb, variables)) else Store(b, vb, Store(a, va, variables))
  {
    Loaded(a, b, variables);
    var wa, wb, done := Waiting(Input(a.arguments, variables)), Waiting(Input(b.arguments, variables)), Ended(None);
    var m0, s1 := StartMove(a, b, Idle, Idle, variables, [], 0, f);
    var m1, s2 := StartMove(a, b, wa, Idle, variables, s1.log, 1, f);
    var m2, s3 := FinishMove(a, b, wa, wb, variables, s2.log, 1 - last, f);
    var m3, s4 := FinishMove(a, b, if last == 0 then wa else done, if last == 0 then done else wb, s3.bindings, s3.log, last, f);
    var prefix := FourSteps(At(a, b, Idle, Idle, variables, []), s1, s2, s3, s4, m0, m1, m2, m3, Functional(f));
    moves := EndedCanReturn(a, b, variables, f, prefix, s4);
  }

  // The second branch runs before the first.
  lemma Reversed(a: ActivityInvocation, b: ActivityInvocation, variables: Bindings, f: Activities) returns (moves: seq<Move>)
    ensures Ends(a, b, variables, f, moves)
    ensures var after := Store(b, f(b.name, Input(b.arguments, variables)), variables);
      EndBindings(a, b, variables, f, moves) == Store(a, f(a.name, Input(a.arguments, after)), after)
  {
    Loaded(a, b, variables);
    var wb, done := Waiting(Input(b.arguments, variables)), Ended(None);
    var m0, s1 := StartMove(a, b, Idle, Idle, variables, [], 1, f);
    var m1, s2 := FinishMove(a, b, Idle, wb, variables, s1.log, 1, f);
    var m2, s3 := StartMove(a, b, Idle, done, s2.bindings, s2.log, 0, f);
    var m3, s4 := FinishMove(a, b, Waiting(Input(a.arguments, s2.bindings)), done, s2.bindings, s3.log, 0, f);
    var prefix := FourSteps(At(a, b, Idle, Idle, variables, []), s1, s2, s3, s4, m0, m1, m2, m3, Functional(f));
    moves := EndedCanReturn(a, b, variables, f, prefix, s4);
  }

  lemma SequentialOfBoth(a: ActivityInvocation, b: ActivityInvocation, variables: Bindings, f: Activities)
    ensures var after := Store(a, f(a.name, Input(a.arguments, variables)), variables);
      Sequential(Both(a, b), variables, f) == Store(b, f(b.name, Input(b.arguments, after)), after)
  {
    var after := Sequential(Invoke(a), variables, f);
    assert [Invoke(a), Invoke(b)][1..] == [Invoke(b)] && [Invoke(b)][1..] == [];
    assert SequentialAll([Invoke(b)], after, f) == Sequential(Invoke(b), after, f);
  }

  // ---------- Conflicts lose confluence ----------

  // Some activities, variables and schedule give other bindings than the sequential run.
  ghost predicate Loses(a: ActivityInvocation, b: ActivityInvocation) {
    exists f: Activities, variables: Bindings, moves: seq<Move> ::
      Ends(a, b, variables, f, moves) && EndBindings(a, b, variables, f, moves) != Sequential(Both(a, b), variables, f)
  }

  // Different calls that write one variable: the earlier branch finishes last, and its value stays.
  lemma WritesRace(a: ActivityInvocation, b: ActivityInvocation)
    requires a.result == b.result != "" && !SameCall(a, b)
    ensures Loses(a, b)
  {
    var f, variables := Telling(a, b);
    var moves := Overlapped(a, b, variables, f, 0);
    SequentialOfBoth(a, b, variables, f);
    assert EndBindings(a, b, variables, f, moves)[a.result] == "a";
    assert Sequential(Both(a, b), variables, f)[a.result] == "b";
  }

  // Activities that tell two different calls apart, even if the second one reads what the first one wrote.
  lemma Telling(a: ActivityInvocation, b: ActivityInvocation) returns (f: Activities, variables: Bindings)
    requires !SameCall(a, b)
    ensures f(a.name, Input(a.arguments, variables)) == "a"
    ensures f(b.name, Input(b.arguments, Store(a, "a", variables))) == "b"
  {
    variables := map[];
    if a.name != b.name {
      f := (name, input) => if name == a.name then "a" else "b";
    } else if |a.arguments| != |b.arguments| {
      f := (name, input) => if |input| == |a.arguments| then "a" else "b";
    } else {
      var k :| 0 <= k < |a.arguments| && a.arguments[k] != b.arguments[k];
      variables := map[a.arguments[k] := "1"];
      f := (name, input) => if k < |input| && input[k] == "1" then "a" else "b";
      if a.arguments[k] == a.result {
        assert Store(a, "a", variables)[a.result] == "a" || a.result == "";
      }
    }
  }

  // An activity that answers "0" if it sees a "1", and "1" otherwise.
  function Flip(name: string, input: seq<string>): string {
    if "1" in input then "0" else "1"
  }

  lemma FlipUnseen(arguments: seq<string>)
    ensures Flip("", Input(arguments, map[])) == "1"
  {}

  lemma FlipSeen(arguments: seq<string>, x: string, bindings: Bindings)
    requires x in arguments && x in bindings && bindings[x] == "1"
    ensures Flip("", Input(arguments, bindings)) == "0"
  {
    var k :| 0 <= k < |arguments| && arguments[k] == x;
    assert Input(arguments, bindings)[k] == "1";
  }

  // The second reads what the first writes: it starts too early.
  lemma ReadTooEarly(a: ActivityInvocation, b: ActivityInvocation)
    requires a.result != "" && b.result != "" && a.result in b.arguments
    ensures Loses(a, b)
  {
    var moves := Overlapped(a, b, map[], Flip, 1);
    SequentialOfBoth(a, b, map[], Flip);
    FlipUnseen(a.arguments);
    FlipUnseen(b.arguments);
    FlipSeen(b.arguments, a.result, map[a.result := "1"]);
    assert EndBindings(a, b, map[], Flip, moves)[b.result] == "1";
    assert Sequential(Both(a, b), map[], Flip)[b.result] == "0";
  }

  // The first reads what the second writes: it starts too late.
  lemma ReadTooLate(a: ActivityInvocation, b: ActivityInvocation)
    requires a.result != "" && b.result != "" && a.result != b.result && b.result in a.arguments
    ensures Loses(a, b)
  {
    var moves := Reversed(a, b, map[], Flip);
    SequentialOfBoth(a, b, map[], Flip);
    FlipUnseen(a.arguments);
    FlipUnseen(b.arguments);
    FlipSeen(a.arguments, b.result, map[b.result := "1"]);
    assert EndBindings(a, b, map[], Flip, moves)[a.result] == "0";
    assert Sequential(Both(a, b), map[], Flip)[a.result] == "1";
  }

  /** Every conflict loses confluence: two writers of one variable, and a reader on either side of a writer. */
  lemma RaceLosesConfluence(a: ActivityInvocation, b: ActivityInvocation)
    requires Conflict(a, b)
    ensures Loses(a, b)
  {
    if a.result == b.result && !SameCall(a, b) {
      WritesRace(a, b);
    } else if a.result in b.arguments {
      ReadTooEarly(a, b);
    } else {
      ReadTooLate(a, b);
    }
  }

  // ---------- Everything else keeps it ----------

  // All activities of t are the same call, and have read what `variables` say.
  predicate Uniform(t: Task, a: ActivityInvocation, variables: Bindings) {
    if t.Leaf? then t.inv == a && (t.state.Waiting? ==> t.state.input == Input(a.arguments, variables))
    else forall k: nat | k < |t.children| :: Uniform(t.children[k], a, variables)
  }

  predicate NoneEnded(t: Task) {
    if t.Leaf? then !t.state.Ended? else forall k: nat | k < |t.children| :: NoneEnded(t.children[k])
  }

  lemma {:induction false} UniformStep(t: Task, m: Move, c: bool, b: Bindings, f: Activities, a: ActivityInvocation, variables: Bindings)
    requires Uniform(t, a, variables) && a.result != "" && Healthy(t) && !c && !Aborted(t)
    requires Input(a.arguments, b) == Input(a.arguments, variables)
    requires Next(t, m, c, b, Functional(f)).Some?
    ensures var e := Next(t, m, c, b, Functional(f)).value;
      && Uniform(e.task, a, variables)
      && (e.write.Some? ==> e.write.value == (a.result, f(a.name, Input(a.arguments, variables))))
      && (e.write.None? && NoneEnded(t) ==> NoneEnded(e.task))
    decreases m
  {
    if m.In? {
      UniformStep(t.children[m.child], m.move, c, b, f, a, variables);
    }
  }

  // The bindings are the first ones, or those with the result, which is the same whoever writes it.
  ghost predicate Settled(s: State, f: Activities, a: ActivityInvocation, variables: Bindings) {
    && Uniform(s.task, a, variables) && Healthy(s.task)
    && (|| s.bindings == Store(a, f(a.name, Input(a.arguments, variables)), variables)
        || (s.bindings == variables && NoneEnded(s.task)))
  }

  lemma {:induction false} UniformRun(s: State, moves: seq<Move>, f: Activities, a: ActivityInvocation, variables: Bindings)
    requires Settled(s, f, a, variables) && a.result != "" && a.result !in a.arguments
    requires Run(s, moves, Functional(f)).Some?
    ensures Settled(Run(s, moves, Functional(f)).value, f, a, variables)
    decreases |moves|
  {
    if moves != [] {
      UnreadInput(a.arguments, a.result, f(a.name, Input(a.arguments, variables)), variables);
      UniformStep(s.task, moves[0], false, s.bindings, f, a, variables);
      StepKeepsHealthy(s.task, moves[0], s.bindings, f);
      UniformRun(Step(s, moves[0], Functional(f)).value, moves[1..], f, a, variables);
    }
  }

  lemma SameCallTwice(a: ActivityInvocation, variables: Bindings, f: Activities, moves: seq<Move>)
    requires a.result != "" && a.result !in a.arguments && Ends(a, a, variables, f, moves)
    ensures EndBindings(a, a, variables, f, moves) == Sequential(Both(a, a), variables, f)
  {
    Loaded(a, a, variables);
    var root := Tree(a, a, Idle, Idle);
    var fork := root.children[0];
    assert Uniform(Leaf(0, a, Idle), a, variables) && Uniform(Leaf(1, a, Idle), a, variables);
    assert Uniform(fork.children[0], a, variables) && Uniform(fork.children[1], a, variables);
    assert NoneEnded(Leaf(0, a, Idle)) && NoneEnded(Leaf(1, a, Idle));
    assert NoneEnded(fork.children[0]) && NoneEnded(fork.children[1]);
    assert Uniform(fork, a, variables) && NoneEnded(fork);
    assert Owns(fork.children[0].children[0], 0) && Owns(fork.children[0], 0) && Owns(fork, 0) && Owns(root, 0);
    LoadIsHealthy(Both(a, a), 0);
    var s := Init(Both(a, a), variables);
    UniformRun(s, moves, f, a, variables);
    var r := Run(s, moves, Functional(f)).value;
    ReturnedIsDone(r.task);
    EndedLeaf(s, moves, f);
    SequentialOfBoth(a, a, variables, f);
    UnreadInput(a.arguments, a.result, f(a.name, Input(a.arguments, variables)), variables);
  }

  // A tree with an activity that has run to its end has an ended activity.
  lemma EndedLeaf(s: State, moves: seq<Move>, f: Activities)
    requires exists id: nat :: Owns(s.task, id)
    requires Run(s, moves, Functional(f)).Some? && Done(Run(s, moves, Functional(f)).value.task)
    ensures !NoneEnded(Run(s, moves, Functional(f)).value.task)
  {
    var id: nat :| Owns(s.task, id);
    RunKeepsOwns(s, moves, f, id);
    DoneHasEnded(Run(s, moves, Functional(f)).value.task, id);
  }

  lemma {:induction false} RunKeepsOwns(s: State, moves: seq<Move>, f: Activities, id: nat)
    requires Run(s, moves, Functional(f)).Some? && Owns(s.task, id)
    ensures Owns(Run(s, moves, Functional(f)).value.task, id)
    decreases |moves|
  {
    if moves != [] {
      StepKeepsShape(s.task, moves[0], false, s.bindings, Functional(f));
      ShapeFixesOwns(s.task, Step(s, moves[0], Functional(f)).value.task, id);
      RunKeepsOwns(Step(s, moves[0], Functional(f)).value, moves[1..], f, id);
    }
  }

  lemma {:induction false} DoneHasEnded(t: Task, id: nat)
    requires Done(t) && Owns(t, id)
    ensures !NoneEnded(t)
    decreases t
  {
    if !t.Leaf? {
      var k: nat :| k < |t.children| && Owns(t.children[k], id);
      DoneHasEnded(t.children[k], id);
    }
  }

  lemma NoConflictIsRaceFree(a: ActivityInvocation, b: ActivityInvocation, variables: Bindings)
    requires !Conflict(a, b) && !(a.result == b.result != "")
    ensures RaceFree(Load(Both(a, b), 0))
  {
    Loaded(a, b, variables);
    var fork := Tree(a, b, Idle, Idle).children[0];
    BranchTouches(0, a);
    BranchTouches(1, b);
    assert RaceFree(fork.children[0].children[0]) && RaceFree(fork.children[1].children[0]);
    assert RaceFree(fork.children[0]) && RaceFree(fork.children[1]);
    assert Clear(fork.children[0], fork.children[1]) && Clear(fork.children[1], fork.children[0]);
    assert RaceFree(fork);
  }

  lemma BranchTouches(id: nat, inv: ActivityInvocation)
    ensures forall x :: Writes(Branch(id, inv, Idle), x) <==> x == inv.result && x != ""
    ensures forall x :: Reads(Branch(id, inv, Idle), x) <==> x in inv.arguments && inv.result != ""
  {
    assert Branch(id, inv, Idle).children[0] == Leaf(id, inv, Idle);
  }

  /**
   A parallel block of two activities gives, in every schedule, with every activities and variables, the
   bindings of the sequential run, exactly when the two do not conflict.
   */
  lemma ConfluentExactly(a: ActivityInvocation, b: ActivityInvocation)
    ensures !Loses(a, b) <==> !Conflict(a, b)
  {
    if Conflict(a, b) {
      RaceLosesConfluence(a, b);
    } else {
      forall f: Activities, variables: Bindings, moves: seq<Move> | Ends(a, b, variables, f, moves)
        ensures EndBindings(a, b, variables, f, moves) == Sequential(Both(a, b), variables, f)
      {
        if a.result == b.result != "" {
          SameCallTwice(a, variables, f, moves);
        } else {
          NoConflictIsRaceFree(a, b, variables);
          Confluence(Both(a, b), variables, moves, f);
        }
      }
    }
  }
}
