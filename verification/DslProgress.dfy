/**
 Progress of the DSL interpreter: no schedule gets stuck while the workflow is running, every schedule is
 finite, and all schedules that return nil take the same number of moves.
 */
module DslProgress {
  import opened Wrappers
  import opened Dsl
  import opened DslOutcome

  // The moves that are left in t if nothing fails.
  function Work(t: Task): nat
    decreases t, 1
  {
    match t
    case Leaf(_, _, state) => if state.Idle? then 2 else if state.Waiting? then 1 else 0
    case Chain(children, pc, ret) =>
      WorkAll(children) + (if pc <= |children| then |children| - pc else 0) + if ret.Running? then 1 else 0
    case Fork(children, picked, ret) =>
      WorkAll(children) + Unpicked(|children|, picked) + if ret.Running? then 1 else 0
  }

  function WorkAll(ts: seq<Task>): nat
    decreases ts, 0
  {
    if ts == [] then 0 else Work(ts[0]) + WorkAll(ts[1..])
  }

  function Unpicked(n: nat, picked: set<nat>): nat {
    if n == 0 then 0 else Unpicked(n - 1, picked) + if n - 1 in picked then 0 else 1
  }

  lemma {:induction false} PickDoesWork(n: nat, picked: set<nat>, i: nat)
    requires i !in picked
    ensures Unpicked(n, picked) == Unpicked(n, picked + {i}) + if i < n then 1 else 0
  {
    if n > 0 { PickDoesWork(n - 1, picked, i); }
  }

  lemma {:induction false} WorkOfUpdate(ts: seq<Task>, i: nat, c: Task)
    requires i < |ts|
    ensures WorkAll(ts[i := c]) + Work(ts[i]) == WorkAll(ts) + Work(c)
    decreases |ts|
  {
    if i == 0 {
      assert ts[i := c][1..] == ts[1..];
    } else {
      assert ts[i := c][1..] == ts[1..][i - 1 := c];
      WorkOfUpdate(ts[1..], i - 1, c);
    }
  }

  lemma {:induction false} StepDoesWork(t: Task, m: Move, c: bool, b: Bindings, permits: Permits)
    requires Next(t, m, c, b, permits).Some?
    ensures Work(Next(t, m, c, b, permits).value.task) + 1 == Work(t)
    decreases m
  {
    if m.In? {
      StepDoesWork(t.children[m.child], m.move, c || Aborted(t), b, permits);
      WorkOfUpdate(t.children, m.child, Next(t, m, c, b, permits).value.task.children[m.child]);
    } else if m.Pick? {
      PickDoesWork(|t.children|, t.picked, m.branch);
    }
  }

  lemma {:induction false} NilLeavesNoWork(t: Task, c: bool)
    requires Sound(t, c) && StatusOf(t) == Returned(None)
    ensures Work(t) == 0
    decreases t, 1
  {
    if !t.Leaf? {
      NilLeavesNoWorkAll(t.children, c);
      if t.Fork? { AllPicked(|t.children|, t.picked); }
    }
  }

  lemma {:induction false} NilLeavesNoWorkAll(ts: seq<Task>, c: bool)
    requires forall k: nat | k < |ts| :: Sound(ts[k], c) && StatusOf(ts[k]) == Returned(None)
    ensures WorkAll(ts) == 0
    decreases ts, 0
  {
    if ts != [] {
      NilLeavesNoWork(ts[0], c);
      NilLeavesNoWorkAll(ts[1..], c);
    }
  }

  lemma AllPicked(n: nat, picked: set<nat>)
    requires forall k: nat | k < n :: k in picked
    ensures Unpicked(n, picked) == 0
  {}

  lemma {:induction false} RunDoesWork(s: State, moves: seq<Move>, permits: Permits)
    requires Run(s, moves, permits).Some?
    ensures |moves| + Work(Run(s, moves, permits).value.task) == Work(s.task)
    decreases |moves|
  {
    if moves != [] {
      StepDoesWork(s.task, moves[0], false, s.bindings, permits);
      RunDoesWork(Step(s, moves[0], permits).value, moves[1..], permits);
    }
  }

  /** No schedule is longer than the work of the tree, and every schedule that returns nil is exactly that long. */
  lemma SchedulesAreFinite(root: Statement, variables: Bindings, moves: seq<Move>, permits: Permits)
    requires Run(Init(root, variables), moves, permits).Some?
    ensures |moves| <= Work(Load(root, 0))
    ensures StatusOf(Run(Init(root, variables), moves, permits).value.task) == Returned(None)
      ==> |moves| == Work(Load(root, 0))
  {
    var r := Run(Init(root, variables), moves, permits).value;
    RunDoesWork(Init(root, variables), moves, permits);
    InitIsInvariant(root, variables);
    RunKeepsInvariant(Init(root, variables), moves, permits);
    if StatusOf(r.task) == Returned(None) {
      NilLeavesNoWork(r.task, false);
    }
  }

  // The activities can always answer: whatever the input, some result other than a cancellation is possible.
  ghost predicate Answers(permits: Permits, answer: (string, seq<string>) -> ActivityResult) {
    forall name, input :: !answer(name, input).Cancellation? && permits(name, input, answer(name, input))
  }

  lemma {:induction false} RunningCanMove(
    t: Task, c: bool, b: Bindings, permits: Permits, answer: (string, seq<string>) -> ActivityResult) returns (m: Move)
    requires Sound(t, c) && StatusOf(t).Running? && Answers(permits, answer)
    ensures Next(t, m, c, b, permits).Some?
    decreases t
  {
    match t
    case Leaf(_, inv, state) =>
      m := if state.Idle? then Start else Finish(answer(inv.name, state.input));
    case Chain(children, pc, _) =>
      if pc == |children| {
        m := Return;
      } else if StatusOf(children[pc]).Returned? {
        m := Advance;
      } else {
        var inner := RunningCanMove(children[pc], c, b, permits, answer);
        m := In(pc, inner);
      }
    case Fork(children, picked, _) =>
      if k: nat :| k < |children| && k !in picked {
        if StatusOf(children[k]).Returned? {
          m := Pick(k);
        } else {
          var inner := RunningCanMove(children[k], c, b, permits, answer);
          m := In(k, inner);
        }
      } else {
        m := Return;
      }
  }

  /** A workflow that has not returned can always move, however its schedule began. */
  lemma NeverStuck(
    root: Statement, variables: Bindings, moves: seq<Move>, permits: Permits,
    answer: (string, seq<string>) -> ActivityResult)
    requires Run(Init(root, variables), moves, permits).Some? && Answers(permits, answer)
    requires StatusOf(Run(Init(root, variables), moves, permits).value.task).Running?
    ensures exists m :: Step(Run(Init(root, variables), moves, permits).value, m, permits).Some?
  {
    var r := Run(Init(root, variables), moves, permits).value;
    InitIsInvariant(root, variables);
    RunKeepsInvariant(Init(root, variables), moves, permits);
    var m := RunningCanMove(r.task, false, r.bindings, permits, answer);
    assert Step(r, m, permits).Some?;
  }

  // ---------- Bringing a workflow to its end ----------

  lemma {:induction false} RunConcat(s: State, a: seq<Move>, b: seq<Move>, permits: Permits)
    requires Run(s, a, permits).Some?
    ensures Run(s, a + b, permits) == Run(Run(s, a, permits).value, b, permits)
    decreases a
  {
    if a == [] {
      assert a + b == b;
    } else {
      assert (a + b)[1..] == a[1..] + b;
      RunConcat(Step(s, a[0], permits).value, a[1..], b, permits);
    }
  }

  /** From every point of every schedule the workflow can be brought to its end. */
  lemma {:induction false} CanReturn(s: State, permits: Permits, answer: (string, seq<string>) -> ActivityResult)
    returns (moves: seq<Move>)
    requires Invariant(s) && Answers(permits, answer)
    ensures Run(s, moves, permits).Some? && StatusOf(Run(s, moves, permits).value.task).Returned?
    decreases Work(s.task)
  {
    moves := [];
    if StatusOf(s.task).Running? {
      var m := RunningCanMove(s.task, false, s.bindings, permits, answer);
      StepDoesWork(s.task, m, false, s.bindings, permits);
      StepKeepsInvariant(s, m, permits);
      var rest := CanReturn(Step(s, m, permits).value, permits, answer);
      moves := [m] + rest;
    }
  }

  predicate AllEnded(t: Task) {
    if t.Leaf? then t.state.Ended? else forall k: nat | k < |t.children| :: AllEnded(t.children[k])
  }

  // When all activities have ended, nothing is written any more.
  lemma {:induction false} EndedStepKeepsBindings(t: Task, m: Move, c: bool, b: Bindings, permits: Permits)
    requires AllEnded(t) && Next(t, m, c, b, permits).Some?
    ensures var e := Next(t, m, c, b, permits).value; AllEnded(e.task) && e.write.None?
    decreases m
  {
    if m.In? {
      EndedStepKeepsBindings(t.children[m.child], m.move, c || Aborted(t), b, permits);
    }
  }

  lemma {:induction false} EndedRunKeepsBindings(s: State, moves: seq<Move>, permits: Permits)
    requires AllEnded(s.task) && Run(s, moves, permits).Some?
    ensures Run(s, moves, permits).value.bindings == s.bindings
    decreases |moves|
  {
    if moves != [] {
      EndedStepKeepsBindings(s.task, moves[0], false, s.bindings, permits);
      EndedRunKeepsBindings(Step(s, moves[0], permits).value, moves[1..], permits);
    }
  }
}
