/**
 The interpreter of dsl/workflow.go in its imperative form: a tree of coroutine objects that share one map of
 bindings. A move of a schedule goes down the tree to the coroutine it names, and changes that object and the
 shared map in place; the methods are proved to do what the step function of Dsl says.
 */
module DslInterpreter {
  import opened Wrappers
  import opened Dsl
  import opened DslConfluence

  method MakeInput(argNames: seq<string>, argsMap: Bindings) returns (args: seq<string>)
    ensures |args| == |argNames|
    ensures forall i | 0 <= i < |args| :: args[i] == if argNames[i] in argsMap then argsMap[argNames[i]] else ""
    ensures args == Input(argNames, argsMap)
  {
    args := [];
    for i := 0 to |argNames|
      invariant args == Input(argNames[..i], argsMap)
    {
      var arg := if argNames[i] in argsMap then argsMap[argNames[i]] else "";
      args := args + [arg];
    }
    assert argNames[..|argNames|] == argNames;
  }

  // What all coroutines of a workflow share: the bindings map that `execute` passes on, and the event log.
  class Memory {
    var bindings: Bindings
    var log: seq<Event>

    // The bindings are a copy of the workflow's variables, built key by key.
    constructor (variables: Bindings)
      ensures bindings == variables && log == []
    {
      bindings := map[];
      log := [];
      new;
      var keys := variables.Keys;
      while keys != {}
        invariant keys <= variables.Keys
        invariant bindings == map k | k in variables && k !in keys :: variables[k]
        invariant log == []
        decreases keys
      {
        var k :| k in keys;
        bindings := bindings[k := variables[k]];
        keys := keys - {k};
      }
      assert bindings == variables;
    }
  }

  datatype Kind = Activity(id: nat, inv: ActivityInvocation) | Sequenced | Forked

  /** A coroutine of the tree, with the variables of its `execute` call. */
  class Node {
    const kind: Kind
    const children: seq<Node>
    var state: LeafState
    var pc: nat
    var picked: set<nat>
    var ret: Status
    ghost const Repr: set<object>

    ghost predicate Valid()
      reads this, Repr
      decreases Repr
    {
      && this in Repr
      && (kind.Activity? ==> children == [])
      && (forall i | 0 <= i < |children| ::
            children[i] in Repr && children[i].Repr <= Repr && this !in children[i].Repr && children[i].Valid())
      && (forall i, j | 0 <= i < j < |children| :: children[i].Repr !! children[j].Repr)
    }

    ghost function Value(): (t: Task)
      requires Valid()
      reads this, Repr
      decreases Repr
    {
      match kind
      case Activity(id, inv) => Leaf(id, inv, state)
      case Sequenced => Chain(seq(|children|, i requires Valid() && 0 <= i < |children| reads this, Repr => children[i].Value()), pc, ret)
      case Forked => Fork(seq(|children|, i requires Valid() && 0 <= i < |children| reads this, Repr => children[i].Value()), picked, ret)
    }

    constructor (kind: Kind, children: seq<Node>, ghost parts: set<object>)
      requires kind.Activity? ==> children == []
      requires forall i | 0 <= i < |children| :: children[i] in parts && children[i].Repr <= parts && children[i].Valid()
      requires forall i, j | 0 <= i < j < |children| :: children[i].Repr !! children[j].Repr
      ensures Valid() && Repr == {this} + parts && fresh(this)
      ensures this.kind == kind && this.children == children
      ensures state == Idle && pc == 0 && picked == {} && ret == Running
    {
      this.kind, this.children := kind, children;
      state, pc, picked, ret := Idle, 0, {}, Running;
      Repr := {this} + parts;
    }

    function Status(): (r: Dsl.Status)
      requires Valid()
      reads this, Repr
      ensures r == StatusOf(Value())
    {
      if !kind.Activity? then ret else if state.Ended? then Returned(state.err) else Running
    }

    // Resumes the coroutine that the move names, down the tree; false when it cannot move.
    method Resume(m: Move, cancelled: bool, memory: Memory, permits: Permits) returns (moved: bool)
      requires Valid() && memory !in Repr
      modifies Repr, memory
      ensures Valid()
      ensures var e := Next(old(Value()), m, cancelled, old(memory.bindings), permits);
        && (moved <==> e.Some?)
        && Value() == (if moved then e.value.task else old(Value()))
        && memory.bindings == (if moved then Apply(e.value.write, old(memory.bindings)) else old(memory.bindings))
        && memory.log == (if moved && e.value.event.Some? then old(memory.log) + [e.value.event.value] else old(memory.log))
      decreases m
    {
      if !m.In? {
        moved := ResumeHere(m, cancelled, memory, permits);
      } else if kind.Activity? || m.child >= |children| || (kind.Sequenced? && m.child != pc) {
        moved := false;
      } else {
        var aborted := kind.Forked? && ret.Returned? && ret.err.Some?;
        assert aborted == Aborted(Value());
        moved := children[m.child].Resume(m.move, cancelled || aborted, memory, permits);
        if moved {
          assert Value() == WithChild(old(Value()), m.child, children[m.child].Value());
        } else {
          assert Value() == old(Value());
        }
      }
    }

    // One stretch of this coroutine between two blocking calls.
    method ResumeHere(m: Move, cancelled: bool, memory: Memory, permits: Permits) returns (moved: bool)
      requires Valid() && memory !in Repr && !m.In?
      modifies this`state, this`pc, this`picked, this`ret, memory
      ensures Valid()
      ensures var e := NextHere(old(Value()), m, cancelled, old(memory.bindings), permits);
        && (moved <==> e.Some?)
        && Value() == (if moved then e.value.task else old(Value()))
        && memory.bindings == (if moved then Apply(e.value.write, old(memory.bindings)) else old(memory.bindings))
        && memory.log == (if moved && e.value.event.Some? then old(memory.log) + [e.value.event.value] else old(memory.log))
    {
      match m {
        case Start =>
          moved := kind.Activity? && state.Idle?;
          if moved {
            var input := MakeInput(kind.inv.arguments, memory.bindings);
            state := Waiting(input);
            memory.log := memory.log + [Started(kind.id)];
          }
        case Finish(result) =>
          moved := FinishActivity(result, cancelled, memory, permits);
        case Advance =>
          moved := kind.Sequenced? && ret.Running? && pc < |children| && children[pc].Status().Returned?;
          if moved {
            var err := children[pc].Status().err;
            if err.None? { pc := pc + 1; } else { ret := Returned(err); }
          }
        case Pick(i) =>
          moved := kind.Forked? && ret.Running? && i < |children| && i !in picked && children[i].Status().Returned?;
          if moved {
            var err := children[i].Status().err;
            if err.None? { picked := picked + {i}; } else { ret := Returned(err); }
          }
        case Return =>
          var all := if kind.Forked? then forall k: nat | k < |children| :: k in picked else pc == |children|;
          moved := !kind.Activity? && ret.Running? && all;
          if moved {
            ret := Returned(None);
          }
      }
    }

    // The activity answers: its result goes into the bindings, or its error to the caller.
    method FinishActivity(result: ActivityResult, cancelled: bool, memory: Memory, permits: Permits) returns (moved: bool)
      requires Valid() && memory !in Repr
      modifies this`state, memory
      ensures Valid()
      ensures var e := NextHere(old(Value()), Finish(result), cancelled, old(memory.bindings), permits);
        && (moved <==> e.Some?)
        && Value() == (if moved then e.value.task else old(Value()))
        && memory.bindings == (if moved then Apply(e.value.write, old(memory.bindings)) else old(memory.bindings))
        && memory.log == (if moved && e.value.event.Some? then old(memory.log) + [e.value.event.value] else old(memory.log))
    {
      if !kind.Activity? || !state.Waiting? {
        return false;
      }
      if result.Cancellation? {
        if !cancelled { return false; }
        state := Ended(Some(Canceled));
        memory.log := memory.log + [Cancelled(kind.id)];
        return true;
      }
      if !permits(kind.inv.name, state.input, result) {
        return false;
      }
      if result.Failure? {
        state := Ended(Some(ActivityError(kind.id, result.reason)));
        memory.log := memory.log + [Failed(kind.id, result.reason)];
        return true;
      }
      if kind.inv.result != "" {
        memory.bindings := memory.bindings[kind.inv.result := result.value];
      }
      state := Ended(None);
      memory.log := memory.log + [Succeeded(kind.id)];
      return true;
    }
  }

  // Separate nodes, all within `parts`, that hold these tasks.
  ghost predicate Forest(nodes: seq<Node>, parts: set<object>, ts: seq<Task>)
    reads parts, nodes
  {
    && |nodes| == |ts|
    && (forall i | 0 <= i < |nodes| ::
          nodes[i] in parts && nodes[i].Repr <= parts && nodes[i].Valid() && nodes[i].Value() == ts[i])
    && (forall i, j | 0 <= i < j < |nodes| :: nodes[i].Repr !! nodes[j].Repr)
  }

  lemma Plant(nodes: seq<Node>, parts: set<object>, ts: seq<Task>, more: seq<Node>, others: set<object>, us: seq<Task>)
    requires Forest(nodes, parts, ts) && Forest(more, others, us) && parts !! others
    ensures Forest(nodes + more, parts + others, ts + us)
  {}

  lemma PlantOne(node: Node)
    requires node.Valid()
    ensures Forest([node], node.Repr, [node.Value()])
  {}

  // The coroutine of a statement before anything ran, with the parts that the statement has.
  method Build(s: Statement, id: nat) returns (node: Node)
    ensures fresh(node.Repr) && node.Valid() && node.Value() == Load(s, id)
    decreases s, 4
  {
    var nodes;
    ghost var parts;
    nodes, parts := BuildParts(s, id);
    node := new Node(Sequenced, nodes, parts);
    assert node.Value().children == Load(s, id).children;
  }

  method BuildParts(s: Statement, id: nat) returns (nodes: seq<Node>, ghost parts: set<object>)
    ensures fresh(parts) && Forest(nodes, parts, Load(s, id).children)
    decreases s, 3
  {
    ghost var ts := LoadParallel(s, id) + LoadSequence(s, id + ParallelSize(s));
    nodes, parts := BuildBlocks(s, id);
    var activity;
    ghost var parts1;
    var id2 := id + ParallelSize(s) + SequenceSize(s);
    activity, parts1 := BuildActivity(s, id2);
    ghost var us := LoadActivity(s, id2);
    Plant(nodes, parts, ts, activity, parts1, us);
    nodes, parts := nodes + activity, parts + parts1;
    assert ts + us == Load(s, id).children;
  }

  method BuildBlocks(s: Statement, id: nat) returns (nodes: seq<Node>, ghost parts: set<object>)
    ensures fresh(parts) && Forest(nodes, parts, LoadParallel(s, id) + LoadSequence(s, id + ParallelSize(s)))
    decreases s, 2
  {
    var elements;
    ghost var parts1;
    nodes, parts := BuildParallel(s, id);
    elements, parts1 := BuildSequence(s, id + ParallelSize(s));
    Plant(nodes, parts, LoadParallel(s, id), elements, parts1, LoadSequence(s, id + ParallelSize(s)));
    nodes, parts := nodes + elements, parts + parts1;
  }

  method BuildParallel(s: Statement, id: nat) returns (nodes: seq<Node>, ghost parts: set<object>)
    ensures fresh(parts) && Forest(nodes, parts, LoadParallel(s, id))
    decreases s, 1
  {
    nodes, parts := [], {};
    if s.parallel.Some? {
      var node := BuildBlock(Forked, s.parallel.value.branches, id);
      PlantOne(node);
      nodes, parts := [node], node.Repr;
    }
  }

  method BuildSequence(s: Statement, id: nat) returns (nodes: seq<Node>, ghost parts: set<object>)
    ensures fresh(parts) && Forest(nodes, parts, LoadSequence(s, id))
    decreases s, 1
  {
    nodes, parts := [], {};
    if s.sequence.Some? {
      var node := BuildBlock(Sequenced, s.sequence.value.elements, id);
      PlantOne(node);
      nodes, parts := [node], node.Repr;
    }
  }

  method BuildActivity(s: Statement, id: nat) returns (nodes: seq<Node>, ghost parts: set<object>)
    ensures fresh(parts) && Forest(nodes, parts, LoadActivity(s, id))
  {
    nodes, parts := [], {};
    if s.activity.Some? {
      var node := new Node(Activity(id, s.activity.value), [], {});
      PlantOne(node);
      nodes, parts := [node], node.Repr;
    }
  }

  // The coroutine of a sequence or a parallel block.
  method BuildBlock(kind: Kind, ss: seq<Statement>, id: nat) returns (node: Node)
    requires !kind.Activity?
    ensures fresh(node.Repr) && node.Valid()
    ensures node.Value() == if kind.Forked? then Fork(LoadAll(ss, id), {}, Running) else Chain(LoadAll(ss, id), 0, Running)
    decreases ss, 2
  {
    var nodes;
    ghost var parts;
    nodes, parts := BuildAll(ss, id);
    node := new Node(kind, nodes, parts);
    assert node.Value().children == LoadAll(ss, id);
  }

  method BuildAll(ss: seq<Statement>, id: nat) returns (nodes: seq<Node>, ghost parts: set<object>)
    ensures fresh(parts) && Forest(nodes, parts, LoadAll(ss, id))
    decreases ss, 1
  {
    nodes, parts := [], {};
    if ss != [] {
      var node := Build(ss[0], id);
      nodes, parts := BuildAll(ss[1..], id + Size(ss[0]));
      PlantOne(node);
      Plant([node], node.Repr, [node.Value()], nodes, parts, LoadAll(ss[1..], id + Size(ss[0])));
      nodes, parts := [node] + nodes, node.Repr + parts;
    }
  }

  /** A workflow in progress: the tree of its coroutines, which share one memory. */
  class SimpleDslWorkflow {
    const root: Node
    const memory: Memory

    ghost predicate Valid()
      reads this, root, root.Repr
    {
      root.Valid() && memory !in root.Repr
    }

    ghost function Snapshot(): State
      requires Valid()
      reads this, root, root.Repr, memory
    {
      State(root.Value(), memory.bindings, memory.log)
    }

    constructor (statement: Statement, variables: Bindings)
      ensures Valid() && fresh(root.Repr) && fresh(memory)
      ensures Snapshot() == Init(statement, variables)
    {
      var node := Build(statement, 0);
      var shared := new Memory(variables);
      root, memory := node, shared;
    }

    // Follows a schedule; `done` tells whether all its moves were enabled.
    method Follow(moves: seq<Move>, permits: Permits) returns (done: bool)
      requires Valid()
      modifies root.Repr, memory
      ensures Valid()
      ensures done <==> Run(old(Snapshot()), moves, permits).Some?
      ensures done ==> Snapshot() == Run(old(Snapshot()), moves, permits).value
    {
      ghost var first := Snapshot();
      var i := 0;
      while i < |moves|
        invariant 0 <= i <= |moves| && Valid()
        invariant Run(Snapshot(), moves[i..], permits) == Run(first, moves, permits)
      {
        ghost var before := Snapshot();
        var moved := root.Resume(moves[i], false, memory, permits);
        assert moved <==> Step(before, moves[i], permits).Some?;
        if !moved {
          return false;
        }
        assert Snapshot() == Step(before, moves[i], permits).value;
        assert moves[i..][1..] == moves[i + 1..];
        i := i + 1;
      }
      return true;
    }
  }

  /**
   Runs a workflow along any schedule: when it has returned, a race-free workflow without failures has left
   the sequential bindings, and nil.
   */
  method Execute(statement: Statement, variables: Bindings, moves: seq<Move>, f: Activities)
    returns (returned: bool, err: Option<Error>, bindings: Bindings)
    requires RaceFree(Load(statement, 0))
    ensures returned <==>
      var r := Run(Init(statement, variables), moves, Functional(f)); r.Some? && StatusOf(r.value.task).Returned?
    ensures returned ==> err == None && bindings == Sequential(statement, variables, f)
  {
    var workflow := new SimpleDslWorkflow(statement, variables);
    var done := workflow.Follow(moves, Functional(f));
    var status := workflow.root.Status();
    bindings := workflow.memory.bindings;
    returned := done && status.Returned?;
    err := None;
    if returned {
      err := status.err;
      Confluence(statement, variables, moves, f);
    }
  }
}
