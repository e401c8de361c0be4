/**
 The DSL interpreter of dsl/workflow.go.

 A statement tree runs as a set of coroutines over one shared bindings map. An activity reads its
 arguments when it is started and writes its result when it is finished, so the branches of a parallel
 block interleave. The coroutines are a tree of tasks with the shape of the statement tree; a Move names
 the task that runs next and what it does, so a schedule is a sequence of moves and a statement about all
 sequences of moves is a statement about all schedules.
 */
module Dsl {
  import opened Wrappers

  type Bindings = map<string, string>

  datatype ActivityInvocation = ActivityInvocation(name: string, arguments: seq<string>, result: string)

  datatype Statement = Statement(
    activity: Option<ActivityInvocation>,
    sequence: Option<Sequence>,
    parallel: Option<Parallel>)

  datatype Sequence = Sequence(elements: seq<Statement>)

  datatype Parallel = Parallel(branches: seq<Statement>)

  // ---------- Bindings ----------

  // A Go map read: an absent variable reads as the empty string.
  function Lookup(b: Bindings, x: string): string {
    if x in b then b[x] else ""
  }

  function Input(arguments: seq<string>, b: Bindings): (input: seq<string>) {
    seq(|arguments|, i requires 0 <= i < |arguments| => Lookup(b, arguments[i]))
  }

  function Store(inv: ActivityInvocation, value: string, b: Bindings): Bindings {
    if inv.result != "" then b[inv.result := value] else b
  }

  // ---------- The reference: one branch after another ----------

  function Sequential(s: Statement, b: Bindings, f: (string, seq<string>) -> string): Bindings
    decreases s, 1
  {
    var b1 := if s.parallel.Some? then SequentialAll(s.parallel.value.branches, b, f) else b;
    var b2 := if s.sequence.Some? then SequentialAll(s.sequence.value.elements, b1, f) else b1;
    if s.activity.Some? then
      var inv := s.activity.value;
      Store(inv, f(inv.name, Input(inv.arguments, b2)), b2)
    else b2
  }

  function SequentialAll(ss: seq<Statement>, b: Bindings, f: (string, seq<string>) -> string): Bindings
    decreases ss, 0
  {
    if ss == [] then b else SequentialAll(ss[1..], Sequential(ss[0], b, f), f)
  }

  // ---------- Coroutines ----------

  datatype Error = ActivityError(id: nat, reason: string) | Canceled

  datatype LeafState = Idle | Waiting(input: seq<string>) | Ended(err: Option<Error>)

  datatype Status = Running | Returned(err: Option<Error>)

  // A Leaf is one activity invocation, numbered in program order. A Chain is the loop over the elements of
  // a sequence (and the three optional parts of a statement). A Fork is a parallel block: `picked` are the
  // branches its selector has already delivered.
  datatype Task =
    | Leaf(id: nat, inv: ActivityInvocation, state: LeafState)
    | Chain(children: seq<Task>, pc: nat, ret: Status)
    | Fork(children: seq<Task>, picked: set<nat>, ret: Status)

  function StatusOf(t: Task): Status {
    match t
    case Leaf(_, _, state) => if state.Ended? then Returned(state.err) else Running
    case Chain(_, _, ret) => ret
    case Fork(_, _, ret) => ret
  }

  function WithChild(t: Task, i: nat, child: Task): Task
    requires !t.Leaf? && i < |t.children|
  {
    match t
    case Chain(children, pc, ret) => Chain(children[i := child], pc, ret)
    case Fork(children, picked, ret) => Fork(children[i := child], picked, ret)
  }

  predicate Aborted(t: Task) {
    t.Fork? && t.ret.Returned? && t.ret.err.Some?
  }

  // The number of activities in a statement and in its parts.
  function Size(s: Statement): nat
    decreases s, 1
  {
    ParallelSize(s) + SequenceSize(s) + if s.activity.Some? then 1 else 0
  }

  function ParallelSize(s: Statement): nat
    decreases s, 0
  {
    if s.parallel.Some? then SizeAll(s.parallel.value.branches) else 0
  }

  function SequenceSize(s: Statement): nat
    decreases s, 0
  {
    if s.sequence.Some? then SizeAll(s.sequence.value.elements) else 0
  }

  function SizeAll(ss: seq<Statement>): nat
    decreases ss, 0
  {
    if ss == [] then 0 else Size(ss[0]) + SizeAll(ss[1..])
  }

  // The task tree of a statement before anything ran; its activities are numbered from `id`. Statement.execute
  // runs the three parts a statement may have in this order.
  function Load(s: Statement, id: nat): Task
    decreases s, 1
  {
    var id1 := id + ParallelSize(s);
    var id2 := id1 + SequenceSize(s);
    Chain(LoadParallel(s, id) + LoadSequence(s, id1) + LoadActivity(s, id2), 0, Running)
  }

  function LoadParallel(s: Statement, id: nat): seq<Task>
    decreases s, 0
  {
    if s.parallel.Some? then [Fork(LoadAll(s.parallel.value.branches, id), {}, Running)] else []
  }

  function LoadSequence(s: Statement, id: nat): seq<Task>
    decreases s, 0
  {
    if s.sequence.Some? then [Chain(LoadAll(s.sequence.value.elements, id), 0, Running)] else []
  }

  function LoadActivity(s: Statement, id: nat): seq<Task> {
    if s.activity.Some? then [Leaf(id, s.activity.value, Idle)] else []
  }

  function LoadAll(ss: seq<Statement>, id: nat): seq<Task>
    decreases ss, 0
  {
    if ss == [] then [] else [Load(ss[0], id)] + LoadAll(ss[1..], id + Size(ss[0]))
  }

  datatype ActivityResult = Success(value: string) | Failure(reason: string) | Cancellation

  datatype Move =
    | Start
    | Finish(result: ActivityResult)
    | Advance
    | Pick(branch: nat)
    | Return
    | In(child: nat, move: Move)

  datatype Event = Started(id: nat) | Succeeded(id: nat) | Failed(id: nat, reason: string) | Cancelled(id: nat)

  datatype Effect = Effect(task: Task, write: Option<(string, string)>, event: Option<Event>)

  // Which results an activity of a given name and input may end with.
  type Permits = (string, seq<string>, ActivityResult) -> bool

  function Functional(f: (string, seq<string>) -> string): Permits {
    (name, input, result) => result == Success(f(name, input))
  }

  function Apply(w: Option<(string, string)>, b: Bindings): Bindings {
    if w.Some? then b[w.value.0 := w.value.1] else b
  }

  // One step of the coroutine that the move names; None when the move is not enabled. A cancellation is
  // delivered only under a cancelled context, which is the context of the branches of an aborted Fork.
  function Next(t: Task, m: Move, cancelled: bool, b: Bindings, permits: Permits): Option<Effect>
    decreases m
  {
    if !m.In? then NextHere(t, m, cancelled, b, permits)
    else if !t.Leaf? && m.child < |t.children| && (t.Chain? ==> m.child == t.pc) then
      var inner := Next(t.children[m.child], m.move, cancelled || Aborted(t), b, permits);
      if inner.Some? then
        Some(inner.value.(task := WithChild(t, m.child, inner.value.task)))
      else None
    else None
  }

  // A step of the coroutine at the root of t.
  function NextHere(t: Task, m: Move, cancelled: bool, b: Bindings, permits: Permits): Option<Effect>
    requires !m.In?
  {
    match m
    case Start =>
      if t.Leaf? && t.state.Idle? then
        Some(Effect(t.(state := Waiting(Input(t.inv.arguments, b))), None, Some(Started(t.id))))
      else None
    case Finish(result) =>
      if t.Leaf? && t.state.Waiting? then
        match result
        case Success(value) =>
          if permits(t.inv.name, t.state.input, result) then
            Some(Effect(t.(state := Ended(None)),
                        if t.inv.result != "" then Some((t.inv.result, value)) else None,
                        Some(Succeeded(t.id))))
          else None
        case Failure(reason) =>
          if permits(t.inv.name, t.state.input, result) then
            Some(Effect(t.(state := Ended(Some(ActivityError(t.id, reason)))), None, Some(Failed(t.id, reason))))
          else None
        case Cancellation =>
          if cancelled then Some(Effect(t.(state := Ended(Some(Canceled))), None, Some(Cancelled(t.id)))) else None
      else None
    case Advance =>
      if t.Chain? && t.ret.Running? && t.pc < |t.children| && StatusOf(t.children[t.pc]).Returned? then
        var err := StatusOf(t.children[t.pc]).err;
        Some(Effect(if err.None? then t.(pc := t.pc + 1) else Chain(t.children, t.pc, Returned(err)), None, None))
      else None
    case Pick(i) =>
      if t.Fork? && t.ret.Running? && i < |t.children| && i !in t.picked && StatusOf(t.children[i]).Returned? then
        var err := StatusOf(t.children[i]).err;
        Some(Effect(if err.None? then t.(picked := t.picked + {i}) else Fork(t.children, t.picked, Returned(err)), None, None))
      else None
    case Return =>
      if t.Chain? && t.ret.Running? && t.pc == |t.children| then
        Some(Effect(Chain(t.children, t.pc, Returned(None)), None, None))
      else if t.Fork? && t.ret.Running? && (forall k: nat | k < |t.children| :: k in t.picked) then
        Some(Effect(Fork(t.children, t.picked, Returned(None)), None, None))
      else None
  }

  datatype State = State(task: Task, bindings: Bindings, log: seq<Event>)

  function Init(root: Statement, variables: Bindings): State {
    State(Load(root, 0), variables, [])
  }

  function Step(s: State, m: Move, permits: Permits): Option<State> {
    var e := Next(s.task, m, false, s.bindings, permits);
    if e.None? then None
    else Some(State(e.value.task, Apply(e.value.write, s.bindings),
                    if e.value.event.Some? then s.log + [e.value.event.value] else s.log))
  }

  // A schedule: all its moves in order; None when one of them is not enabled.
  function Run(s: State, moves: seq<Move>, permits: Permits): Option<State>
    decreases moves
  {
    if moves == [] then Some(s)
    else
      var s1 := Step(s, moves[0], permits);
      if s1.None? then None else Run(s1.value, moves[1..], permits)
  }

  // ---------- What the tree may touch; the same before and after every step ----------

  // What an activity without a result variable reads makes no difference to the bindings.
  predicate Reads(t: Task, x: string) {
    if t.Leaf? then x in t.inv.arguments && t.inv.result != ""
    else exists k: nat | k < |t.children| :: Reads(t.children[k], x)
  }

  predicate Writes(t: Task, x: string) {
    if t.Leaf? then x == t.inv.result && x != ""
    else exists k: nat | k < |t.children| :: Writes(t.children[k], x)
  }

  predicate Owns(t: Task, id: nat) {
    if t.Leaf? then t.id == id
    else exists k: nat | k < |t.children| :: Owns(t.children[k], id)
  }

  // No variable written by s is read or written by t.
  ghost predicate Clear(s: Task, t: Task) {
    forall x :: Writes(s, x) ==> !Reads(t, x) && !Writes(t, x)
  }

  ghost predicate RaceFree(t: Task) {
    t.Leaf?
    || ((forall k: nat | k < |t.children| :: RaceFree(t.children[k]))
        && (t.Fork? ==> forall j: nat, k: nat | j < |t.children| && k < |t.children| && j != k ::
              Clear(t.children[j], t.children[k])))
  }

  // No activity number occurs twice.
  ghost predicate Numbered(t: Task) {
    t.Leaf?
    || ((forall k: nat | k < |t.children| :: Numbered(t.children[k]))
        && (forall j: nat, k: nat, id: nat | j < k < |t.children| && Owns(t.children[j], id) ::
              !Owns(t.children[k], id)))
  }

  // Activity i belongs to an element of some sequence, and activity j to a later element of it.
  ghost predicate Precedes(t: Task, i: nat, j: nat) {
    !t.Leaf?
    && ((t.Chain? && exists a: nat, c: nat | a < c < |t.children| :: Owns(t.children[a], i) && Owns(t.children[c], j))
        || (exists k: nat | k < |t.children| :: Precedes(t.children[k], i, j)))
  }

  predicate SameShape(t: Task, u: Task) {
    if t.Leaf? then u.Leaf? && u.id == t.id && u.inv == t.inv
    else
      && !u.Leaf?
      && (t.Chain? <==> u.Chain?)
      && |u.children| == |t.children|
      && forall k: nat | k < |t.children| :: SameShape(t.children[k], u.children[k])
  }

  lemma SameShapeReflexive(t: Task)
    ensures SameShape(t, t)
  {}

  lemma StepKeepsShape(t: Task, m: Move, c: bool, b: Bindings, permits: Permits)
    requires Next(t, m, c, b, permits).Some?
    ensures SameShape(t, Next(t, m, c, b, permits).value.task)
    decreases m
  {
    var u := Next(t, m, c, b, permits).value.task;
    if m.In? {
      StepKeepsShape(t.children[m.child], m.move, c || Aborted(t), b, permits);
    }
    if !t.Leaf? {
      forall k: nat | k < |t.children| && u.children[k] == t.children[k]
        ensures SameShape(t.children[k], u.children[k])
      {
        SameShapeReflexive(t.children[k]);
      }
    }
  }

  lemma {:induction false} ShapeFixesOwns(t: Task, u: Task, id: nat)
    requires SameShape(t, u)
    ensures Owns(t, id) == Owns(u, id)
    decreases t
  {
    if !t.Leaf? {
      forall k: nat | k < |t.children| ensures Owns(t.children[k], id) == Owns(u.children[k], id) {
        ShapeFixesOwns(t.children[k], u.children[k], id);
      }
    }
  }

  lemma {:induction false} ShapeFixesFootprint(t: Task, u: Task, x: string)
    requires SameShape(t, u)
    ensures Reads(t, x) == Reads(u, x) && Writes(t, x) == Writes(u, x)
    decreases t
  {
    if !t.Leaf? {
      forall k: nat | k < |t.children|
        ensures Reads(t.children[k], x) == Reads(u.children[k], x)
             && Writes(t.children[k], x) == Writes(u.children[k], x)
      {
        ShapeFixesFootprint(t.children[k], u.children[k], x);
      }
    }
  }

  lemma {:induction false} ShapeFixesRaceFree(t: Task, u: Task)
    requires SameShape(t, u) && RaceFree(t)
    ensures RaceFree(u)
    decreases t
  {
    if !t.Leaf? {
      forall k: nat | k < |u.children| ensures RaceFree(u.children[k]) {
        ShapeFixesRaceFree(t.children[k], u.children[k]);
      }
      if t.Fork? {
        forall j: nat, k: nat | j < |u.children| && k < |u.children| && j != k
          ensures Clear(u.children[j], u.children[k])
        {
          assert Clear(t.children[j], t.children[k]);
          forall x | Writes(u.children[j], x) ensures !Reads(u.children[k], x) && !Writes(u.children[k], x) {
            ShapeFixesFootprint(t.children[j], u.children[j], x);
            ShapeFixesFootprint(t.children[k], u.children[k], x);
          }
        }
      }
    }
  }

  lemma {:induction false} ShapeFixesNumbered(t: Task, u: Task)
    requires SameShape(t, u) && Numbered(t)
    ensures Numbered(u)
    decreases t
  {
    if !t.Leaf? {
      forall k: nat | k < |u.children| ensures Numbered(u.children[k]) {
        ShapeFixesNumbered(t.children[k], u.children[k]);
      }
      forall j: nat, k: nat, id: nat | j < k < |u.children| && Owns(u.children[j], id)
        ensures !Owns(u.children[k], id)
      {
        ShapeFixesOwns(t.children[j], u.children[j], id);
        ShapeFixesOwns(t.children[k], u.children[k], id);
      }
    }
  }

  lemma {:induction false} ShapeFixesPrecedes(t: Task, u: Task, i: nat, j: nat)
    requires SameShape(t, u) && Precedes(t, i, j)
    ensures Precedes(u, i, j)
    decreases t
  {
    if t.Chain? && exists a: nat, c: nat | a < c < |t.children| :: Owns(t.children[a], i) && Owns(t.children[c], j) {
      var a: nat, c: nat :| a < c < |t.children| && Owns(t.children[a], i) && Owns(t.children[c], j);
      ShapeFixesOwns(t.children[a], u.children[a], i);
      ShapeFixesOwns(t.children[c], u.children[c], j);
      assert Owns(u.children[a], i) && Owns(u.children[c], j);
    } else {
      var k: nat :| k < |t.children| && Precedes(t.children[k], i, j);
      ShapeFixesPrecedes(t.children[k], u.children[k], i, j);
      assert Precedes(u.children[k], i, j);
    }
  }
}
