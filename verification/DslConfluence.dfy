/**
 Confluence of the DSL interpreter: when no branch of a parallel block writes a variable that another
 branch reads or writes, and no activity fails, every schedule ends with the bindings that running the
 branches one after another gives.

 The proof gives every task tree a meaning, the bindings it would end with if it ran alone and in order
 from here, and shows that no step of any schedule changes it.
 */
module DslConfluence {
  import opened Wrappers
  import opened Dsl

  type Activities = (string, seq<string>) -> string

  function Meaning(t: Task, b: Bindings, f: Activities): Bindings
    decreases t, 1
  {
    match t
    case Leaf(_, inv, Idle) => Store(inv, f(inv.name, Input(inv.arguments, b)), b)
    case Leaf(_, inv, Waiting(input)) => Store(inv, f(inv.name, input), b)
    case Leaf(_, _, Ended(_)) => b
    case Chain(children, _, _) => MeaningAll(children, b, f)
    case Fork(children, _, _) => MeaningAll(children, b, f)
  }

  function MeaningAll(ts: seq<Task>, b: Bindings, f: Activities): Bindings
    decreases ts, 0
  {
    if ts == [] then b else MeaningAll(ts[1..], Meaning(ts[0], b, f), f)
  }

  lemma {:induction false} MeaningOfConcat(xs: seq<Task>, ys: seq<Task>, b: Bindings, f: Activities)
    ensures MeaningAll(xs + ys, b, f) == MeaningAll(ys, MeaningAll(xs, b, f), f)
    decreases |xs|
  {
    if xs == [] {
      assert xs + ys == ys;
    } else {
      assert (xs + ys)[1..] == xs[1..] + ys;
      MeaningOfConcat(xs[1..], ys, Meaning(xs[0], b, f), f);
    }
  }

  lemma MeaningOfOne(t: Task, b: Bindings, f: Activities)
    ensures MeaningAll([t], b, f) == Meaning(t, b, f)
  {
    assert MeaningAll([t][1..], Meaning(t, b, f), f) == Meaning(t, b, f);
  }

  lemma MeaningAround(ts: seq<Task>, i: nat, b: Bindings, f: Activities)
    requires i < |ts|
    ensures MeaningAll(ts, b, f) == MeaningAll(ts[i + 1..], Meaning(ts[i], MeaningAll(ts[..i], b, f), f), f)
  {
    assert ts == ts[..i] + ts[i..];
    MeaningOfConcat(ts[..i], ts[i..], b, f);
    assert ts[i..][1..] == ts[i + 1..];
  }

  // ---------- The loaded tree means the sequential run ----------

  lemma {:induction false} LoadMeansSequential(s: Statement, id: nat, b: Bindings, f: Activities)
    ensures Meaning(Load(s, id), b, f) == Sequential(s, b, f)
    decreases s, 1
  {
    var id1 := id + ParallelSize(s);
    var id2 := id1 + SequenceSize(s);
    var p, q, a := LoadParallel(s, id), LoadSequence(s, id1), LoadActivity(s, id2);
    var b1 := if s.parallel.Some? then SequentialAll(s.parallel.value.branches, b, f) else b;
    var b2 := if s.sequence.Some? then SequentialAll(s.sequence.value.elements, b1, f) else b1;
    MeaningOfConcat(p + q, a, b, f);
    MeaningOfConcat(p, q, b, f);
    assert MeaningAll(p, b, f) == b1 by {
      if s.parallel.Some? {
        LoadAllMeansSequential(s.parallel.value.branches, id, b, f);
        MeaningOfOne(p[0], b, f);
      }
    }
    assert MeaningAll(q, b1, f) == b2 by {
      if s.sequence.Some? {
        LoadAllMeansSequential(s.sequence.value.elements, id1, b1, f);
        MeaningOfOne(q[0], b1, f);
      }
    }
    if s.activity.Some? {
      MeaningOfOne(a[0], b2, f);
    }
  }

  lemma {:induction false} LoadAllMeansSequential(ss: seq<Statement>, id: nat, b: Bindings, f: Activities)
    ensures MeaningAll(LoadAll(ss, id), b, f) == SequentialAll(ss, b, f)
    decreases ss, 0
  {
    if ss != [] {
      LoadMeansSequential(ss[0], id, b, f);
      var rest := LoadAll(ss[1..], id + Size(ss[0]));
      assert LoadAll(ss, id)[1..] == rest;
      LoadAllMeansSequential(ss[1..], id + Size(ss[0]), Sequential(ss[0], b, f), f);
    }
  }

  // ---------- Framing: what a task does not write keeps its value; what it does not touch commutes ----------

  lemma {:induction false} UnwrittenKept(t: Task, x: string, b: Bindings, f: Activities)
    requires !Writes(t, x)
    ensures Lookup(Meaning(t, b, f), x) == Lookup(b, x)
    decreases t, 1
  {
    if !t.Leaf? {
      UnwrittenKeptAll(t.children, x, b, f);
    }
  }

  lemma {:induction false} UnwrittenKeptAll(ts: seq<Task>, x: string, b: Bindings, f: Activities)
    requires forall k: nat | k < |ts| :: !Writes(ts[k], x)
    ensures Lookup(MeaningAll(ts, b, f), x) == Lookup(b, x)
    decreases ts, 0
  {
    if ts != [] {
      UnwrittenKept(ts[0], x, b, f);
      UnwrittenKeptAll(ts[1..], x, Meaning(ts[0], b, f), f);
    }
  }

  lemma UnreadInput(arguments: seq<string>, x: string, value: string, b: Bindings)
    requires x !in arguments
    ensures Input(arguments, b[x := value]) == Input(arguments, b)
  {}

  lemma {:induction false} UntouchedCommutes(t: Task, x: string, value: string, b: Bindings, f: Activities)
    requires !Reads(t, x) && !Writes(t, x)
    ensures Meaning(t, b[x := value], f) == Meaning(t, b, f)[x := value]
    decreases t, 1
  {
    if t.Leaf? {
      if t.inv.result != "" { UnreadInput(t.inv.arguments, x, value, b); }
    } else {
      UntouchedCommutesAll(t.children, x, value, b, f);
    }
  }

  lemma {:induction false} UntouchedCommutesAll(ts: seq<Task>, x: string, value: string, b: Bindings, f: Activities)
    requires forall k: nat | k < |ts| :: !Reads(ts[k], x) && !Writes(ts[k], x)
    ensures MeaningAll(ts, b[x := value], f) == MeaningAll(ts, b, f)[x := value]
    decreases ts, 0
  {
    if ts != [] {
      UntouchedCommutes(ts[0], x, value, b, f);
      UntouchedCommutesAll(ts[1..], x, value, Meaning(ts[0], b, f), f);
    }
  }

  // ---------- What every step of every schedule keeps ----------

  // Everything in t ran to its end without an error.
  predicate Done(t: Task) {
    match t
    case Leaf(_, _, state) => state == Ended(None)
    case Chain(children, pc, ret) => ret == Returned(None) && forall k: nat | k < |children| :: Done(children[k])
    case Fork(children, _, ret) => ret == Returned(None) && forall k: nat | k < |children| :: Done(children[k])
  }

  // No coroutine of t has returned an error, and what has been passed over has run to its end.
  predicate Healthy(t: Task) {
    match t
    case Leaf(_, _, state) => state.Ended? ==> state.err.None?
    case Chain(children, pc, ret) =>
      && pc <= |children|
      && (forall k: nat | k < |children| :: Healthy(children[k]))
      && (forall k: nat | k < pc :: Done(children[k]))
      && (ret.Returned? ==> ret.err.None? && pc == |children|)
    case Fork(children, picked, ret) =>
      && (forall k: nat | k < |children| :: Healthy(children[k]))
      && (forall k: nat | k < |children| && k in picked :: Done(children[k]))
      && (ret.Returned? ==> ret.err.None? && forall k: nat | k < |children| :: k in picked)
  }

  lemma {:induction false} ReturnedIsDone(t: Task)
    requires Healthy(t) && StatusOf(t).Returned?
    ensures Done(t)
  {}

  lemma {:induction false} DoneIsIdentity(t: Task, b: Bindings, f: Activities)
    requires Done(t)
    ensures Meaning(t, b, f) == b
    decreases t, 1
  {
    if !t.Leaf? {
      DoneAllIsIdentity(t.children, b, f);
    }
  }

  lemma {:induction false} DoneAllIsIdentity(ts: seq<Task>, b: Bindings, f: Activities)
    requires forall k: nat | k < |ts| :: Done(ts[k])
    ensures MeaningAll(ts, b, f) == b
    decreases ts, 0
  {
    if ts != [] {
      DoneIsIdentity(ts[0], b, f);
      DoneAllIsIdentity(ts[1..], b, f);
    }
  }

  lemma {:induction false} LoadIsHealthy(s: Statement, id: nat)
    ensures Healthy(Load(s, id))
    decreases s, 1
  {
    var id1 := id + ParallelSize(s);
    if s.parallel.Some? {
      LoadAllIsHealthy(s.parallel.value.branches, id);
    }
    if s.sequence.Some? {
      LoadAllIsHealthy(s.sequence.value.elements, id1);
    }
    assert forall t | t in LoadParallel(s, id) :: Healthy(t);
    assert forall t | t in LoadSequence(s, id1) :: Healthy(t);
    assert forall t | t in Load(s, id).children :: Healthy(t);
  }

  lemma {:induction false} LoadAllIsHealthy(ss: seq<Statement>, id: nat)
    ensures forall k: nat | k < |LoadAll(ss, id)| :: Healthy(LoadAll(ss, id)[k])
    decreases ss, 0
  {
    if ss != [] {
      LoadIsHealthy(ss[0], id);
      LoadAllIsHealthy(ss[1..], id + Size(ss[0]));
    }
  }

  // A step leaves finished tasks alone.
  lemma {:induction false} DoneHasNoMoves(t: Task, m: Move, c: bool, b: Bindings, permits: Permits)
    requires Done(t)
    ensures Next(t, m, c, b, permits).None?
    decreases m
  {
    if m.In? && !t.Leaf? && m.child < |t.children| {
      DoneHasNoMoves(t.children[m.child], m.move, c || Aborted(t), b, permits);
    }
  }

  lemma {:induction false} StepKeepsHealthy(t: Task, m: Move, b: Bindings, f: Activities)
    requires Healthy(t) && Next(t, m, false, b, Functional(f)).Some?
    ensures Healthy(Next(t, m, false, b, Functional(f)).value.task)
    decreases m
  {
    if m.In? {
      if Done(t.children[m.child]) {
        DoneHasNoMoves(t.children[m.child], m.move, false, b, Functional(f));
      }
      StepKeepsHealthy(t.children[m.child], m.move, b, f);
    } else {
      HereKeepsHealthy(t, m, b, f);
    }
  }

  lemma HereKeepsHealthy(t: Task, m: Move, b: Bindings, f: Activities)
    requires Healthy(t) && !m.In? && NextHere(t, m, false, b, Functional(f)).Some?
    ensures Healthy(NextHere(t, m, false, b, Functional(f)).value.task)
  {
    match m
    case Advance => ReturnedIsDone(t.children[t.pc]);
    case Pick(i) => ReturnedIsDone(t.children[i]);
    case _ =>
  }

  lemma {:induction false} RunKeepsHealthy(s: State, moves: seq<Move>, f: Activities)
    requires Healthy(s.task) && Run(s, moves, Functional(f)).Some?
    ensures Healthy(Run(s, moves, Functional(f)).value.task)
    decreases |moves|
  {
    if moves != [] {
      StepKeepsHealthy(s.task, moves[0], s.bindings, f);
      RunKeepsHealthy(Step(s, moves[0], Functional(f)).value, moves[1..], f);
    }
  }

  // ts[k] for k < |ts| neither disturbs c nor is disturbed by it.
  ghost predicate Quiet(ts: seq<Task>, c: Task) {
    forall k: nat | k < |ts| :: Done(ts[k]) || (Clear(ts[k], c) && Clear(c, ts[k]))
  }

  lemma {:induction false} QuietKeepsReads(ts: seq<Task>, c: Task, x: string, b: Bindings, f: Activities)
    requires Quiet(ts, c) && Reads(c, x)
    ensures Lookup(MeaningAll(ts, b, f), x) == Lookup(b, x)
    decreases |ts|
  {
    if ts != [] {
      if Done(ts[0]) {
        DoneIsIdentity(ts[0], b, f);
      } else {
        UnwrittenKept(ts[0], x, b, f);
      }
      QuietKeepsReads(ts[1..], c, x, Meaning(ts[0], b, f), f);
    }
  }

  lemma {:induction false} QuietCommutes(ts: seq<Task>, c: Task, w: Option<(string, string)>, b: Bindings, f: Activities)
    requires Quiet(ts, c) && (w.Some? ==> Writes(c, w.value.0))
    ensures MeaningAll(ts, Apply(w, b), f) == Apply(w, MeaningAll(ts, b, f))
    decreases |ts|
  {
    if ts != [] && w.Some? {
      if Done(ts[0]) {
        DoneIsIdentity(ts[0], b, f);
        DoneIsIdentity(ts[0], Apply(w, b), f);
      } else {
        UntouchedCommutes(ts[0], w.value.0, w.value.1, b, f);
      }
      QuietCommutes(ts[1..], c, w, Meaning(ts[0], b, f), f);
    }
  }

  lemma SiblingsAreQuiet(t: Task, i: nat)
    requires !t.Leaf? && i < |t.children| && Healthy(t) && RaceFree(t) && (t.Chain? ==> i == t.pc)
    ensures Quiet(t.children[..i], t.children[i])
  {
    if t.Fork? {
      forall k: nat | k < i
        ensures Clear(t.children[k], t.children[i]) && Clear(t.children[i], t.children[k])
      {}
    }
  }

  // The step is taken with the real bindings b; b2 is what the task would have found there if everything
  // ran one after another. They need only agree on the variables the task reads.
  lemma {:induction false} StepKeepsMeaning(t: Task, m: Move, b: Bindings, b2: Bindings, f: Activities)
    requires Healthy(t) && RaceFree(t)
    requires Next(t, m, false, b, Functional(f)).Some?
    requires forall x | Reads(t, x) :: Lookup(b, x) == Lookup(b2, x)
    ensures var e := Next(t, m, false, b, Functional(f)).value;
      && Meaning(e.task, Apply(e.write, b2), f) == Meaning(t, b2, f)
      && (e.write.Some? ==> Writes(t, e.write.value.0))
    decreases m
  {
    if !m.In? {
      if m.Start? && t.inv.result != "" {
        assert forall i | 0 <= i < |t.inv.arguments| :: Reads(t, t.inv.arguments[i]);
        assert Input(t.inv.arguments, b) == Input(t.inv.arguments, b2);
      }
    } else {
      var i := m.child;
      var c := t.children[i];
      var pre := MeaningAll(t.children[..i], b2, f);
      SiblingsAreQuiet(t, i);
      forall x | Reads(c, x) ensures Lookup(b, x) == Lookup(pre, x) {
        assert Reads(t, x);
        QuietKeepsReads(t.children[..i], c, x, b2, f);
      }
      StepKeepsMeaning(c, m.move, b, pre, f);
      var inner := Next(c, m.move, false, b, Functional(f)).value;
      NodeKeepsMeaning(t, i, inner.task, inner.write, b2, f);
      assert inner.write.Some? ==> Writes(t, inner.write.value.0);
    }
  }

  // If a child keeps its meaning where the sequential run enters it, then so does the whole.
  lemma NodeKeepsMeaning(t: Task, i: nat, child: Task, w: Option<(string, string)>, b: Bindings, f: Activities)
    requires !t.Leaf? && i < |t.children| && Quiet(t.children[..i], t.children[i])
    requires w.Some? ==> Writes(t.children[i], w.value.0)
    requires var pre := MeaningAll(t.children[..i], b, f);
      Meaning(child, Apply(w, pre), f) == Meaning(t.children[i], pre, f)
    ensures Meaning(WithChild(t, i, child), Apply(w, b), f) == Meaning(t, b, f)
  {
    var us := t.children[i := child];
    QuietCommutes(t.children[..i], t.children[i], w, b, f);
    MeaningAround(t.children, i, b, f);
    MeaningAround(us, i, Apply(w, b), f);
    assert us[..i] == t.children[..i] && us[i + 1..] == t.children[i + 1..];
  }

  lemma {:induction false} RunKeepsMeaning(s: State, moves: seq<Move>, f: Activities)
    requires Healthy(s.task) && RaceFree(s.task)
    requires Run(s, moves, Functional(f)).Some?
    ensures var r := Run(s, moves, Functional(f)).value;
      Healthy(r.task) && Meaning(r.task, r.bindings, f) == Meaning(s.task, s.bindings, f)
    decreases |moves|
  {
    if moves != [] {
      var s1 := Step(s, moves[0], Functional(f)).value;
      StepKeepsMeaning(s.task, moves[0], s.bindings, s.bindings, f);
      StepKeepsHealthy(s.task, moves[0], s.bindings, f);
      StepKeepsShape(s.task, moves[0], false, s.bindings, Functional(f));
      ShapeFixesRaceFree(s.task, s1.task);
      RunKeepsMeaning(s1, moves[1..], f);
    }
  }

  /** Every schedule in which the workflow returns, returns nil with the bindings of the sequential run. */
  lemma Confluence(root: Statement, variables: Bindings, moves: seq<Move>, f: Activities)
    requires RaceFree(Load(root, 0))
    requires Run(Init(root, variables), moves, Functional(f)).Some?
    requires StatusOf(Run(Init(root, variables), moves, Functional(f)).value.task).Returned?
    ensures var r := Run(Init(root, variables), moves, Functional(f)).value;
      && StatusOf(r.task) == Returned(None)
      && r.bindings == Sequential(root, variables, f)
  {
    var r := Run(Init(root, variables), moves, Functional(f)).value;
    LoadIsHealthy(root, 0);
    LoadMeansSequential(root, 0, variables, f);
    RunKeepsMeaning(Init(root, variables), moves, f);
    ReturnedIsDone(r.task);
    DoneIsIdentity(r.task, r.bindings, f);
  }
}
