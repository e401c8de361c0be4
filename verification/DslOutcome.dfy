/**
 What every schedule of the DSL interpreter guarantees, failures and cancellations included: the
 workflow returns nil exactly when every activity ran once and succeeded, the error of a failing run is
 that of an activity that failed by itself, and a sequence starts nothing before all that precedes it has
 succeeded.
 */
module DslOutcome {
  import opened Wrappers
  import opened Dsl

  // ---------- The events of one activity ----------

  function History(log: seq<Event>, id: nat): seq<Event> {
    if log == [] then []
    else
      var last := log[|log| - 1];
      History(log[..|log| - 1], id) + if last.id == id then [last] else []
  }

  function LeafHistory(id: nat, state: LeafState): seq<Event> {
    match state
    case Idle => []
    case Waiting(_) => [Started(id)]
    case Ended(None) => [Started(id), Succeeded(id)]
    case Ended(Some(ActivityError(_, reason))) => [Started(id), Failed(id, reason)]
    case Ended(Some(Canceled)) => [Started(id), Cancelled(id)]
  }

  function Append(log: seq<Event>, event: Option<Event>): seq<Event> {
    if event.Some? then log + [event.value] else log
  }

  lemma HistoryOfAppend(log: seq<Event>, event: Option<Event>, id: nat)
    ensures History(Append(log, event), id)
         == History(log, id) + if event.Some? && event.value.id == id then [event.value] else []
  {
    if event.Some? {
      assert (log + [event.value])[..|log|] == log;
    }
  }

  // The log says of every activity in t exactly what its leaf says.
  ghost predicate Logged(t: Task, log: seq<Event>) {
    if t.Leaf? then History(log, t.id) == LeafHistory(t.id, t.state)
    else forall k: nat | k < |t.children| :: Logged(t.children[k], log)
  }

  lemma {:induction false} LoggedFrame(t: Task, log: seq<Event>, log2: seq<Event>)
    requires Logged(t, log)
    requires forall id: nat | Owns(t, id) :: History(log2, id) == History(log, id)
    ensures Logged(t, log2)
    decreases t
  {
    if t.Leaf? {
      assert Owns(t, t.id);
    } else {
      forall k: nat | k < |t.children| ensures Logged(t.children[k], log2) {
        forall id: nat | Owns(t.children[k], id) ensures History(log2, id) == History(log, id) {
          assert Owns(t, id);
        }
        LoggedFrame(t.children[k], log, log2);
      }
    }
  }

  lemma {:induction false} StepKeepsLogged(t: Task, m: Move, c: bool, b: Bindings, permits: Permits, log: seq<Event>)
    requires Logged(t, log) && Numbered(t)
    requires Next(t, m, c, b, permits).Some?
    ensures var e := Next(t, m, c, b, permits).value;
      && Logged(e.task, Append(log, e.event))
      && (e.event.Some? ==> Owns(t, e.event.value.id))
    decreases m
  {
    if m.In? {
      var i := m.child;
      StepKeepsLogged(t.children[i], m.move, c || Aborted(t), b, permits, log);
      var inner := Next(t.children[i], m.move, c || Aborted(t), b, permits).value;
      NodeKeepsLogged(t, i, inner.task, log, inner.event);
    } else {
      HereKeepsLogged(t, m, c, b, permits, log);
    }
  }

  lemma HereKeepsLogged(t: Task, m: Move, c: bool, b: Bindings, permits: Permits, log: seq<Event>)
    requires Logged(t, log) && !m.In? && NextHere(t, m, c, b, permits).Some?
    ensures var e := NextHere(t, m, c, b, permits).value;
      && Logged(e.task, Append(log, e.event))
      && (e.event.Some? ==> Owns(t, e.event.value.id))
  {
    var e := NextHere(t, m, c, b, permits).value;
    if t.Leaf? {
      HistoryOfAppend(log, e.event, t.id);
    } else {
      assert e.event.None? && e.task.children == t.children;
    }
  }

  lemma NodeKeepsLogged(t: Task, i: nat, child: Task, log: seq<Event>, event: Option<Event>)
    requires !t.Leaf? && i < |t.children| && Logged(t, log) && Numbered(t)
    requires Logged(child, Append(log, event))
    requires event.Some? ==> Owns(t.children[i], event.value.id)
    ensures Logged(WithChild(t, i, child), Append(log, event))
    ensures event.Some? ==> Owns(t, event.value.id)
  {
    var u := WithChild(t, i, child);
    forall k: nat | k < |u.children| ensures Logged(u.children[k], Append(log, event)) {
      if k != i { SiblingKeepsLogged(t, i, k, log, event); }
    }
  }

  lemma SiblingKeepsLogged(t: Task, i: nat, k: nat, log: seq<Event>, event: Option<Event>)
    requires !t.Leaf? && i < |t.children| && k < |t.children| && i != k
    requires Logged(t, log) && Numbered(t)
    requires event.Some? ==> Owns(t.children[i], event.value.id)
    ensures Logged(t.children[k], Append(log, event))
  {
    forall id: nat | Owns(t.children[k], id) ensures History(Append(log, event), id) == History(log, id) {
      HistoryOfAppend(log, event, id);
    }
    LoggedFrame(t.children[k], log, Append(log, event));
  }

  // ---------- The invariant of a task tree ----------

  predicate HasFailed(t: Task, e: Error) {
    if t.Leaf? then t.state == Ended(Some(e))
    else exists k: nat | k < |t.children| :: HasFailed(t.children[k], e)
  }

  // `cancelled` says whether t runs under a cancelled context.
  predicate Sound(t: Task, cancelled: bool) {
    match t
    case Leaf(id, _, state) =>
      state.Ended? && state.err.Some? ==>
        if state.err.value.ActivityError? then state.err.value.id == id else cancelled
    case Chain(children, pc, ret) =>
      && pc <= |children|
      && (forall k: nat | k < |children| :: Sound(children[k], cancelled))
      && (forall k: nat | k < pc :: StatusOf(children[k]) == Returned(None))
      && (ret == Returned(None) ==> pc == |children|)
      && (ret.Returned? && ret.err.Some? ==> pc < |children| && StatusOf(children[pc]) == ret)
    case Fork(children, picked, ret) =>
      && (forall k: nat | k < |children| :: Sound(children[k], cancelled || Aborted(t)))
      && (forall k: nat | k < |children| && k in picked :: StatusOf(children[k]) == Returned(None))
      && (ret == Returned(None) ==> forall k: nat | k < |children| :: k in picked)
      && (ret.Returned? && ret.err.Some? ==>
            HasFailed(t, ret.err.value) && (ret.err.value.ActivityError? || cancelled))
  }

  lemma {:induction false} SoundUnderCancellation(t: Task)
    requires Sound(t, false)
    ensures Sound(t, true)
    decreases t
  {
    if !t.Leaf? {
      forall k: nat | k < |t.children| ensures Sound(t.children[k], true) {
        if !Aborted(t) { SoundUnderCancellation(t.children[k]); }
      }
    }
  }

  // An error that t returned is the error of one of its own activities, and not a cancellation unless t
  // was cancelled from outside.
  lemma {:induction false} ErrorIsGenuine(t: Task, cancelled: bool)
    requires Sound(t, cancelled) && StatusOf(t).Returned? && StatusOf(t).err.Some?
    ensures HasFailed(t, StatusOf(t).err.value)
    ensures StatusOf(t).err.value.ActivityError? || cancelled
    decreases t
  {
    if t.Chain? {
      ErrorIsGenuine(t.children[t.pc], cancelled);
    }
  }

  lemma {:induction false} StepKeepsFailed(t: Task, m: Move, c: bool, b: Bindings, permits: Permits, e: Error)
    requires HasFailed(t, e) && Next(t, m, c, b, permits).Some?
    ensures HasFailed(Next(t, m, c, b, permits).value.task, e)
    decreases m
  {
    var u := Next(t, m, c, b, permits).value.task;
    if !t.Leaf? {
      var k: nat :| k < |t.children| && HasFailed(t.children[k], e);
      if m.In? && m.child == k {
        StepKeepsFailed(t.children[k], m.move, c || Aborted(t), b, permits, e);
      }
      assert HasFailed(u.children[k], e);
    }
  }

  // What has returned stays returned, with the same error.
  lemma StepKeepsReturned(t: Task, m: Move, c: bool, b: Bindings, permits: Permits)
    requires StatusOf(t).Returned? && Next(t, m, c, b, permits).Some?
    ensures StatusOf(Next(t, m, c, b, permits).value.task) == StatusOf(t)
  {}

  lemma {:induction false} StepKeepsSound(t: Task, m: Move, c: bool, b: Bindings, permits: Permits)
    requires Sound(t, c) && Next(t, m, c, b, permits).Some?
    ensures Sound(Next(t, m, c, b, permits).value.task, c)
    decreases m
  {
    if m.In? {
      var i := m.child;
      StepKeepsSound(t.children[i], m.move, c || Aborted(t), b, permits);
      if StatusOf(t.children[i]).Returned? {
        StepKeepsReturned(t.children[i], m.move, c || Aborted(t), b, permits);
      }
      if Aborted(t) {
        StepKeepsFailed(t, m, c, b, permits, t.ret.err.value);
      }
    } else {
      HereKeepsSound(t, m, c, b, permits);
    }
  }

  lemma HereKeepsSound(t: Task, m: Move, c: bool, b: Bindings, permits: Permits)
    requires Sound(t, c) && !m.In? && NextHere(t, m, c, b, permits).Some?
    ensures Sound(NextHere(t, m, c, b, permits).value.task, c)
  {
    var u := NextHere(t, m, c, b, permits).value.task;
    if m.Pick? && Aborted(u) {
      ErrorIsGenuine(t.children[m.branch], c);
      assert HasFailed(u.children[m.branch], u.ret.err.value);
      if !c {
        forall k: nat | k < |u.children| ensures Sound(u.children[k], true) {
          SoundUnderCancellation(u.children[k]);
        }
      }
    }
  }

  // ---------- The loaded tree satisfies it ----------

  function Leaves(t: Task): nat
    decreases t, 1
  {
    if t.Leaf? then 1 else LeavesAll(t.children)
  }

  function LeavesAll(ts: seq<Task>): nat
    decreases ts, 0
  {
    if ts == [] then 0 else Leaves(ts[0]) + LeavesAll(ts[1..])
  }

  // Nothing has run, and the activities are numbered from lo on.
  predicate Fresh(t: Task, lo: nat)
    decreases t, 1
  {
    match t
    case Leaf(id, _, state) => id == lo && state.Idle?
    case Chain(children, pc, ret) => pc == 0 && ret.Running? && FreshAll(children, lo)
    case Fork(children, picked, ret) => picked == {} && ret.Running? && FreshAll(children, lo)
  }

  predicate FreshAll(ts: seq<Task>, lo: nat)
    decreases ts, 0
  {
    ts == [] || (Fresh(ts[0], lo) && FreshAll(ts[1..], lo + Leaves(ts[0])))
  }

  lemma {:induction false} FreshConcat(xs: seq<Task>, ys: seq<Task>, lo: nat)
    requires FreshAll(xs, lo) && FreshAll(ys, lo + LeavesAll(xs))
    ensures FreshAll(xs + ys, lo) && LeavesAll(xs + ys) == LeavesAll(xs) + LeavesAll(ys)
    decreases |xs|
  {
    if xs == [] {
      assert xs + ys == ys;
    } else {
      assert (xs + ys)[1..] == xs[1..] + ys;
      FreshConcat(xs[1..], ys, lo + Leaves(xs[0]));
    }
  }

  lemma FreshOne(t: Task, lo: nat)
    requires Fresh(t, lo)
    ensures FreshAll([t], lo) && LeavesAll([t]) == Leaves(t)
  {
    assert [t][1..] == [];
  }

  lemma {:induction false} LoadIsFresh(s: Statement, lo: nat)
    ensures Fresh(Load(s, lo), lo) && Leaves(Load(s, lo)) == Size(s)
    decreases s, 2
  {
    var mid1 := lo + ParallelSize(s);
    var mid2 := mid1 + SequenceSize(s);
    var p, q, a := LoadParallel(s, lo), LoadSequence(s, mid1), LoadActivity(s, mid2);
    LoadParallelIsFresh(s, lo);
    LoadSequenceIsFresh(s, mid1);
    LoadActivityIsFresh(s, mid2);
    FreshConcat(p, q, lo);
    FreshConcat(p + q, a, lo);
  }

  lemma {:induction false} LoadParallelIsFresh(s: Statement, lo: nat)
    ensures FreshAll(LoadParallel(s, lo), lo) && LeavesAll(LoadParallel(s, lo)) == ParallelSize(s)
    decreases s, 1
  {
    if s.parallel.Some? {
      LoadAllIsFresh(s.parallel.value.branches, lo);
      FreshOne(LoadParallel(s, lo)[0], lo);
    }
  }

  lemma {:induction false} LoadSequenceIsFresh(s: Statement, lo: nat)
    ensures FreshAll(LoadSequence(s, lo), lo) && LeavesAll(LoadSequence(s, lo)) == SequenceSize(s)
    decreases s, 1
  {
    if s.sequence.Some? {
      LoadAllIsFresh(s.sequence.value.elements, lo);
      FreshOne(LoadSequence(s, lo)[0], lo);
    }
  }

  lemma LoadActivityIsFresh(s: Statement, lo: nat)
    ensures FreshAll(LoadActivity(s, lo), lo) && LeavesAll(LoadActivity(s, lo)) == if s.activity.Some? then 1 else 0
  {
    if s.activity.Some? {
      FreshOne(LoadActivity(s, lo)[0], lo);
    }
  }

  lemma {:induction false} LoadAllIsFresh(ss: seq<Statement>, lo: nat)
    ensures FreshAll(LoadAll(ss, lo), lo) && LeavesAll(LoadAll(ss, lo)) == SizeAll(ss)
    decreases ss, 0
  {
    if ss != [] {
      LoadIsFresh(ss[0], lo);
      LoadAllIsFresh(ss[1..], lo + Size(ss[0]));
      assert LoadAll(ss, lo)[1..] == LoadAll(ss[1..], lo + Size(ss[0]));
    }
  }

  lemma {:induction false} FreshIsSound(t: Task, lo: nat)
    requires Fresh(t, lo)
    ensures Sound(t, false) && Logged(t, []) && Numbered(t)
    ensures forall id: nat :: Owns(t, id) <==> lo <= id < lo + Leaves(t)
    decreases t, 1
  {
    if !t.Leaf? {
      FreshAllIsSound(t.children, lo);
      forall id: nat ensures Owns(t, id) <==> lo <= id < lo + Leaves(t) {
        assert Owns(t, id) <==> OwnsAny(t.children, id);
      }
    }
  }

  predicate OwnsAny(ts: seq<Task>, id: nat) {
    exists k: nat | k < |ts| :: Owns(ts[k], id)
  }

  lemma {:induction false} FreshAllIsSound(ts: seq<Task>, lo: nat)
    requires FreshAll(ts, lo)
    ensures forall k: nat | k < |ts| :: Sound(ts[k], false) && Logged(ts[k], []) && Numbered(ts[k])
    ensures forall j: nat, k: nat, id: nat | j < k < |ts| && Owns(ts[j], id) :: !Owns(ts[k], id)
    ensures forall id: nat :: OwnsAny(ts, id) <==> lo <= id < lo + LeavesAll(ts)
    decreases ts, 0
  {
    if ts != [] {
      var rest := ts[1..];
      FreshIsSound(ts[0], lo);
      FreshAllIsSound(rest, lo + Leaves(ts[0]));
      forall id: nat ensures OwnsAny(ts, id) <==> Owns(ts[0], id) || OwnsAny(rest, id) {
        if k: nat :| k < |ts| && Owns(ts[k], id) {
          assert k == 0 || Owns(rest[k - 1], id);
        }
        if k: nat :| k < |rest| && Owns(rest[k], id) {
          assert Owns(ts[k + 1], id);
        }
      }
      forall j: nat, k: nat, id: nat | j < k < |ts| && Owns(ts[j], id) ensures !Owns(ts[k], id) {
        if j == 0 {
          assert Owns(rest[k - 1], id) ==> OwnsAny(rest, id);
        } else {
          assert Owns(rest[j - 1], id);
        }
      }
    }
  }

  // ---------- Along a run ----------

  ghost predicate Invariant(s: State) {
    Sound(s.task, false) && Logged(s.task, s.log) && Numbered(s.task)
  }

  lemma InitIsInvariant(root: Statement, variables: Bindings)
    ensures Invariant(Init(root, variables))
    ensures forall id: nat :: Owns(Load(root, 0), id) <==> id < Size(root)
  {
    LoadIsFresh(root, 0);
    FreshIsSound(Load(root, 0), 0);
  }

  lemma StepKeepsInvariant(s: State, m: Move, permits: Permits)
    requires Invariant(s) && Step(s, m, permits).Some?
    ensures Invariant(Step(s, m, permits).value)
    ensures SameShape(s.task, Step(s, m, permits).value.task)
  {
    StepKeepsSound(s.task, m, false, s.bindings, permits);
    StepKeepsLogged(s.task, m, false, s.bindings, permits, s.log);
    StepKeepsShape(s.task, m, false, s.bindings, permits);
    ShapeFixesNumbered(s.task, Step(s, m, permits).value.task);
  }

  lemma {:induction false} RunKeepsInvariant(s: State, moves: seq<Move>, permits: Permits)
    requires Invariant(s) && Run(s, moves, permits).Some?
    ensures var r := Run(s, moves, permits).value;
      Invariant(r) && s.log <= r.log && forall id: nat :: Owns(s.task, id) <==> Owns(r.task, id)
    decreases |moves|
  {
    if moves != [] {
      var s1 := Step(s, moves[0], permits).value;
      StepKeepsInvariant(s, moves[0], permits);
      RunKeepsInvariant(s1, moves[1..], permits);
      forall id: nat ensures Owns(s.task, id) <==> Owns(s1.task, id) {
        ShapeFixesOwns(s.task, s1.task, id);
      }
    }
  }

  // ---------- Outcome ----------

  predicate RanOnce(log: seq<Event>, id: nat) {
    History(log, id) == [Started(id), Succeeded(id)]
  }

  // Not started, still running, or ended in one of the three ways; in any case started at most once.
  predicate RanAtMostOnce(log: seq<Event>, id: nat) {
    var h := History(log, id);
    || h == [] || h == [Started(id)]
    || (|h| == 2 && h[0] == Started(id) && h[1].id == id && !h[1].Started?)
  }

  lemma {:induction false} ReturnedNilRanOnce(t: Task, cancelled: bool, log: seq<Event>, id: nat)
    requires Sound(t, cancelled) && StatusOf(t) == Returned(None) && Logged(t, log) && Owns(t, id)
    ensures RanOnce(log, id)
    decreases t
  {
    if !t.Leaf? {
      var k: nat :| k < |t.children| && Owns(t.children[k], id);
      ReturnedNilRanOnce(t.children[k], cancelled || Aborted(t), log, id);
    }
  }

  lemma {:induction false} FailureIsLogged(t: Task, cancelled: bool, log: seq<Event>, e: Error)
    requires Sound(t, cancelled) && Logged(t, log) && HasFailed(t, e) && e.ActivityError?
    ensures Owns(t, e.id) && History(log, e.id) == [Started(e.id), Failed(e.id, e.reason)]
    decreases t
  {
    if !t.Leaf? {
      var k: nat :| k < |t.children| && HasFailed(t.children[k], e);
      FailureIsLogged(t.children[k], cancelled || Aborted(t), log, e);
    }
  }

  lemma {:induction false} LeafRanAtMostOnce(t: Task, log: seq<Event>, id: nat)
    requires Logged(t, log) && Owns(t, id)
    ensures RanAtMostOnce(log, id)
    decreases t
  {
    if !t.Leaf? {
      var k: nat :| k < |t.children| && Owns(t.children[k], id);
      LeafRanAtMostOnce(t.children[k], log, id);
    }
  }

  /**
   In every schedule: no activity is started twice; a workflow that returned, returned nil exactly when
   every activity ran once and succeeded; and a returned error is the error of an activity that failed by
   itself, never the cancellation that an aborted parallel block sends to its other branches.
   */
  lemma Outcome(root: Statement, variables: Bindings, moves: seq<Move>, permits: Permits)
    requires Run(Init(root, variables), moves, permits).Some?
    ensures var r := Run(Init(root, variables), moves, permits).value;
      && (forall id: nat | id < Size(root) :: RanAtMostOnce(r.log, id))
      && (StatusOf(r.task).Returned? ==>
            (StatusOf(r.task).err.None? <==> forall id: nat | id < Size(root) :: RanOnce(r.log, id)))
      && (StatusOf(r.task).Returned? && StatusOf(r.task).err.Some? ==>
            var e := StatusOf(r.task).err.value;
            && e.ActivityError? && e.id < Size(root)
            && History(r.log, e.id) == [Started(e.id), Failed(e.id, e.reason)])
  {
    var r := Run(Init(root, variables), moves, permits).value;
    InitIsInvariant(root, variables);
    RunKeepsInvariant(Init(root, variables), moves, permits);
    forall id: nat | id < Size(root) ensures RanAtMostOnce(r.log, id) {
      LeafRanAtMostOnce(r.task, r.log, id);
    }
    if StatusOf(r.task).Returned? {
      if StatusOf(r.task).err.None? {
        forall id: nat | id < Size(root) ensures RanOnce(r.log, id) {
          ReturnedNilRanOnce(r.task, false, r.log, id);
        }
      } else {
        var e := StatusOf(r.task).err.value;
        ErrorIsGenuine(r.task, false);
        FailureIsLogged(r.task, false, r.log, e);
        assert !RanOnce(r.log, e.id);
      }
    }
  }

  // ---------- Order ----------

  lemma {:induction false} PrecedesOwns(t: Task, i: nat, j: nat)
    requires Precedes(t, i, j)
    ensures Owns(t, j)
    decreases t
  {
    if k: nat :| k < |t.children| && Precedes(t.children[k], i, j) {
      PrecedesOwns(t.children[k], i, j);
    }
  }

  lemma {:induction false} StartFollowsPredecessors(
    t: Task, m: Move, c: bool, b: Bindings, permits: Permits, log: seq<Event>, i: nat, j: nat)
    requires Sound(t, c) && Logged(t, log) && Numbered(t) && Precedes(t, i, j)
    requires Next(t, m, c, b, permits).Some? && Next(t, m, c, b, permits).value.event == Some(Started(j))
    ensures RanOnce(log, i)
    decreases m
  {
    var k := m.child;
    var c1 := c || Aborted(t);
    StepKeepsLogged(t.children[k], m.move, c1, b, permits, log);
    assert Owns(t.children[k], j);
    if d: nat :| d < |t.children| && Precedes(t.children[d], i, j) {
      PrecedesOwns(t.children[d], i, j);
      assert d == k;
      StartFollowsPredecessors(t.children[k], m.move, c1, b, permits, log, i, j);
    } else {
      var a: nat, d: nat :| a < d < |t.children| && Owns(t.children[a], i) && Owns(t.children[d], j);
      assert d == k == t.pc;
      ReturnedNilRanOnce(t.children[a], c, log, i);
    }
  }

  lemma {:induction false} RunStartsInOrder(s: State, moves: seq<Move>, permits: Permits, n: nat, i: nat, j: nat)
    requires Invariant(s) && Run(s, moves, permits).Some? && Precedes(s.task, i, j)
    requires |s.log| <= n < |Run(s, moves, permits).value.log|
    requires Run(s, moves, permits).value.log[n] == Started(j)
    ensures RanOnce(Run(s, moves, permits).value.log[..n], i)
    decreases |moves|
  {
    var r := Run(s, moves, permits).value;
    var s1 := Step(s, moves[0], permits).value;
    StepKeepsInvariant(s, moves[0], permits);
    RunKeepsInvariant(s1, moves[1..], permits);
    if n < |s1.log| {
      assert s1.log[n] == r.log[n];
      assert r.log[..n] == s.log;
      StartFollowsPredecessors(s.task, moves[0], false, s.bindings, permits, s.log, i, j);
    } else {
      ShapeFixesPrecedes(s.task, s1.task, i, j);
      RunStartsInOrder(s1, moves[1..], permits, n, i, j);
    }
  }

  /** Whenever an activity starts, all activities of the preceding elements of its sequences have succeeded. */
  lemma SequencesRunInOrder(root: Statement, variables: Bindings, moves: seq<Move>, permits: Permits, n: nat, i: nat, j: nat)
    requires Run(Init(root, variables), moves, permits).Some?
    requires Precedes(Load(root, 0), i, j)
    requires n < |Run(Init(root, variables), moves, permits).value.log|
    requires Run(Init(root, variables), moves, permits).value.log[n] == Started(j)
    ensures RanOnce(Run(Init(root, variables), moves, permits).value.log[..n], i)
  {
    InitIsInvariant(root, variables);
    RunStartsInOrder(Init(root, variables), moves, permits, n, i, j);
  }
}
