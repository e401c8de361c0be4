/**
 What the single handlers of the cluster manager answer and do to the nodes, and that each of them can always
 be brought to its end.
 */
module ClusterHandlers {
  import opened Wrappers
  import opened Cluster
  import opened ClusterSafety

  // ---------- Assign ----------

  lemma HoldingCount(keys: seq<string>, nodes: map<string, string>, value: string)
    requires IsOrder(keys, nodes)
    ensures |Holding(keys, nodes, value)| == |NodesOf(nodes, value)|
  {
    HoldingMembers(keys, nodes, value);
    var names := Holding(keys, nodes, value);
    NamesCount(names);
    assert Names(names) == NodesOf(nodes, value);
  }

  // The first `total` of the nodes that hold the value leave out none that comes before one of them.
  lemma {:induction false} HoldingTakesFirst(keys: seq<string>, nodes: map<string, string>, value: string, total: nat, i: nat, j: nat)
    requires Distinct(keys) && total <= |Holding(keys, nodes, value)| && i < j < |keys|
    requires keys[j] in Holding(keys, nodes, value)[..total]
    requires keys[i] in nodes && nodes[keys[i]] == value
    ensures keys[i] in Holding(keys, nodes, value)[..total]
    decreases keys
  {
    var rest := keys[..|keys| - 1];
    var all, most := Holding(keys, nodes, value), Holding(rest, nodes, value);
    HoldingMembers(keys, nodes, value);
    HoldingMembers(rest, nodes, value);
    if total <= |most| {
      assert all[..total] == most[..total];
      assert keys[j] in most;
      HoldingTakesFirst(rest, nodes, value, total, i, j);
    } else {
      assert all[..total] == all;
    }
  }

  /**
   The answer of an assign before its activity: the nodes of the job if it is known; an error exactly when
   fewer nodes are free than asked for; a panic exactly when a negative number is asked for; otherwise as many
   free nodes as asked for, the first ones in order.
   */
  lemma AssignAnswers(keys: seq<string>, s: State, job: string, total: int)
    requires IsOrder(keys, s.nodes)
    ensures var begun, free := BeginAssign(keys, s, job, total), NodesOf(s.nodes, FREE);
      && (job in s.jobsAssigned ==> begun == AlreadyAssigned(NodesOf(s.nodes, job)))
      && (job !in s.jobsAssigned && total > |free| ==> begun == NotEnough)
      && (job !in s.jobsAssigned && total < 0 ==> begun == Panicked)
      && (job !in s.jobsAssigned && 0 <= total <= |free| ==>
            && begun.Proceed? && |begun.names| == total && Distinct(begun.names) && Names(begun.names) <= free
            && forall i, j | 0 <= i < j < |keys| && keys[j] in begun.names && keys[i] in free :: keys[i] in begun.names)
  {
    HoldingCount(keys, s.nodes, FREE);
    HoldingMembers(keys, s.nodes, FREE);
    if job !in s.jobsAssigned && 0 <= total <= |NodesOf(s.nodes, FREE)| {
      var names := Holding(keys, s.nodes, FREE)[..total];
      forall i, j | 0 <= i < j < |keys| && keys[j] in names && keys[i] in NodesOf(s.nodes, FREE) ensures keys[i] in names {
        HoldingTakesFirst(keys, s.nodes, FREE, total, i, j);
      }
    }
  }

  // ---------- Health check ----------

  /**
   When a health check finishes, the nodes it was told are bad were all in the map and good; afterwards exactly
   they are bad beside those that were, and the other nodes and the jobs are as before.
   */
  lemma HealthCheckIsAtomic(keys: seq<string>, moves: seq<Move>, w: World, id: nat, nodes: set<string>, ok: bool, bad: set<string>)
    requires Reached(keys, moves, w)
    requires id in w.handlers && w.handlers[id] == Handler(HealthCheck, Checking(nodes)) && w.lock == Some(id)
    requires bad <= nodes && (ok || bad == {})
    ensures nodes == NotBad(w.state.nodes) && NodesOf(w.state.nodes, BAD) !! bad
    ensures Step(keys, w, Finish(id, ok, bad)).Some?
    ensures var after := Step(keys, w, Finish(id, ok, bad)).value.state;
      && NodesOf(after.nodes, BAD) == NodesOf(w.state.nodes, BAD) + bad
      && after.nodes.Keys == w.state.nodes.Keys
      && (forall n | n in w.state.nodes && n !in bad :: after.nodes[n] == w.state.nodes[n])
      && after == w.state.(nodes := after.nodes)
  {
    InitIsSafe(keys);
    RunKeepsSafe(keys, Init(keys), moves);
  }

  /** A node that is bad is not among those that an assign has chosen, then or at any later point of the run. */
  lemma BadAreNotTaken(keys: seq<string>, before: seq<Move>, w: World, moves: seq<Move>, n: string, id: nat)
    requires Reached(keys, before, w) && NoHealers(w) && n in w.state.nodes && w.state.nodes[n] == BAD
    requires Run(keys, w, moves).Some? && forall i | 0 <= i < |moves| :: NoHealer(moves[i])
    requires var r := Run(keys, w, moves).value;
      id in r.handlers && r.handlers[id].kind.Assign? && r.handlers[id].pc.InActivity?
    ensures n !in Run(keys, w, moves).value.handlers[id].pc.names
  {
    BadStaysBad(keys, before, w, moves, n);
    InitIsSafe(keys);
    RunKeepsSafe(keys, Init(keys), before);
    RunKeepsSafe(keys, w, moves);
  }

  // ---------- Failures and the start ----------

  /** When the activity of an assign or a delete fails, the handler ends, frees the lock and leaves the state as it was. */
  lemma FailedActivityChangesNothing(keys: seq<string>, moves: seq<Move>, w: World, id: nat)
    requires Reached(keys, moves, w) && id in w.handlers && Holds(w.handlers[id])
    ensures var r := Step(keys, w, Finish(id, false, {}));
      && r.Some? && r.value.state == w.state && r.value.lock.None?
      && r.value.handlers == w.handlers[id := w.handlers[id].(pc := Done(None))]
  {
    InitIsSafe(keys);
    RunKeepsSafe(keys, Init(keys), moves);
  }

  ghost predicate NotBegun(keys: seq<string>, w: World) {
    !w.state.started ==>
      && !w.looping && w.state.nodes == AllFree(keys) && w.state.jobsAssigned == {} && w.lock.None?
      && forall id | id in w.handlers :: w.handlers[id].pc.AwaitStart?
  }

  lemma {:induction false} RunKeepsNotBegun(keys: seq<string>, w: World, moves: seq<Move>)
    requires NotBegun(keys, w) && Run(keys, w, moves).Some?
    ensures NotBegun(keys, Run(keys, w, moves).value)
    decreases |moves|
  {
    if moves != [] {
      RunKeepsNotBegun(keys, Step(keys, w, moves[0]).value, moves[1..]);
    }
  }

  /** Until the cluster is started, all nodes are free, no job is known and every handler waits. */
  lemma NothingBeforeStart(keys: seq<string>, moves: seq<Move>, w: World)
    requires Reached(keys, moves, w) && !w.state.started
    ensures w.state.nodes == AllFree(keys) && w.state.jobsAssigned == {} && w.lock.None?
    ensures forall id | id in w.handlers :: w.handlers[id].pc.AwaitStart?
  {
    RunKeepsNotBegun(keys, Init(keys), moves);
  }

  // ---------- Every handler can finish ----------

  /** No step drops a handler that is not done; continue-as-new waits for all of them. */
  lemma HandlersAreNotDropped(keys: seq<string>, w: World, m: Move, id: nat)
    requires Step(keys, w, m).Some? && id in w.handlers && !w.handlers[id].pc.Done?
    ensures var r := Step(keys, w, m).value; id in r.handlers && r.handlers[id].kind == w.handlers[id].kind
    ensures !m.ContinueAsNew?
  {}

  lemma {:induction false} RunConcat(keys: seq<string>, w: World, a: seq<Move>, b: seq<Move>)
    requires Run(keys, w, a).Some?
    ensures Run(keys, w, a + b) == Run(keys, Run(keys, w, a).value, b)
    decreases a
  {
    if a == [] {
      assert a + b == b;
    } else {
      assert (a + b)[1..] == a[1..] + b;
      RunConcat(keys, Step(keys, w, a[0]).value, a[1..], b);
    }
  }

  ghost predicate IsDone(w: World, id: nat) {
    id in w.handlers && w.handlers[id].pc.Done?
  }

  // How far a handler is from its end, the lock being taken by another one counting, too.
  function Distance(w: World, id: nat): nat
    requires id in w.handlers
  {
    match w.handlers[id].pc
    case AwaitStart => if w.state.started then 5 else 6
    case AwaitLock => if w.lock.Some? then 4 else 3
    case InActivity(_) => 2
    case Checking(_) => 2
    case Done(_) => 0
  }

  lemma OneStepNearer(keys: seq<string>, w: World, id: nat) returns (m: Move)
    requires Safe(keys, w) && id in w.handlers && !w.handlers[id].pc.Done?
    ensures var r := Step(keys, w, m);
      r.Some? && Safe(keys, r.value) && id in r.value.handlers && Distance(r.value, id) < Distance(w, id)
  {
    m := match w.handlers[id].pc
      case AwaitStart => if w.state.started then Enter(id) else StartCluster
      case AwaitLock => if w.lock.Some? then Finish(w.lock.value, false, {}) else Acquire(id)
      case _ => Finish(id, false, {});
    StepKeepsSafe(keys, w, m);
  }

  lemma {:induction false} CanFinish(keys: seq<string>, w: World, id: nat) returns (moves: seq<Move>)
    requires Safe(keys, w) && id in w.handlers
    ensures Run(keys, w, moves).Some? && IsDone(Run(keys, w, moves).value, id)
    decreases Distance(w, id)
  {
    moves := [];
    if !w.handlers[id].pc.Done? {
      var m := OneStepNearer(keys, w, id);
      var rest := CanFinish(keys, Step(keys, w, m).value, id);
      moves := [m] + rest;
      assert moves[1..] == rest;
    }
  }

  /** From every reachable world every handler can be brought to its end: the lock is never held for ever. */
  lemma EveryHandlerCanFinish(keys: seq<string>, before: seq<Move>, w: World, id: nat)
    requires Reached(keys, before, w) && id in w.handlers
    ensures exists moves :: Run(keys, w, moves).Some? && IsDone(Run(keys, w, moves).value, id)
  {
    InitIsSafe(keys);
    RunKeepsSafe(keys, Init(keys), before);
    var moves := CanFinish(keys, w, id);
    assert Run(keys, w, moves).Some?;
  }
}
