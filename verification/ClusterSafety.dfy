/**
 What the cluster manager's lock buys: however its handlers interleave, an assignment takes free nodes only
 and exactly as many as asked, names in the map are known jobs, and bad nodes stay bad, with the one exception
 that the code makes.
 */
module ClusterSafety {
  import opened Wrappers
  import opened Cluster

  predicate Distinct(names: seq<string>) {
    forall i, j | 0 <= i < j < |names| :: names[i] != names[j]
  }

  function Names(names: seq<string>): set<string> {
    set n | n in names
  }

  lemma {:induction false} HoldingMembers(keys: seq<string>, nodes: map<string, string>, value: string)
    ensures forall n :: n in Holding(keys, nodes, value) <==> n in keys && n in nodes && nodes[n] == value
    ensures Distinct(keys) ==> Distinct(Holding(keys, nodes, value))
    decreases keys
  {
    if keys != [] {
      var last, rest := keys[|keys| - 1], keys[..|keys| - 1];
      HoldingMembers(rest, nodes, value);
      assert keys == rest + [last];
      assert Distinct(keys) ==> last !in rest;
    }
  }

  lemma {:induction false} WriteEffect(nodes: map<string, string>, names: seq<string>, value: string)
    ensures var after := Write(nodes, names, value);
      && after.Keys == nodes.Keys + Names(names)
      && forall n | n in after :: after[n] == if n in names then value else nodes[n]
    decreases names
  {
    if names != [] {
      var last, rest := names[|names| - 1], names[..|names| - 1];
      WriteEffect(nodes, rest, value);
      assert names == rest + [last];
    }
  }

  lemma {:induction false} NamesCount(names: seq<string>)
    requires Distinct(names)
    ensures |Names(names)| == |names|
    decreases names
  {
    if names != [] {
      var last, rest := names[|names| - 1], names[..|names| - 1];
      NamesCount(rest);
      assert Names(names) == Names(rest) + {last};
    }
  }

  // ---------- What every interleaving keeps ----------

  predicate JobsKnown(s: State) {
    forall n | n in s.nodes :: s.nodes[n] == FREE || s.nodes[n] == BAD || s.nodes[n] in s.jobsAssigned
  }

  predicate Holds(h: Handler) {
    h.pc.InActivity? || h.pc.Checking?
  }

  predicate LockOwned(w: World) {
    && (forall id | id in w.handlers && Holds(w.handlers[id]) :: w.lock == Some(id))
    && (w.lock.Some? ==> w.lock.value in w.handlers && Holds(w.handlers[w.lock.value]))
  }

  // What the holder of the lock saw before its activity is still so.
  predicate Current(s: State, h: Handler) {
    match h.pc
    case InActivity(names) =>
      && Distinct(names)
      && (forall n | n in names :: n in s.nodes)
      && (match h.kind
          case Assign(job, total) =>
            job !in s.jobsAssigned && |names| == total && forall n | n in names :: s.nodes[n] == FREE
          case Delete(job) => Names(names) == NodesOf(s.nodes, job)
          case HealthCheck => false)
    case Checking(nodes) => h.kind.HealthCheck? && nodes == NotBad(s.nodes)
    case _ => true
  }

  ghost predicate Safe(keys: seq<string>, w: World) {
    && IsOrder(keys, w.state.nodes)
    && JobsKnown(w.state)
    && LockOwned(w)
    && (w.lock.Some? ==> Current(w.state, w.handlers[w.lock.value]))
    && (w.looping ==> w.state.started && !w.state.shutdown)
    && (w.state.shutdown ==> w.state.started)
  }

  function Init(keys: seq<string>): World {
    World(State(false, false, map n | n in keys :: FREE, {}), None, map[], false)
  }

  lemma InitIsSafe(keys: seq<string>)
    requires Distinct(keys)
    ensures Safe(keys, Init(keys))
  {}

  lemma AcquireKeepsSafe(keys: seq<string>, w: World, id: nat)
    requires Safe(keys, w) && Step(keys, w, Acquire(id)).Some?
    ensures Safe(keys, Step(keys, w, Acquire(id)).value)
  {
    var w1 := Step(keys, w, Acquire(id)).value;
    match w.handlers[id].kind
    case Assign(job, total) =>
      HoldingMembers(keys, w.state.nodes, FREE);
      var free := Holding(keys, w.state.nodes, FREE);
      if w1.handlers[id].pc.InActivity? {
        assert forall n | n in free[..total] :: n in free;
      }
    case Delete(job) =>
      HoldingMembers(keys, w.state.nodes, job);
      assert Names(Holding(keys, w.state.nodes, job)) == NodesOf(w.state.nodes, job);
    case HealthCheck =>
  }

  lemma FinishKeepsSafe(keys: seq<string>, w: World, id: nat, ok: bool, bad: set<string>)
    requires Safe(keys, w) && Step(keys, w, Finish(id, ok, bad)).Some?
    ensures Safe(keys, Step(keys, w, Finish(id, ok, bad)).value)
  {
    if w.handlers[id].pc.InActivity? {
      var names := w.handlers[id].pc.names;
      WriteEffect(w.state.nodes, names, if w.handlers[id].kind.Assign? then w.handlers[id].kind.job else FREE);
    }
  }

  lemma StepKeepsSafe(keys: seq<string>, w: World, m: Move)
    requires Safe(keys, w) && Step(keys, w, m).Some?
    ensures Safe(keys, Step(keys, w, m).value)
  {
    match m
    case Acquire(id) => AcquireKeepsSafe(keys, w, id);
    case Finish(id, ok, bad) => FinishKeepsSafe(keys, w, id, ok, bad);
    case _ =>
  }

  lemma {:induction false} RunKeepsSafe(keys: seq<string>, w: World, moves: seq<Move>)
    requires Safe(keys, w) && Run(keys, w, moves).Some?
    ensures Safe(keys, Run(keys, w, moves).value)
    decreases |moves|
  {
    if moves != [] {
      StepKeepsSafe(keys, w, moves[0]);
      RunKeepsSafe(keys, Step(keys, w, moves[0]).value, moves[1..]);
    }
  }

  // A world that some interleaving of some handlers leads to.
  ghost predicate Reached(keys: seq<string>, moves: seq<Move>, w: World) {
    Distinct(keys) && Run(keys, Init(keys), moves) == Some(w)
  }

  /** The nodes never change, and every name in them is free, bad or an assigned job. */
  lemma NodesStayConsistent(keys: seq<string>, moves: seq<Move>, w: World)
    requires Reached(keys, moves, w)
    ensures IsOrder(keys, w.state.nodes) && JobsKnown(w.state)
  {
    InitIsSafe(keys);
    RunKeepsSafe(keys, Init(keys), moves);
  }

  /**
   When an assignment succeeds, the nodes it writes were all still free, though other handlers may have run
   during its activity; afterwards exactly these nodes, as many as were asked for, carry the job, the other
   nodes are as before, and the job is recorded.
   */
  lemma AssignIsAtomic(keys: seq<string>, moves: seq<Move>, w: World, id: nat, job: string, total: int, names: seq<string>)
    requires Reached(keys, moves, w) && job != FREE && job != BAD
    requires id in w.handlers && w.handlers[id] == Handler(Assign(job, total), InActivity(names)) && w.lock == Some(id)
    ensures Step(keys, w, Finish(id, true, {})).Some?
    ensures var after := Step(keys, w, Finish(id, true, {})).value.state;
      && (forall n | n in names :: n in w.state.nodes && w.state.nodes[n] == FREE)
      && NodesOf(after.nodes, job) == Names(names) && |NodesOf(after.nodes, job)| == total
      && (forall n | n in w.state.nodes && n !in names :: n in after.nodes && after.nodes[n] == w.state.nodes[n])
      && after.jobsAssigned == w.state.jobsAssigned + {job}
  {
    InitIsSafe(keys);
    RunKeepsSafe(keys, Init(keys), moves);
    WriteEffect(w.state.nodes, names, job);
    NamesCount(names);
    var after := Step(keys, w, Finish(id, true, {})).value.state;
    forall n ensures n in NodesOf(after.nodes, job) <==> n in Names(names) {
      assert n in w.state.nodes && w.state.nodes[n] == job ==> job in w.state.jobsAssigned;
    }
    assert NodesOf(after.nodes, job) == Names(names);
  }

  /**
   When a deletion succeeds, the nodes it frees were still all nodes of the job; afterwards no node carries
   the job and the other nodes are as before.
   */
  lemma DeleteIsAtomic(keys: seq<string>, moves: seq<Move>, w: World, id: nat, job: string, names: seq<string>)
    requires Reached(keys, moves, w) && job != FREE
    requires id in w.handlers && w.handlers[id] == Handler(Delete(job), InActivity(names)) && w.lock == Some(id)
    ensures Names(names) == NodesOf(w.state.nodes, job)
    ensures Step(keys, w, Finish(id, true, {})).Some?
    ensures var after := Step(keys, w, Finish(id, true, {})).value.state;
      && NodesOf(after.nodes, job) == {}
      && (forall n | n in names :: n in after.nodes && after.nodes[n] == FREE)
      && (forall n | n in w.state.nodes && n !in names :: n in after.nodes && after.nodes[n] == w.state.nodes[n])
      && after.jobsAssigned == w.state.jobsAssigned
  {
    InitIsSafe(keys);
    RunKeepsSafe(keys, Init(keys), moves);
    WriteEffect(w.state.nodes, names, FREE);
    var after := Step(keys, w, Finish(id, true, {})).value.state;
    forall n ensures n !in NodesOf(after.nodes, job) {
      assert n in Names(names) <==> n in names;
    }
  }

  lemma {:induction false} JobsOnlyGrow(keys: seq<string>, w: World, moves: seq<Move>)
    requires Run(keys, w, moves).Some?
    ensures w.state.jobsAssigned <= Run(keys, w, moves).value.state.jobsAssigned
    decreases |moves|
  {
    if moves != [] {
      JobsOnlyGrow(keys, Step(keys, w, moves[0]).value, moves[1..]);
    }
  }

  /**
   Once a job has been assigned, asking for it again changes nothing and reports the nodes it has by then:
   at any later time, in this run or a later one, and whatever became of its nodes.
   */
  lemma RepeatedAssignChangesNothing(
    keys: seq<string>, before: World, moves: seq<Move>, id: nat, job: string, total: int)
    requires job in before.state.jobsAssigned && Run(keys, before, moves).Some?
    requires var w := Run(keys, before, moves).value;
      id in w.handlers && w.handlers[id] == Handler(Assign(job, total), AwaitLock) && w.lock.None?
    ensures var w := Run(keys, before, moves).value;
      var r := Step(keys, w, Acquire(id));
      && r.Some? && r.value.state == w.state && r.value.lock.None?
      && r.value.handlers == w.handlers[id := Handler(Assign(job, total), Done(Some(AlreadyAssigned(NodesOf(w.state.nodes, job)))))]
  {
    JobsOnlyGrow(keys, before, moves);
  }

  // ---------- Bad nodes ----------

  predicate HealsBad(w: World, m: Move) {
    m.ContinueAsNew?
    || (m.Finish? && m.ok && m.id in w.handlers && w.handlers[m.id].kind == Delete(BAD) && w.handlers[m.id].pc.InActivity?)
  }

  lemma BadStep(keys: seq<string>, w: World, m: Move, n: string)
    requires Safe(keys, w) && Step(keys, w, m).Some?
    requires n in w.state.nodes && w.state.nodes[n] == BAD
    ensures var after := Step(keys, w, m).value.state.nodes;
      n in after && (after[n] != BAD <==> HealsBad(w, m))
  {
    if m.Finish? && w.handlers[m.id].pc.InActivity? {
      var h := w.handlers[m.id];
      WriteEffect(w.state.nodes, h.pc.names, if h.kind.Assign? then h.kind.job else FREE);
      if h.kind == Delete(BAD) {
        assert n in NodesOf(w.state.nodes, BAD);
        assert n in Names(h.pc.names);
      } else if h.kind.Delete? && n in h.pc.names {
        assert n in Names(h.pc.names);
      }
    }
  }

  /**
   A step turns a bad node good exactly when it starts the next run, or completes the deletion of a job
   that is called like the mark of a bad node.
   */
  lemma BadIsLostExactly(keys: seq<string>, moves: seq<Move>, w: World, m: Move, n: string)
    requires Reached(keys, moves, w) && Step(keys, w, m).Some?
    requires n in w.state.nodes && w.state.nodes[n] == BAD
    ensures var after := Step(keys, w, m).value.state.nodes;
      n in after && (after[n] != BAD <==> HealsBad(w, m))
  {
    InitIsSafe(keys);
    RunKeepsSafe(keys, Init(keys), moves);
    BadStep(keys, w, m, n);
  }

  predicate NoHealer(m: Move) {
    !m.ContinueAsNew? && !(m.Spawn? && m.kind == Delete(BAD))
  }

  predicate NoHealers(w: World) {
    forall id | id in w.handlers :: w.handlers[id].kind != Delete(BAD)
  }

  lemma StepKeepsNoHealers(keys: seq<string>, w: World, m: Move)
    requires NoHealers(w) && NoHealer(m) && Step(keys, w, m).Some?
    ensures NoHealers(Step(keys, w, m).value)
  {}

  lemma {:induction false} BadStaysBadFrom(keys: seq<string>, w: World, moves: seq<Move>, n: string)
    requires Safe(keys, w) && NoHealers(w) && n in w.state.nodes && w.state.nodes[n] == BAD
    requires Run(keys, w, moves).Some? && forall i | 0 <= i < |moves| :: NoHealer(moves[i])
    ensures var r := Run(keys, w, moves).value; n in r.state.nodes && r.state.nodes[n] == BAD
    decreases |moves|
  {
    if moves != [] {
      StepKeepsSafe(keys, w, moves[0]);
      StepKeepsNoHealers(keys, w, moves[0]);
      BadStep(keys, w, moves[0], n);
      assert !HealsBad(w, moves[0]);
      BadStaysBadFrom(keys, Step(keys, w, moves[0]).value, moves[1..], n);
    }
  }

  /**
   Within any run of the chain: once no deletion of a job of that name is under way, and as long as nobody
   asks for one, a node that is bad stays bad until the run ends.
   */
  lemma BadStaysBad(keys: seq<string>, before: seq<Move>, w: World, moves: seq<Move>, n: string)
    requires Reached(keys, before, w) && NoHealers(w)
    requires Run(keys, w, moves).Some? && forall i | 0 <= i < |moves| :: NoHealer(moves[i])
    requires n in w.state.nodes && w.state.nodes[n] == BAD
    ensures var r := Run(keys, w, moves).value; n in r.state.nodes && r.state.nodes[n] == BAD
  {
    InitIsSafe(keys);
    RunKeepsSafe(keys, Init(keys), before);
    BadStaysBadFrom(keys, w, moves, n);
  }

  // ---------- Shutdown ----------

  /**
   Handlers are meant to work only until the cluster is shut down, but shutdown is only looked at before the
   lock: a handler that waits for the lock when the cluster is shut down goes on to assign its nodes.
   */
  lemma ShutdownDoesNotStopWaiters(keys: seq<string>, w: World, id: nat, job: string, total: nat)
    requires w.state.shutdown && w.lock.None?
    requires id in w.handlers && w.handlers[id] == Handler(Assign(job, total), AwaitLock)
    requires job !in w.state.jobsAssigned && |Holding(keys, w.state.nodes, FREE)| >= total
    ensures var r := Run(keys, w, [Acquire(id), Finish(id, true, {})]);
      && r.Some? && r.value.state.shutdown && job in r.value.state.jobsAssigned
      && r.value.state.nodes == Write(w.state.nodes, Holding(keys, w.state.nodes, FREE)[..total], job)
  {
    var moves := [Acquire(id), Finish(id, true, {})];
    var w1 := Step(keys, w, Acquire(id)).value;
    var w2 := Step(keys, w1, Finish(id, true, {})).value;
    assert moves[1..] == [Finish(id, true, {})] && moves[1..][1..] == [];
    assert Run(keys, w1, moves[1..]) == Some(w2);
  }

  // The handler is past the check for shutdown, and not done.
  predicate Entered(w: World, id: nat) {
    id in w.handlers && !w.handlers[id].pc.AwaitStart? && !w.handlers[id].pc.Done?
  }

  // After these moves the handler may go on to look at the nodes, or to write them.
  ghost predicate GetsToNodes(keys: seq<string>, w: World, moves: seq<Move>, id: nat) {
    && Run(keys, w, moves).Some?
    && var r := Run(keys, w, moves).value;
       Step(keys, r, Acquire(id)).Some? || exists ok, bad :: Step(keys, r, Finish(id, ok, bad)).Some?
  }

  lemma {:induction false} StoppedStaysStopped(keys: seq<string>, w: World, moves: seq<Move>, id: nat)
    requires Safe(keys, w) && w.state.shutdown && !Entered(w, id) && Run(keys, w, moves).Some?
    ensures !Entered(Run(keys, w, moves).value, id)
    decreases |moves|
  {
    if moves != [] {
      StepKeepsSafe(keys, w, moves[0]);
      StoppedStaysStopped(keys, Step(keys, w, moves[0]).value, moves[1..], id);
    }
  }

  /**
   Exactly the handlers that were past the check for shutdown, and not done, when the cluster was shut down
   can still get to the nodes; all others never do, however things go on.
   */
  lemma ShutdownStopsTheOthers(keys: seq<string>, before: seq<Move>, w: World, id: nat)
    requires Reached(keys, before, w) && w.state.shutdown
    ensures (exists moves :: GetsToNodes(keys, w, moves, id)) <==> Entered(w, id)
  {
    InitIsSafe(keys);
    RunKeepsSafe(keys, Init(keys), before);
    forall moves | GetsToNodes(keys, w, moves, id) ensures Entered(w, id) {
      if !Entered(w, id) { StoppedStaysStopped(keys, w, moves, id); }
    }
    if Entered(w, id) {
      if Holds(w.handlers[id]) {
        assert Step(keys, w, Finish(id, false, {})).Some?;
        assert GetsToNodes(keys, w, [], id);
      } else if w.lock.None? {
        assert Step(keys, w, Acquire(id)).Some?;
        assert GetsToNodes(keys, w, [], id);
      } else {
        var finish := Finish(w.lock.value, false, {});
        var w1 := Step(keys, w, finish).value;
        assert [finish][1..] == [] && Run(keys, w1, []) == Some(w1);
        assert Run(keys, w, [finish]) == Some(w1);
        assert Step(keys, w1, Acquire(id)).Some?;
        assert GetsToNodes(keys, w, [finish], id);
      }
    }
  }

  function AllFree(keys: seq<string>): map<string, string> {
    map n | n in keys :: FREE
  }

  lemma {:induction false} HoldingAllFree(keys: seq<string>, part: seq<string>, value: string)
    requires forall n | n in part :: n in keys
    ensures Holding(part, AllFree(keys), value) == if value == FREE then part else []
    decreases part
  {
    if part != [] {
      var rest := part[..|part| - 1];
      assert part == rest + [part[|part| - 1]];
      HoldingAllFree(keys, rest, value);
    }
  }

  // An assign waits for the lock while a delete has it, and the cluster is shut down meanwhile.
  function UntilShutdown(job: string, total: int, other: string): seq<Move> {
    [StartCluster, Spawn(0, Delete(other)), Enter(0), Acquire(0), Spawn(1, Assign(job, total)), Enter(1), ShutdownCluster]
  }

  lemma ShutdownWhileWaiting(keys: seq<string>, job: string, total: int, other: string)
    requires other != FREE
    ensures Run(keys, Init(keys), UntilShutdown(job, total, other))
         == Some(World(State(true, true, AllFree(keys), {}), Some(0),
                       map[0 := Handler(Delete(other), InActivity([])), 1 := Handler(Assign(job, total), AwaitLock)], false))
  {
    HoldingAllFree(keys, keys, other);
    var moves := UntilShutdown(job, total, other);
    var w1 := Step(keys, Init(keys), moves[0]).value;
    var w2 := Step(keys, w1, moves[1]).value;
    var w3 := Step(keys, w2, moves[2]).value;
    var w4 := Step(keys, w3, moves[3]).value;
    var w5 := Step(keys, w4, moves[4]).value;
    var w6 := Step(keys, w5, moves[5]).value;
    assert w4.handlers == map[0 := Handler(Delete(other), InActivity([]))];
    assert w6.handlers == map[0 := Handler(Delete(other), InActivity([])), 1 := Handler(Assign(job, total), AwaitLock)];
    var w7 := Step(keys, w6, moves[6]).value;
    FourSteps(keys, w3, moves[3..], w4, w5, w6, w7);
    ThreeSteps(keys, Init(keys), moves, w1, w2, w3);
  }

  lemma ThreeSteps(keys: seq<string>, w: World, moves: seq<Move>, w1: World, w2: World, w3: World)
    requires |moves| >= 3
    requires Step(keys, w, moves[0]) == Some(w1) && Step(keys, w1, moves[1]) == Some(w2) && Step(keys, w2, moves[2]) == Some(w3)
    ensures Run(keys, w, moves) == Run(keys, w3, moves[3..])
  {
    assert moves[1..][1..] == moves[2..] && moves[2..][1..] == moves[3..];
    assert Run(keys, w1, moves[1..]) == Run(keys, w2, moves[2..]) == Run(keys, w3, moves[3..]);
  }

  lemma FourSteps(keys: seq<string>, w: World, moves: seq<Move>, w1: World, w2: World, w3: World, w4: World)
    requires |moves| == 4
    requires Step(keys, w, moves[0]) == Some(w1) && Step(keys, w1, moves[1]) == Some(w2)
    requires Step(keys, w2, moves[2]) == Some(w3) && Step(keys, w3, moves[3]) == Some(w4)
    ensures Run(keys, w, moves) == Some(w4)
  {
    ThreeSteps(keys, w, moves, w1, w2, w3);
    assert moves[3..][1..] == [] && Run(keys, w4, []) == Some(w4);
  }

  /**
   Such a world is reached in every cluster: whatever job and however many of its nodes are asked for, the
   schedule shuts the cluster down and assigns the nodes after that.
   */
  lemma AssignAfterShutdown(keys: seq<string>, job: string, total: nat, other: string)
    requires Distinct(keys) && total <= |keys| && other != FREE
    ensures var w := Run(keys, Init(keys), UntilShutdown(job, total, other));
      && w.Some? && w.value.state == State(true, true, AllFree(keys), {})
      && var r := Run(keys, w.value, [Finish(0, true, {}), Acquire(1), Finish(1, true, {})]);
         r.Some? && r.value.state == State(true, true, Write(AllFree(keys), keys[..total], job), {job})
  {
    ShutdownWhileWaiting(keys, job, total, other);
    HoldingAllFree(keys, keys, FREE);
    var handlers := map[0 := Handler(Delete(other), InActivity([])), 1 := Handler(Assign(job, total), AwaitLock)];
    LateAssign(keys, World(State(true, true, AllFree(keys), {}), Some(0), handlers, false), job, total, other);
  }

  lemma LateAssign(keys: seq<string>, w: World, job: string, total: nat, other: string)
    requires w.state == State(true, true, AllFree(keys), {}) && w.lock == Some(0)
    requires w.handlers == map[0 := Handler(Delete(other), InActivity([])), 1 := Handler(Assign(job, total), AwaitLock)]
    requires Holding(keys, AllFree(keys), FREE) == keys && total <= |keys|
    ensures var r := Run(keys, w, [Finish(0, true, {}), Acquire(1), Finish(1, true, {})]);
      r.Some? && r.value.state == State(true, true, Write(AllFree(keys), keys[..total], job), {job})
  {
    var moves := [Finish(0, true, {}), Acquire(1), Finish(1, true, {})];
    var w1 := Step(keys, w, moves[0]).value;
    assert w1.state == w.state && w1.lock.None?;
    var w2 := Step(keys, w1, moves[1]).value;
    assert w2.state == w.state && w2.handlers[1].pc == InActivity(keys[..total]);
    var w3 := Step(keys, w2, moves[2]).value;
    ThreeSteps(keys, w, moves, w1, w2, w3);
    assert moves[3..] == [] && Run(keys, w3, []) == Some(w3);
  }

  // ---------- Continue-as-new ----------

  /**
   The next run knows all jobs but starts with free nodes, so a job that is asked for again there is taken
   for assigned and gets no nodes.
   */
  lemma ContinueAsNewLosesNodes(keys: seq<string>, w: World, job: string, total: int)
    requires Safe(keys, w) && w.looping && Finished(w) && job in w.state.jobsAssigned && job != FREE
    ensures var r := Run(keys, w, [ContinueAsNew, Spawn(0, Assign(job, total)), Enter(0), Acquire(0)]);
      && r.Some? && NodesOf(r.value.state.nodes, job) == {} && 0 in r.value.handlers
      && r.value.handlers[0] == Handler(Assign(job, total), Done(Some(AlreadyAssigned({}))))
  {
    var moves := [ContinueAsNew, Spawn(0, Assign(job, total)), Enter(0), Acquire(0)];
    var w1 := Step(keys, w, moves[0]).value;
    var w2 := Step(keys, w1, moves[1]).value;
    var w3 := Step(keys, w2, moves[2]).value;
    assert NodesOf(w3.state.nodes, job) == {};
    var w4 := Step(keys, w3, moves[3]).value;
    assert moves[3..][1..] == [] && moves[2..][1..] == moves[3..] && moves[1..][1..] == moves[2..];
    assert Run(keys, w3, moves[3..]) == Some(w4);
    assert Run(keys, w2, moves[2..]) == Some(w4);
    assert Run(keys, w1, moves[1..]) == Some(w4);
  }

  /**
   The next run waits for a start signal of its own: until one arrives it checks no node, does not see a
   shutdown and does not continue as new, though its handlers work.
   */
  lemma ContinueAsNewAwaitsStart(keys: seq<string>, w: World, moves: seq<Move>)
    requires Safe(keys, w) && Step(keys, w, ContinueAsNew).Some?
    requires Run(keys, Step(keys, w, ContinueAsNew).value, moves).Some?
    requires forall i | 0 <= i < |moves| :: !moves[i].StartCluster?
    ensures var r := Run(keys, Step(keys, w, ContinueAsNew).value, moves).value;
      && Safe(keys, r) && !r.state.shutdown && r.state.started
      && (forall id | id in r.handlers :: !r.handlers[id].kind.HealthCheck?)
      && forall i | 0 <= i < |moves| :: !moves[i].ShutdownCluster? && !moves[i].ContinueAsNew?
  {
    StepKeepsSafe(keys, w, ContinueAsNew);
    StaysOutOfLoop(keys, Step(keys, w, ContinueAsNew).value, moves);
  }

  lemma {:induction false} StaysOutOfLoop(keys: seq<string>, w: World, moves: seq<Move>)
    requires Safe(keys, w) && !w.looping && !w.state.shutdown && w.state.started
    requires forall id | id in w.handlers :: !w.handlers[id].kind.HealthCheck?
    requires Run(keys, w, moves).Some? && forall i | 0 <= i < |moves| :: !moves[i].StartCluster?
    ensures var r := Run(keys, w, moves).value;
      && Safe(keys, r) && !r.state.shutdown && r.state.started
      && (forall id | id in r.handlers :: !r.handlers[id].kind.HealthCheck?)
      && forall i | 0 <= i < |moves| :: !moves[i].ShutdownCluster? && !moves[i].ContinueAsNew?
    decreases |moves|
  {
    if moves != [] {
      StepKeepsSafe(keys, w, moves[0]);
      StaysOutOfLoop(keys, Step(keys, w, moves[0]).value, moves[1..]);
      assert forall i | 0 < i < |moves| :: moves[i] == moves[1..][i - 1];
    }
  }
}
