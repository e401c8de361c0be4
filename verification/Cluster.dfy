/**
 The cluster manager of safe_message_handler/workflow.go: any number of assign, delete and health-check
 handlers share a map of nodes under one lock, and give up control while an activity runs.

 The class holds the manager's state; each handler is the code before and after its activity. How handlers
 interleave is a state machine over the same functions.
 */
module Cluster {
  import opened Wrappers

  const FREE := ""
  const BAD := "BAD!"

  datatype State = State(started: bool, shutdown: bool, nodes: map<string, string>, jobsAssigned: set<string>)

  // DeterministicKeys visits the keys of a map in one fixed order, without repetition.
  ghost predicate IsOrder(keys: seq<string>, nodes: map<string, string>) {
    && (forall i, j | 0 <= i < j < |keys| :: keys[i] != keys[j])
    && (forall n :: n in keys <==> n in nodes)
  }

  // The nodes that hold this value, in order.
  function Holding(keys: seq<string>, nodes: map<string, string>, value: string): seq<string> {
    if keys == [] then []
    else
      var last := keys[|keys| - 1];
      Holding(keys[..|keys| - 1], nodes, value) + if last in nodes && nodes[last] == value then [last] else []
  }

  function NodesOf(nodes: map<string, string>, value: string): set<string> {
    set n | n in nodes && nodes[n] == value
  }

  function NotBad(nodes: map<string, string>): set<string> {
    set n | n in nodes && nodes[n] != BAD
  }

  function Write(nodes: map<string, string>, names: seq<string>, value: string): map<string, string> {
    if names == [] then nodes else Write(nodes, names[..|names| - 1], value)[names[|names| - 1] := value]
  }

  function WriteAll(nodes: map<string, string>, names: set<string>, value: string): map<string, string> {
    nodes + map n | n in names :: value
  }

  datatype Begun =
    | AlreadyAssigned(nodes: set<string>)
    | NotEnough
    | Panicked
    | Proceed(names: seq<string>)

  // What the assign handler does between taking the lock and its activity.
  function BeginAssign(keys: seq<string>, s: State, job: string, total: int): Begun {
    var free := Holding(keys, s.nodes, FREE);
    if job in s.jobsAssigned then AlreadyAssigned(NodesOf(s.nodes, job))
    else if |free| < total then NotEnough
    else if total < 0 then Panicked
    else Proceed(free[..total])
  }

  // What it does after its activity has succeeded.
  function EndAssign(s: State, job: string, names: seq<string>): State {
    s.(nodes := Write(s.nodes, names, job), jobsAssigned := s.jobsAssigned + {job})
  }

  function EndDelete(s: State, names: seq<string>): State {
    s.(nodes := Write(s.nodes, names, FREE))
  }

  function EndHealthCheck(s: State, bad: set<string>): State {
    s.(nodes := WriteAll(s.nodes, bad, BAD))
  }

  class ClusterManager {
    const keys: seq<string>
    var clusterStarted: bool
    var clusterShutdown: bool
    var nodes: map<string, string>
    var jobsAssigned: set<string>

    function Snapshot(): State
      reads this
    {
      State(clusterStarted, clusterShutdown, nodes, jobsAssigned)
    }

    // Every run starts with all nodes free; the rest of the state is carried over from the run before.
    constructor (keys: seq<string>, carried: Option<State>)
      ensures this.keys == keys
      ensures nodes.Keys == (set n | n in keys) && forall n | n in nodes :: nodes[n] == FREE
      ensures jobsAssigned == (if carried.Some? then carried.value.jobsAssigned else {})
      ensures clusterStarted == (carried.Some? && carried.value.started)
      ensures clusterShutdown == (carried.Some? && carried.value.shutdown)
    {
      this.keys := keys;
      clusterStarted := carried.Some? && carried.value.started;
      clusterShutdown := carried.Some? && carried.value.shutdown;
      jobsAssigned := if carried.Some? then carried.value.jobsAssigned else {};
      nodes := map[];
      new;
      for i := 0 to |keys|
        invariant nodes.Keys == (set n | n in keys[..i]) && forall n | n in nodes :: nodes[n] == FREE
        invariant jobsAssigned == (if carried.Some? then carried.value.jobsAssigned else {})
        invariant clusterStarted == (carried.Some? && carried.value.started)
        invariant clusterShutdown == (carried.Some? && carried.value.shutdown)
      {
        nodes := nodes[keys[i] := FREE];
      }
      assert keys[..|keys|] == keys;
    }

    method GetUnassignedNodes() returns (unassigned: seq<string>)
      requires IsOrder(keys, nodes)
      ensures unassigned == Holding(keys, nodes, FREE)
    {
      unassigned := [];
      for i := 0 to |keys|
        invariant unassigned == Holding(keys[..i], nodes, FREE)
      {
        assert keys[..i + 1][..i] == keys[..i];
        if nodes[keys[i]] == FREE {
          unassigned := unassigned + [keys[i]];
        }
      }
      assert keys[..|keys|] == keys;
    }

    // The nodes of one job, or without a job all that are not bad, the free ones included.
    method GetAssignedNodes(job: Option<string>) returns (names: set<string>)
      requires IsOrder(keys, nodes)
      ensures names == if job.Some? then NodesOf(nodes, job.value) else NotBad(nodes)
    {
      names := {};
      for i := 0 to |keys|
        invariant forall n :: n in names <==>
          n in keys[..i] && n in nodes && if job.Some? then nodes[n] == job.value else nodes[n] != BAD
      {
        var matches := if job.Some? then nodes[keys[i]] == job.value else nodes[keys[i]] != BAD;
        if matches {
          names := names + {keys[i]};
        }
      }
      assert keys[..|keys|] == keys;
    }

    method BadNodes() returns (bad: set<string>)
      requires IsOrder(keys, nodes)
      ensures bad == NodesOf(nodes, BAD)
    {
      bad := {};
      for i := 0 to |keys|
        invariant forall n :: n in bad <==> n in keys[..i] && n in nodes && nodes[n] == BAD
      {
        if nodes[keys[i]] == BAD {
          bad := bad + {keys[i]};
        }
      }
      assert keys[..|keys|] == keys;
    }

    method AssignBeforeActivity(job: string, total: int) returns (begun: Begun)
      requires IsOrder(keys, nodes)
      ensures begun == BeginAssign(keys, Snapshot(), job, total)
    {
      if job in jobsAssigned {
        var names := GetAssignedNodes(Some(job));
        return AlreadyAssigned(names);
      }
      var unassigned := GetUnassignedNodes();
      if |unassigned| < total {
        return NotEnough;
      }
      if total < 0 {
        return Panicked;
      }
      return Proceed(unassigned[..total]);
    }

    method AssignAfterActivity(job: string, nodesToAssign: seq<string>)
      modifies this
      ensures Snapshot() == EndAssign(old(Snapshot()), job, nodesToAssign)
    {
      WriteNodes(nodesToAssign, job);
      jobsAssigned := jobsAssigned + {job};
    }

    method DeleteBeforeActivity(job: string) returns (nodesToUnassign: seq<string>)
      requires IsOrder(keys, nodes)
      ensures nodesToUnassign == Holding(keys, nodes, job)
    {
      nodesToUnassign := [];
      for i := 0 to |keys|
        invariant nodesToUnassign == Holding(keys[..i], nodes, job)
      {
        assert keys[..i + 1][..i] == keys[..i];
        if nodes[keys[i]] == job {
          nodesToUnassign := nodesToUnassign + [keys[i]];
        }
      }
      assert keys[..|keys|] == keys;
    }

    method DeleteAfterActivity(nodesToUnassign: seq<string>)
      modifies this
      ensures Snapshot() == EndDelete(old(Snapshot()), nodesToUnassign)
    {
      WriteNodes(nodesToUnassign, FREE);
    }

    method HealthCheckAfterActivity(bad: set<string>)
      modifies this
      ensures Snapshot() == EndHealthCheck(old(Snapshot()), bad)
    {
      var left := bad;
      while left != {}
        invariant left <= bad
        invariant nodes == WriteAll(old(nodes), bad - left, BAD)
        invariant jobsAssigned == old(jobsAssigned)
        invariant clusterStarted == old(clusterStarted) && clusterShutdown == old(clusterShutdown)
        decreases left
      {
        var n :| n in left;
        nodes := nodes[n := BAD];
        left := left - {n};
      }
      assert bad - left == bad;
    }

    method WriteNodes(names: seq<string>, value: string)
      modifies this`nodes
      ensures nodes == Write(old(nodes), names, value)
    {
      for i := 0 to |names|
        invariant nodes == Write(old(nodes), names[..i], value)
      {
        assert names[..i + 1][..i] == names[..i];
        nodes := nodes[names[i] := value];
      }
      assert names[..|names|] == names;
    }
  }

  // The result is a part of the input; one name that is not a number makes the whole check fail.
  method FindBadNodesActivity(nodesToCheck: set<string>, atoi: string -> Option<int>) returns (r: Result<set<string>, string>)
    ensures r.Ok? <==> forall n | n in nodesToCheck :: atoi(n).Some?
    ensures r.Ok? ==> r.value == set n | n in nodesToCheck && atoi(n).Some? && atoi(n).value % 5 == 0
    ensures r.Err? ==> r.error in nodesToCheck && atoi(r.error).None?
  {
    var badNodes := {};
    var left := nodesToCheck;
    while left != {}
      invariant left <= nodesToCheck
      invariant forall n | n in nodesToCheck - left :: atoi(n).Some?
      invariant badNodes == set n | n in nodesToCheck - left && atoi(n).Some? && atoi(n).value % 5 == 0
      decreases left
    {
      var node :| node in left;
      var i := atoi(node);
      if i.None? {
        return Err(node);
      }
      if i.value % 5 == 0 {
        badNodes := badNodes + {node};
      }
      left := left - {node};
    }
    return Ok(badNodes);
  }

  // ---------- Interleaving ----------

  datatype Kind = Assign(job: string, total: int) | Delete(job: string) | HealthCheck

  // `begun` is the answer of an assign handler that needed no activity.
  datatype Pc = AwaitStart | AwaitLock | InActivity(names: seq<string>) | Checking(nodes: set<string>) | Done(begun: Option<Begun>)

  datatype Handler = Handler(kind: Kind, pc: Pc)

  // `looping` says that the main coroutine of this run has received its start signal and no shutdown.
  datatype World = World(state: State, lock: Option<nat>, handlers: map<nat, Handler>, looping: bool)

  datatype Move =
    | StartCluster
    | ShutdownCluster
    | Spawn(id: nat, kind: Kind)
    | Enter(id: nat)
    | Acquire(id: nat)
    | Finish(id: nat, ok: bool, bad: set<string>)
    | ContinueAsNew

  function SetPc(w: World, id: nat, pc: Pc): World
    requires id in w.handlers
  {
    w.(handlers := w.handlers[id := w.handlers[id].(pc := pc)])
  }

  // The main coroutine carries out the health checks itself, and does nothing else meanwhile.
  predicate MainIsFree(w: World) {
    w.looping && forall id | id in w.handlers && w.handlers[id].kind.HealthCheck? :: w.handlers[id].pc.Done?
  }

  predicate Finished(w: World) {
    forall id | id in w.handlers :: w.handlers[id].pc.Done?
  }

  // One stretch of a handler between two blocking calls.
  ghost function Step(keys: seq<string>, w: World, m: Move): Option<World> {
    var s := w.state;
    match m
    case StartCluster =>
      if w.looping || s.shutdown then None else Some(w.(state := s.(started := true), looping := true))
    case ShutdownCluster =>
      if MainIsFree(w) then Some(w.(state := s.(shutdown := true), looping := false)) else None
    case Spawn(id, kind) =>
      if id in w.handlers || (kind.HealthCheck? && !MainIsFree(w)) then None
      else Some(w.(handlers := w.handlers[id := Handler(kind, if kind.HealthCheck? then AwaitLock else AwaitStart)]))
    case Enter(id) =>
      if id in w.handlers && w.handlers[id].pc.AwaitStart? && s.started then
        Some(SetPc(w, id, if s.shutdown then Done(None) else AwaitLock))
      else None
    case Acquire(id) =>
      if id in w.handlers && w.handlers[id].pc.AwaitLock? && w.lock.None? then
        match w.handlers[id].kind
        case Assign(job, total) =>
          var begun := BeginAssign(keys, s, job, total);
          if begun.Proceed? then Some(SetPc(w.(lock := Some(id)), id, InActivity(begun.names)))
          else Some(SetPc(w, id, Done(Some(begun))))
        case Delete(job) => Some(SetPc(w.(lock := Some(id)), id, InActivity(Holding(keys, s.nodes, job))))
        case HealthCheck => Some(SetPc(w.(lock := Some(id)), id, Checking(NotBad(s.nodes))))
      else None
    case Finish(id, ok, bad) =>
      if id in w.handlers && w.lock == Some(id) then
        var w1 := SetPc(w.(lock := None), id, Done(None));
        match w.handlers[id].pc
        case InActivity(names) =>
          if !ok then Some(w1)
          else if w.handlers[id].kind.Assign? then Some(w1.(state := EndAssign(s, w.handlers[id].kind.job, names)))
          else Some(w1.(state := EndDelete(s, names)))
        case Checking(nodes) =>
          // The bad nodes are among those that were sent to the activity; a failed check finds none.
          if bad <= nodes && (ok || bad == {}) then Some(w1.(state := EndHealthCheck(s, bad))) else None
        case _ => None
      else None
    case ContinueAsNew =>
      if w.looping && Finished(w) then
        Some(World(s.(nodes := map n | n in s.nodes :: FREE), None, map[], false))
      else None
  }

  ghost function Run(keys: seq<string>, w: World, moves: seq<Move>): Option<World>
    decreases moves
  {
    if moves == [] then Some(w)
    else
      var w1 := Step(keys, w, moves[0]);
      if w1.None? then None else Run(keys, w1.value, moves[1..])
  }
}
