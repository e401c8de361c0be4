/**
 The search of pso/swarm.go: the particles are updated by activities that run in parallel and complete in
 any order, and their best positions are then reduced into the best of the swarm.
 */
module SwarmSearch {
  import opened Wrappers
  import opened Swarm

  // ---------- One iteration, in any order ----------

  datatype Job = Ready | Running(result: Body) | Complete

  datatype Move = Launch(i: nat) | Land(i: nat)

  datatype Round = Round(swarm: SwarmState, jobs: seq<Job>)

  predicate Drawn(s: Settings, draws: seq<Draws>, n: nat) {
    |draws| == n && forall i | 0 <= i < n :: |draws[i]| == s.dim
  }

  // Whatever an activity is sent or returns has the dimension of the problem.
  predicate Sent(s: Settings, draws: seq<Draws>, r: Round) {
    && Shaped(s, r.swarm) && |r.jobs| == |r.swarm.bodies| && Drawn(s, draws, |r.jobs|)
    && forall i | 0 <= i < |r.jobs| :: r.jobs[i].Running? ==> Fits(s, r.jobs[i].result)
  }

  // An activity is sent the swarm as it is when it starts, and its particle is replaced when it completes.
  function Step(s: Settings, draws: seq<Draws>, r: Round, m: Move): Option<Round>
    requires Sent(s, draws, r)
  {
    if m.i >= |r.jobs| then None
    else match m
      case Launch(i) =>
        if r.jobs[i].Ready? then Some(r.(jobs := r.jobs[i := Running(UpdatedParticle(s, r.swarm, i, draws[i]))])) else None
      case Land(i) =>
        if r.jobs[i].Running? then
          Some(Round(r.swarm.(bodies := r.swarm.bodies[i := r.jobs[i].result]), r.jobs[i := Complete]))
        else None
  }

  // Every particle is as it was until its job is complete, and then as a job on the first swarm leaves it.
  predicate Progressed(s: Settings, draws: seq<Draws>, first: SwarmState, r: Round)
    requires Shaped(s, first) && Drawn(s, draws, |first.bodies|)
  {
    && |r.jobs| == |r.swarm.bodies| == |first.bodies|
    && r.swarm.gbest == first.gbest
    && forall i: nat | i < |r.jobs| ::
         match r.jobs[i]
         case Ready => r.swarm.bodies[i] == first.bodies[i]
         case Running(b) => r.swarm.bodies[i] == first.bodies[i] && b == UpdatedParticle(s, first, i, draws[i])
         case Complete => r.swarm.bodies[i] == UpdatedParticle(s, first, i, draws[i])
  }

  lemma StepKeepsProgressed(s: Settings, draws: seq<Draws>, first: SwarmState, r: Round, m: Move)
    requires Shaped(s, first) && Drawn(s, draws, |first.bodies|) && Progressed(s, draws, first, r)
    requires Sent(s, draws, r) && Step(s, draws, r, m).Some?
    ensures Progressed(s, draws, first, Step(s, draws, r, m).value)
  {}

  // None when the schedule has a move that is not enabled.
  function Play(s: Settings, draws: seq<Draws>, r: Round, moves: seq<Move>): Option<Round>
    requires Sent(s, draws, r)
    decreases moves
  {
    if moves == [] then Some(r)
    else
      var r1 := Step(s, draws, r, moves[0]);
      if r1.None? then None else Play(s, draws, r1.value, moves[1..])
  }

  lemma {:induction false} PlayKeepsProgressed(
    s: Settings, draws: seq<Draws>, first: SwarmState, r: Round, moves: seq<Move>)
    requires Shaped(s, first) && Drawn(s, draws, |first.bodies|) && Progressed(s, draws, first, r)
    requires Sent(s, draws, r) && Play(s, draws, r, moves).Some?
    ensures Progressed(s, draws, first, Play(s, draws, r, moves).value)
    decreases moves
  {
    if moves != [] {
      StepKeepsProgressed(s, draws, first, r, moves[0]);
      PlayKeepsProgressed(s, draws, first, Step(s, draws, r, moves[0]).value, moves[1..]);
    }
  }

  function Idle(sw: SwarmState): Round {
    Round(sw, seq(|sw.bodies|, i => Ready))
  }

  predicate AllComplete(r: Round) {
    forall i | 0 <= i < |r.jobs| :: r.jobs[i].Complete?
  }

  /** Whatever the order of the activities, an iteration leaves the same swarm for the same random draws. */
  lemma OrderDoesNotMatter(s: Settings, draws: seq<Draws>, first: SwarmState, moves: seq<Move>)
    requires Shaped(s, first) && Drawn(s, draws, |first.bodies|)
    requires var end := Play(s, draws, Idle(first), moves); end.Some? && AllComplete(end.value)
    ensures Play(s, draws, Idle(first), moves).value.swarm == AllUpdated(s, first, draws)
  {
    var end := Play(s, draws, Idle(first), moves).value;
    PlayKeepsProgressed(s, draws, first, Idle(first), moves);
    assert end.swarm.bodies == AllUpdated(s, first, draws).bodies;
  }

  function AllUpdated(s: Settings, sw: SwarmState, draws: seq<Draws>): (r: SwarmState)
    requires Shaped(s, sw) && Drawn(s, draws, |sw.bodies|)
    ensures Shaped(s, r) && |r.bodies| == |sw.bodies|
  {
    sw.(bodies := seq(|sw.bodies|, i requires 0 <= i < |sw.bodies| => UpdatedParticle(s, sw, i, draws[i])))
  }

  // ---------- The best so far ----------

  // The iteration: all particles, then updateBest.
  function Iteration(s: Settings, sw: SwarmState, draws: seq<Draws>): (r: SwarmState)
    requires Shaped(s, sw) && Drawn(s, draws, |sw.bodies|)
    ensures Shaped(s, r) && |r.bodies| == |sw.bodies|
  {
    var updated := AllUpdated(s, sw, draws);
    BestOfIsOne(updated.gbest, Pbests(updated.bodies));
    assert forall p | p in Pbests(updated.bodies) :: |p.location| == s.dim;
    updated.(gbest := BestOf(updated.gbest, Pbests(updated.bodies)))
  }

  // The fitness values that the particles have just got.
  function Fitnesses(bodies: seq<Body>): seq<real> {
    seq(|bodies|, i requires 0 <= i < |bodies| => bodies[i].position.fitness)
  }

  // The least of the values and of the fitness of a position that was never evaluated.
  function Least(values: seq<real>): (r: real)
    ensures r <= WORST && forall v | v in values :: r <= v
    ensures r == WORST || r in values
  {
    if values == [] then WORST
    else
      var last, least := values[|values| - 1], Least(values[..|values| - 1]);
      assert values == values[..|values| - 1] + [last];
      if last < least then last else least
  }

  // A remembered position has the fitness that the objective function gives its location.
  predicate Genuine(s: Settings, p: Point) {
    p.fitness < WORST ==> s.evaluate(p.location) == p.fitness
  }

  // `seen` are all the fitness values evaluated so far.
  predicate BestSoFar(s: Settings, sw: SwarmState, seen: seq<real>) {
    && Shaped(s, sw)
    && sw.gbest.fitness == Least(seen) && Genuine(s, sw.gbest)
    && forall i | 0 <= i < |sw.bodies| :: Least(seen) <= sw.bodies[i].pbest.fitness && Genuine(s, sw.bodies[i].pbest)
  }

  lemma {:induction false} BestOfIsOne(gbest: Point, pbests: seq<Point>)
    ensures BestOf(gbest, pbests) == gbest || BestOf(gbest, pbests) in pbests
    ensures BestOf(gbest, pbests).fitness <= gbest.fitness
    ensures forall p | p in pbests :: BestOf(gbest, pbests).fitness <= p.fitness
    decreases pbests
  {
    if pbests != [] {
      var last := |pbests| - 1;
      BestOfIsOne(gbest, pbests[..last]);
      assert pbests == pbests[..last] + [pbests[last]];
    }
  }

  // A lower bound of some values that is one of them is their least.
  lemma LeastIsUnique(values: seq<real>, v: real)
    requires v <= WORST && (v == WORST || v in values) && forall x | x in values :: v <= x
    ensures v == Least(values)
  {}

  /**
   After every iteration, the best fitness of the swarm is the least of all values evaluated so far, it
   belongs to the location it is stored with, and it has not grown.
   */
  lemma IterationFindsBest(s: Settings, sw: SwarmState, draws: seq<Draws>, seen: seq<real>)
    requires BestSoFar(s, sw, seen) && Drawn(s, draws, |sw.bodies|)
    ensures var r := Iteration(s, sw, draws);
      BestSoFar(s, r, seen + Fitnesses(r.bodies)) && r.gbest.fitness <= sw.gbest.fitness
  {
    var r := Iteration(s, sw, draws);
    ReduceFindsBest(s, sw.gbest, AllUpdated(s, sw, draws).bodies, seen);
  }

  // updateBest over particles that were all evaluated since `seen`.
  lemma ReduceFindsBest(s: Settings, gbest: Point, bodies: seq<Body>, seen: seq<real>)
    requires gbest.fitness == Least(seen) && Genuine(s, gbest) && |gbest.location| == s.dim
    requires forall i | 0 <= i < |bodies| ::
      var b := bodies[i];
      && Fits(s, b) && b.position.fitness == s.evaluate(b.position.location)
      && b.pbest.fitness <= b.position.fitness && Genuine(s, b.pbest)
      && (b.pbest == b.position || Least(seen) <= b.pbest.fitness)
    ensures var best := BestOf(gbest, Pbests(bodies));
      && best.fitness <= gbest.fitness
      && BestSoFar(s, SwarmState(best, bodies), seen + Fitnesses(bodies))
  {
    var pbests, fits := Pbests(bodies), Fitnesses(bodies);
    var best := BestOf(gbest, pbests);
    BestOfIsOne(gbest, pbests);
    forall v | v in seen + fits ensures best.fitness <= v {
      if v in fits {
        var i :| 0 <= i < |bodies| && fits[i] == v;
        assert pbests[i] in pbests;
      }
    }
    if best != gbest {
      var i :| 0 <= i < |bodies| && pbests[i] == best;
      assert best.fitness < gbest.fitness ==> best == bodies[i].position;
      assert fits[i] in seen + fits;
    }
    assert best.fitness == WORST || best.fitness in seen + fits;
    LeastIsUnique(seen + fits, best.fitness);
    forall i | 0 <= i < |bodies| ensures best.fitness <= bodies[i].pbest.fitness {
      assert pbests[i] in pbests;
    }
    assert |best.location| == s.dim;
  }

  // NewSwarm: the particles start where the draws put them and are evaluated once.
  ghost predicate IsNewParticle(s: Settings, b: Body) {
    exists start: Body :: Fits(s, start) && start.pbest.fitness == WORST && b == Evaluated(s, start)
  }

  /** The swarm starts with the least of its first evaluations. */
  lemma NewSwarmFindsBest(s: Settings, bodies: seq<Body>)
    requires forall i | 0 <= i < |bodies| :: IsNewParticle(s, bodies[i])
    ensures var gbest := Point(seq(s.dim, i => 0.0), WORST);
      BestSoFar(s, SwarmState(BestOf(gbest, Pbests(bodies)), bodies), Fitnesses(bodies))
  {
    var gbest := Point(seq(s.dim, i => 0.0), WORST);
    assert [] + Fitnesses(bodies) == Fitnesses(bodies);
    ReduceFindsBest(s, gbest, bodies, []);
  }

  // ---------- Any number of iterations ----------

  predicate AllDrawn(s: Settings, draws: seq<seq<Draws>>, n: nat) {
    forall k | 0 <= k < |draws| :: Drawn(s, draws[k], n)
  }

  // The swarm after these iterations, and all fitness values evaluated up to then.
  function Search(s: Settings, sw: SwarmState, seen: seq<real>, draws: seq<seq<Draws>>): (SwarmState, seq<real>)
    requires Shaped(s, sw) && AllDrawn(s, draws, |sw.bodies|)
    decreases draws
  {
    if draws == [] then (sw, seen)
    else
      var r := Iteration(s, sw, draws[0]);
      Search(s, r, seen + Fitnesses(r.bodies), draws[1..])
  }

  /** After any number of iterations, in one run or in several, the swarm knows the best of all it ever evaluated. */
  lemma {:induction false} SearchFindsBest(s: Settings, sw: SwarmState, seen: seq<real>, draws: seq<seq<Draws>>)
    requires BestSoFar(s, sw, seen) && AllDrawn(s, draws, |sw.bodies|)
    ensures var (r, all) := Search(s, sw, seen, draws);
      BestSoFar(s, r, all) && seen <= all && r.gbest.fitness == Least(all) <= sw.gbest.fitness
    decreases draws
  {
    if draws != [] {
      var r := Iteration(s, sw, draws[0]);
      IterationFindsBest(s, sw, draws[0], seen);
      SearchFindsBest(s, r, seen + Fitnesses(r.bodies), draws[1..]);
    }
  }
}
