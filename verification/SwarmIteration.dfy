/**
 The iterations of pso/swarm.go on objects: activities work on copies of the swarm, their results replace
 particles in the order in which they arrive, and updateBest follows. The methods are proved to do what the
 functions of SwarmSearch say, and to keep the best positions apart from the positions that are moved.
 */
module SwarmIteration {
  import opened Wrappers
  import opened Swarm
  import opened SwarmSearch

  // Particles that share nothing with each other, all within `made`.
  ghost predicate Apart(s: Settings, ps: seq<Particle>, made: set<object>)
    reads ps
  {
    && (forall i | 0 <= i < |ps| :: ps[i].Valid(s) && ps[i].Repr() <= made)
    && (forall i, j | 0 <= i < j < |ps| :: ps[i].Repr() !! ps[j].Repr())
  }

  // A swarm of these particles.
  method Assemble(s: Settings, gbest: Position, ps: seq<Particle>, ghost made: set<object>) returns (swarm: Swarm)
    requires Apart(s, ps, made) && gbest.location.Length == s.dim
    requires gbest !in made && gbest.location !in made
    ensures fresh(swarm) && fresh(swarm.particles) && swarm.particles[..] == ps && swarm.gbest == gbest
    ensures swarm.Repr == {swarm, swarm.particles, gbest, gbest.location} + made && swarm.Valid(s)
  {
    var particles := new Particle[|ps|](i requires 0 <= i < |ps| => ps[i]);
    swarm := new Swarm(gbest, particles);
    swarm.Repr := swarm.Repr + made;
    assert forall i | 0 <= i < |ps| :: particles[i] == ps[i];
    assert forall i | 0 <= i < |ps| :: particles[i] in particles[i].Repr();
  }

  method CopyParticles(s: Settings, swarm: Swarm) returns (ps: seq<Particle>, ghost made: set<object>)
    requires swarm.Valid(s)
    ensures |ps| == swarm.particles.Length && Apart(s, ps, made) && fresh(made)
    ensures forall k | 0 <= k < |ps| :: ps[k].Value() == swarm.Value().bodies[k]
  {
    ps, made := [], {};
    ghost var bodies := swarm.Value().bodies;
    for i := 0 to swarm.particles.Length
      invariant |ps| == i && Apart(s, ps, made) && fresh(made)
      invariant forall k | 0 <= k < i :: ps[k].Value() == bodies[k]
    {
      assert swarm.particles[i].Value() == bodies[i];
      var p := swarm.particles[i].Copy(s);
      ps := ps + [p];
      made := made + p.Repr();
    }
  }

  // What the data converter makes of a swarm: equal to it, and nothing shared.
  method Copy(s: Settings, swarm: Swarm) returns (copy: Swarm)
    requires swarm.Valid(s)
    ensures fresh(copy.Repr) && copy.Valid(s) && copy.Value() == swarm.Value()
  {
    var ps;
    ghost var made;
    ps, made := CopyParticles(s, swarm);
    var gbest := swarm.gbest.Copy();
    copy := Assemble(s, gbest, ps, made);
    assert copy.Value().bodies == swarm.Value().bodies;
  }

  lemma ValidIsShaped(s: Settings, swarm: Swarm)
    requires swarm.Valid(s)
    ensures Shaped(s, swarm.Value())
  {}

  // UpdateParticleActivity, called through the data converter: the caller's swarm is not touched.
  method UpdateOnCopy(s: Settings, swarm: Swarm, i: nat, draws: Draws, ghost value: SwarmState) returns (p: Particle)
    requires swarm.Valid(s) && swarm.Value() == value && i < swarm.particles.Length && |draws| == s.dim
    ensures Shaped(s, value)
    ensures fresh(p.Repr()) && p.Valid(s) && p.Value() == UpdatedParticle(s, value, i, draws)
  {
    ValidIsShaped(s, swarm);
    var copy := Copy(s, swarm);
    assert fresh(copy.particles[i].Repr());
    p := copy.UpdateParticle(s, i, draws);
  }

  // The result of an activity replaces its particle.
  method Replace(s: Settings, swarm: Swarm, i: nat, p: Particle)
    requires swarm.Valid(s) && i < swarm.particles.Length && p.Valid(s) && p.Repr() !! swarm.Repr
    modifies swarm`Repr, swarm.particles
    ensures swarm.Valid(s) && swarm.gbest == old(swarm.gbest) && swarm.Repr == old(swarm.Repr) + p.Repr()
    ensures swarm.Value() == old(swarm.Value()).(bodies := old(swarm.Value().bodies)[i := p.Value()])
  {
    swarm.particles[i] := p;
    swarm.Repr := swarm.Repr + p.Repr();
    assert p in p.Repr();
    assert swarm.Value().bodies == old(swarm.Value().bodies)[i := p.Value()];
  }

  // What the coroutine of one particle is doing; an activity's result is known to it only.
  datatype Coroutine = Resting | Flying(p: Particle) | Landed

  // The objects are where round r is; `air` holds what belongs to results that have not been received.
  ghost predicate Matches(s: Settings, swarm: Swarm, jobs: seq<Coroutine>, r: Round, air: set<object>)
    reads swarm, swarm.Repr, air
  {
    && swarm.Valid(s) && swarm.Value() == r.swarm && air !! swarm.Repr
    && |jobs| == |r.jobs| == swarm.particles.Length
    && (forall i | 0 <= i < |jobs| ::
          match jobs[i]
          case Resting => r.jobs[i].Ready?
          case Flying(p) => p in air && p.Repr() <= air && p.Valid(s) && r.jobs[i] == Running(p.Value())
          case Landed => r.jobs[i].Complete?)
    && (forall i, j | 0 <= i < j < |jobs| && jobs[i].Flying? && jobs[j].Flying? :: jobs[i].p.Repr() !! jobs[j].p.Repr())
  }

  method LaunchOne(s: Settings, swarm: Swarm, draws: seq<Draws>, jobs: seq<Coroutine>, i: nat, ghost r: Round, ghost air: set<object>)
    returns (next: seq<Coroutine>, ghost air1: set<object>)
    requires Matches(s, swarm, jobs, r, air) && Sent(s, draws, r) && i < |jobs| && jobs[i].Resting?
    ensures Step(s, draws, r, Launch(i)).Some? && Matches(s, swarm, next, Step(s, draws, r, Launch(i)).value, air1)
    ensures air <= air1 && fresh(air1 - air)
  {
    var p := UpdateOnCopy(s, swarm, i, draws[i], r.swarm);
    next := jobs[i := Flying(p)];
    air1 := air + p.Repr();
  }

  method LandOne(s: Settings, swarm: Swarm, draws: seq<Draws>, jobs: seq<Coroutine>, i: nat, ghost r: Round, ghost air: set<object>)
    returns (next: seq<Coroutine>, ghost air1: set<object>)
    requires Matches(s, swarm, jobs, r, air) && Sent(s, draws, r) && i < |jobs| && jobs[i].Flying?
    modifies swarm`Repr, swarm.particles
    ensures Step(s, draws, r, Move.Land(i)).Some? && Matches(s, swarm, next, Step(s, draws, r, Move.Land(i)).value, air1)
    ensures swarm.gbest == old(swarm.gbest) && air1 <= air && swarm.Repr <= old(swarm.Repr) + air && old(swarm.Repr) <= swarm.Repr
  {
    var p := jobs[i].p;
    Replace(s, swarm, i, p);
    next := jobs[i := Landed];
    air1 := air - p.Repr();
  }

  method MoveOne(s: Settings, swarm: Swarm, draws: seq<Draws>, jobs: seq<Coroutine>, m: Move, ghost r: Round, ghost air: set<object>)
    returns (moved: bool, next: seq<Coroutine>, ghost air1: set<object>)
    requires Matches(s, swarm, jobs, r, air) && Sent(s, draws, r)
    modifies swarm`Repr, swarm.particles
    ensures moved <==> Step(s, draws, r, m).Some?
    ensures moved ==> Matches(s, swarm, next, Step(s, draws, r, m).value, air1) && Sent(s, draws, Step(s, draws, r, m).value)
    ensures swarm.Valid(s) && swarm.gbest == old(swarm.gbest) && fresh(air1 - air)
    ensures old(swarm.Repr) <= swarm.Repr <= old(swarm.Repr) + air
  {
    moved, next, air1 := false, jobs, air;
    if m.i < |jobs| {
      if m.Launch? && jobs[m.i].Resting? {
        next, air1 := LaunchOne(s, swarm, draws, jobs, m.i, r, air);
        moved := true;
      } else if m.Land? && jobs[m.i].Flying? {
        next, air1 := LandOne(s, swarm, draws, jobs, m.i, r, air);
        moved := true;
      }
    }
  }

  /**
   Carries out the moves of a schedule on the objects; `ok` says that all of them were enabled, `complete`
   that every activity has completed.
   */
  method RunActivities(s: Settings, swarm: Swarm, draws: seq<Draws>, moves: seq<Move>) returns (ok: bool, complete: bool)
    requires swarm.Valid(s) && Drawn(s, draws, swarm.particles.Length)
    modifies swarm`Repr, swarm.particles
    ensures swarm.Valid(s) && swarm.gbest == old(swarm.gbest)
    ensures old(swarm.Repr) <= swarm.Repr && fresh(swarm.Repr - old(swarm.Repr))
    ensures Sent(s, draws, Idle(old(swarm.Value())))
    ensures var end := Play(s, draws, Idle(old(swarm.Value())), moves);
      && (ok <==> end.Some?)
      && (ok ==> swarm.Value() == end.value.swarm && (complete <==> AllComplete(end.value)))
  {
    ValidIsShaped(s, swarm);
    ghost var r, air: set<object> := Idle(swarm.Value()), {};
    ghost var first := r;
    var jobs := seq(swarm.particles.Length, i => Resting);
    var k := 0;
    while k < |moves|
      invariant 0 <= k <= |moves| && Matches(s, swarm, jobs, r, air) && Sent(s, draws, r)
      invariant swarm.gbest == old(swarm.gbest) && fresh(air)
      invariant old(swarm.Repr) <= swarm.Repr && fresh(swarm.Repr - old(swarm.Repr))
      invariant Play(s, draws, r, moves[k..]) == Play(s, draws, first, moves)
    {
      var moved;
      assert moves[k..][1..] == moves[k + 1..];
      moved, jobs, air := MoveOne(s, swarm, draws, jobs, moves[k], r, air);
      if !moved {
        return false, false;
      }
      r := Step(s, draws, r, moves[k]).value;
      k := k + 1;
    }
    ok, complete := true, forall i | 0 <= i < |jobs| :: jobs[i].Landed?;
  }

  /**
   One iteration of Swarm.Run: the activities in any order, and when all have completed, updateBest. It keeps
   the swarm free of sharing and does what SwarmSearch.Iteration does.
   */
  method Iterate(s: Settings, swarm: Swarm, draws: seq<Draws>, moves: seq<Move>) returns (complete: bool)
    requires swarm.Valid(s) && Drawn(s, draws, swarm.particles.Length)
    modifies swarm`gbest, swarm`Repr, swarm.particles
    ensures swarm.Valid(s)
    ensures Sent(s, draws, Idle(old(swarm.Value())))
    ensures complete <==>
      var end := Play(s, draws, Idle(old(swarm.Value())), moves); end.Some? && AllComplete(end.value)
    ensures complete ==> swarm.Value() == Iteration(s, old(swarm.Value()), draws)
  {
    ghost var first := swarm.Value();
    var ok, all := RunActivities(s, swarm, draws, moves);
    complete := ok && all;
    if complete {
      OrderDoesNotMatter(s, draws, first, moves);
      swarm.UpdateBest(s);
    }
  }

  /** InitParticleActivity: a new particle that has been evaluated once. */
  method InitParticle(s: Settings, start: seq<real>, kicks: Draws) returns (p: Particle)
    requires |start| == |kicks| == s.dim
    ensures fresh(p.Repr()) && p.Valid(s) && IsNewParticle(s, p.Value())
  {
    p := NewParticle(s, start, kicks);
    ghost var before := p.Value();
    p.UpdateFitness(s);
    assert Fits(s, before) && before.pbest.fitness == WORST && p.Value() == Evaluated(s, before);
  }

  method NewParticles(s: Settings, starts: seq<(seq<real>, Draws)>)
    returns (ps: seq<Particle>, ghost made: set<object>, ghost bodies: seq<Body>)
    requires forall i | 0 <= i < |starts| :: |starts[i].0| == |starts[i].1| == s.dim
    ensures |ps| == |bodies| == |starts| && Apart(s, ps, made) && fresh(made)
    ensures forall k | 0 <= k < |ps| :: ps[k].Value() == bodies[k] && IsNewParticle(s, bodies[k])
  {
    ps, made, bodies := [], {}, [];
    for i := 0 to |starts|
      invariant |ps| == |bodies| == i && Apart(s, ps, made) && fresh(made)
      invariant forall k | 0 <= k < i :: ps[k].Value() == bodies[k] && IsNewParticle(s, bodies[k])
    {
      var p := InitParticle(s, starts[i].0, starts[i].1);
      ps := ps + [p];
      made := made + p.Repr();
      bodies := bodies + [p.Value()];
    }
  }

  /** NewSwarm: nothing is shared, and the best position is the least of the first evaluations. */
  method NewSwarm(s: Settings, starts: seq<(seq<real>, Draws)>) returns (swarm: Swarm)
    requires forall i | 0 <= i < |starts| :: |starts[i].0| == |starts[i].1| == s.dim
    ensures swarm.Valid(s) && swarm.particles.Length == |starts|
    ensures BestSoFar(s, swarm.Value(), Fitnesses(swarm.Value().bodies))
  {
    ghost var made, bodies;
    var ps;
    ps, made, bodies := NewParticles(s, starts);
    var location := new real[s.dim](_ => 0.0);
    var gbest := new Position(location, WORST);
    swarm := Assemble(s, gbest, ps, made);
    assert swarm.Value().bodies == bodies;
    assert swarm.Value().gbest == Point(seq(s.dim, i => 0.0), WORST);
    NewSwarmFindsBest(s, bodies);
    swarm.UpdateBest(s);
  }
}
