/**
 The particles and the swarm of pso/position.go, pso/particle.go and pso/swarm.go, as objects that are
 changed in place. Fitness values and coordinates are real numbers, and the random draws are parameters.

 Every method is proved to do what a function on values says, and to keep the best positions apart from
 the position that is moved.
 */
module Swarm {

  datatype Point = Point(location: seq<real>, fitness: real)

  datatype Body = Body(position: Point, pbest: Point, velocity: seq<real>)

  // The objective function and the coefficients of SwarmSettings.
  datatype Settings = Settings(dim: nat, c1: real, c2: real, inertia: real, evaluate: seq<real> -> real, xLo: real, xHi: real)

  // The fitness of a position that was never evaluated.
  const WORST := 100000000000000000000.0

  // The two random draws of one coordinate.
  type Draws = seq<(real, real)>

  predicate Better(a: Point, b: Point) {
    a.fitness < b.fitness
  }

  function NewVelocity(s: Settings, b: Body, gbest: seq<real>, draws: Draws, i: nat): real
    requires i < |b.velocity| && i < |b.position.location| && i < |b.pbest.location| && i < |gbest| && i < |draws|
  {
    s.inertia * b.velocity[i]
    + s.c1 * draws[i].0 * (b.pbest.location[i] - b.position.location[i])
    + s.c2 * draws[i].1 * (gbest[i] - b.position.location[i])
  }

  predicate Fits(s: Settings, b: Body) {
    |b.velocity| == |b.position.location| == |b.pbest.location| == s.dim
  }

  function Moved(s: Settings, b: Body, gbest: seq<real>, draws: Draws): (r: Body)
    requires Fits(s, b) && |gbest| == |draws| == s.dim
    ensures Fits(s, r)
  {
    var velocity := seq(s.dim, i requires 0 <= i < s.dim => NewVelocity(s, b, gbest, draws, i));
    var location := seq(s.dim, i requires 0 <= i < s.dim => b.position.location[i] + velocity[i]);
    Body(b.position.(location := location), b.pbest, velocity)
  }

  function Evaluated(s: Settings, b: Body): (r: Body)
    ensures Fits(s, b) ==> Fits(s, r)
  {
    var position := b.position.(fitness := s.evaluate(b.position.location));
    Body(position, if Better(position, b.pbest) then position else b.pbest, b.velocity)
  }

  // ---------- The swarm on values ----------

  datatype SwarmState = SwarmState(gbest: Point, bodies: seq<Body>)

  predicate Shaped(s: Settings, sw: SwarmState) {
    |sw.gbest.location| == s.dim && forall i | 0 <= i < |sw.bodies| :: Fits(s, sw.bodies[i])
  }

  // What UpdateParticleActivity returns: it is sent the whole swarm and uses one particle of it and the best position.
  function UpdatedParticle(s: Settings, sw: SwarmState, i: nat, draws: Draws): (b: Body)
    requires Shaped(s, sw) && i < |sw.bodies| && |draws| == s.dim
    ensures Fits(s, b)
  {
    Evaluated(s, Moved(s, sw.bodies[i], sw.gbest.location, draws))
  }

  function Pbests(bodies: seq<Body>): seq<Point> {
    seq(|bodies|, i requires 0 <= i < |bodies| => bodies[i].pbest)
  }

  // The best of gbest and the particles' best positions; on a tie the earlier one stays.
  function BestOf(gbest: Point, pbests: seq<Point>): Point {
    if pbests == [] then gbest
    else
      var last := |pbests| - 1;
      var best := BestOf(gbest, pbests[..last]);
      if Better(pbests[last], best) then pbests[last] else best
  }

  lemma BestOfStep(gbest: Point, pbests: seq<Point>, i: nat)
    requires i < |pbests|
    ensures var best := BestOf(gbest, pbests[..i]);
      BestOf(gbest, pbests[..i + 1]) == if Better(pbests[i], best) then pbests[i] else best
  {
    assert pbests[..i + 1][..i] == pbests[..i];
  }

  // ---------- Objects ----------

  class Position {
    const location: array<real>
    var fitness: real

    function Value(): Point
      reads this, location
    {
      Point(location[..], fitness)
    }

    constructor (location: array<real>, fitness: real)
      ensures this.location == location && this.fitness == fitness
    {
      this.location := location;
      this.fitness := fitness;
    }

    // A copy shares nothing with the original.
    method Copy() returns (copy: Position)
      ensures fresh(copy) && fresh(copy.location) && copy.Value() == Value()
      ensures copy.location.Length == location.Length
    {
      var loc := new real[location.Length];
      var i := 0;
      while i < location.Length
        invariant 0 <= i <= location.Length && loc[..i] == location[..i]
      {
        loc[i] := location[i];
        i := i + 1;
      }
      copy := new Position(loc, fitness);
    }

    predicate IsBetterThan(other: Position)
      reads this, other
    {
      fitness < other.fitness
    }
  }

  class Particle {
    const position: Position
    var pbest: Position
    const velocity: array<real>

    // What a particle moves is not part of what it remembers.
    ghost predicate Valid(s: Settings)
      reads this
    {
      && position != pbest && position.location != pbest.location
      && velocity != position.location && velocity != pbest.location
      && velocity.Length == position.location.Length == pbest.location.Length == s.dim
    }

    // Every object of the particle that may change.
    ghost function Repr(): set<object>
      reads this
    {
      {this, position, position.location, pbest, pbest.location, velocity}
    }

    function Value(): Body
      reads this, position, position.location, pbest, pbest.location, velocity
    {
      Body(position.Value(), pbest.Value(), velocity[..])
    }

    constructor (position: Position, pbest: Position, velocity: array<real>)
      ensures this.position == position && this.pbest == pbest && this.velocity == velocity
    {
      this.position := position;
      this.pbest := pbest;
      this.velocity := velocity;
    }

    method UpdateLocation(s: Settings, gbest: Position, draws: Draws)
      requires Valid(s) && |draws| == gbest.location.Length == s.dim
      requires gbest.location != position.location && gbest.location != velocity
      modifies position.location, velocity
      ensures Valid(s) && Value() == Moved(s, old(Value()), old(gbest.location[..]), draws)
    {
      ghost var before, target := Value(), gbest.location[..];
      var i := 0;
      while i < s.dim
        invariant 0 <= i <= s.dim
        invariant forall k | 0 <= k < i :: velocity[k] == NewVelocity(s, before, target, draws, k)
        invariant forall k | 0 <= k < i :: position.location[k] == before.position.location[k] + velocity[k]
        invariant forall k | i <= k < s.dim :: velocity[k] == before.velocity[k]
        invariant forall k | i <= k < s.dim :: position.location[k] == before.position.location[k]
        invariant pbest.location[..] == before.pbest.location && gbest.location[..] == target
      {
        var rho1 := s.c1 * draws[i].0;
        var rho2 := s.c2 * draws[i].1;
        assert pbest.location[i] == before.pbest.location[i] && gbest.location[i] == target[i];
        var v := s.inertia * velocity[i]
               + rho1 * (pbest.location[i] - position.location[i])
               + rho2 * (gbest.location[i] - position.location[i]);
        assert v == NewVelocity(s, before, target, draws, i);
        velocity[i] := v;
        position.location[i] := position.location[i] + velocity[i];
        i := i + 1;
      }
    }

    // What the data converter does: an equal particle that shares nothing with this one.
    method Copy(s: Settings) returns (copy: Particle)
      requires Valid(s)
      ensures fresh(copy.Repr()) && copy.Valid(s) && copy.Value() == Value()
    {
      var pos := position.Copy();
      var best := pbest.Copy();
      var vel := new real[s.dim](i requires 0 <= i < s.dim reads velocity => velocity[i]);
      assert vel[..] == velocity[..];
      copy := new Particle(pos, best, vel);
    }

    method UpdateFitness(s: Settings)
      requires Valid(s)
      modifies this, position
      ensures Valid(s) && Value() == Evaluated(s, old(Value()))
      ensures pbest == old(pbest) || (fresh(pbest) && fresh(pbest.location))
    {
      position.fitness := s.evaluate(position.location[..]);
      if position.IsBetterThan(pbest) {
        pbest := position.Copy();
      }
    }
  }

  function FirstLocation(s: Settings, start: seq<real>): seq<real>
    requires |start| == s.dim
  {
    seq(s.dim, i requires 0 <= i < s.dim => s.xLo + (s.xHi - s.xLo) * start[i])
  }

  // The velocity that the draws give a new particle.
  function FirstVelocity(s: Settings, kicks: Draws): seq<real>
    requires |kicks| == s.dim
  {
    seq(s.dim, i requires 0 <= i < s.dim =>
      ((s.xLo + (s.xHi - s.xLo) * kicks[i].0) - (s.xLo + (s.xHi - s.xLo) * kicks[i].1)) / 2.0)
  }

  // A particle where the draws put it, with nothing remembered yet.
  method NewParticle(s: Settings, start: seq<real>, kicks: Draws) returns (p: Particle)
    requires |start| == |kicks| == s.dim
    ensures fresh(p) && fresh(p.position) && fresh(p.position.location) && fresh(p.pbest) && fresh(p.pbest.location)
    ensures fresh(p.velocity) && p.Valid(s)
    ensures p.Value().position.location == FirstLocation(s, start)
    ensures p.Value().pbest == Point(p.Value().position.location, WORST)
    ensures p.Value().velocity == FirstVelocity(s, kicks)
  {
    var location := new real[s.dim](i requires 0 <= i < s.dim => s.xLo + (s.xHi - s.xLo) * start[i]);
    var position := new Position(location, 0.0);
    var pbest := position.Copy();
    pbest.fitness := WORST;
    var velocity := new real[s.dim](i requires 0 <= i < s.dim =>
      ((s.xLo + (s.xHi - s.xLo) * kicks[i].0) - (s.xLo + (s.xHi - s.xLo) * kicks[i].1)) / 2.0);
    p := new Particle(position, pbest, velocity);
  }

  class Swarm {
    var gbest: Position
    const particles: array<Particle>

    // Every object that the value of the swarm depends on.
    ghost var Repr: set<object>

    ghost predicate Owned()
      reads this, Repr
    {
      && this in Repr && particles in Repr && gbest in Repr && gbest.location in Repr
      && forall i | 0 <= i < particles.Length :: particles[i] in Repr && particles[i].Repr() <= Repr
    }

    // No two particles share anything, and the best position shares nothing with any of them.
    ghost predicate Valid(s: Settings)
      reads this, Repr
    {
      && Owned()
      && gbest.location.Length == s.dim
      && (forall i | 0 <= i < particles.Length ::
            particles[i].Valid(s) && gbest !in particles[i].Repr() && gbest.location !in particles[i].Repr())
      && (forall i, j | 0 <= i < j < particles.Length :: particles[i].Repr() !! particles[j].Repr())
    }

    ghost function Value(): (v: SwarmState)
      requires Owned()
      reads this, Repr
      ensures |v.bodies| == particles.Length
      ensures forall i | 0 <= i < particles.Length :: v.bodies[i] == particles[i].Value()
    {
      SwarmState(gbest.Value(), seq(particles.Length, i requires Owned() && 0 <= i < particles.Length
        reads this, Repr => particles[i].Value()))
    }

    constructor (gbest: Position, particles: array<Particle>)
      ensures this.gbest == gbest && this.particles == particles
      ensures Repr == {this, particles, gbest, gbest.location}
    {
      this.gbest := gbest;
      this.particles := particles;
      Repr := {this, particles, gbest, gbest.location};
    }

    // UpdateParticleActivity, which changes the swarm that it was sent.
    method UpdateParticle(s: Settings, i: nat, draws: Draws) returns (p: Particle)
      requires Valid(s) && i < particles.Length && |draws| == s.dim
      modifies this`Repr, particles[i], particles[i].position, particles[i].position.location, particles[i].velocity
      ensures p == particles[i] && p.Valid(s) && gbest.Value() == old(gbest.Value())
      ensures fresh(p.Repr() - old(particles[i].Repr()))
      ensures p.Value() == UpdatedParticle(s, old(Value()), i, draws)
    {
      p := particles[i];
      p.UpdateLocation(s, gbest, draws);
      p.UpdateFitness(s);
      Repr := Repr + p.Repr();
    }

    // The best position is copied, so that it shares nothing with the particle that found it.
    method UpdateBest(s: Settings)
      requires Valid(s)
      modifies this`gbest, this`Repr
      ensures Valid(s) && old(Repr) <= Repr && fresh(Repr - old(Repr))
      ensures Value() == old(Value()).(gbest := BestOf(old(Value()).gbest, Pbests(old(Value()).bodies)))
    {
      ghost var first := Value();
      ghost var pbests := Pbests(first.bodies);
      var i := 0;
      while i < particles.Length
        invariant 0 <= i <= particles.Length
        invariant Valid(s) && old(Repr) <= Repr && fresh(Repr - old(Repr))
        invariant Value() == first.(gbest := BestOf(first.gbest, pbests[..i]))
      {
        BestOfStep(first.gbest, pbests, i);
        CompareWith(s, i);
        i := i + 1;
      }
      assert pbests[..i] == pbests;
    }

    method CompareWith(s: Settings, i: nat)
      requires Valid(s) && i < particles.Length
      modifies this`gbest, this`Repr
      ensures Valid(s) && old(Repr) <= Repr && fresh(Repr - old(Repr))
      ensures var pbest := old(Value()).bodies[i].pbest;
        Value() == old(Value()).(gbest := if Better(pbest, old(Value()).gbest) then pbest else old(Value()).gbest)
    {
      if particles[i].pbest.IsBetterThan(gbest) {
        var best := particles[i].pbest.Copy();
        TakeBest(s, best);
      }
    }

    method TakeBest(s: Settings, best: Position)
      requires Valid(s) && best !in Repr && best.location !in Repr && best.location.Length == s.dim
      modifies this`gbest, this`Repr
      ensures Valid(s) && Repr == old(Repr) + {best, best.location}
      ensures Value() == old(Value()).(gbest := best.Value())
    {
      gbest := best;
      Repr := Repr + {best, best.location};
      assert Value().bodies == old(Value()).bodies;
    }
  }
}
