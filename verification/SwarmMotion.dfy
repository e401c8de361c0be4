/**
 Where particles go: what the update of a position means for each coordinate, what a particle remembers, and
 which of several equally good positions becomes the best of the swarm.
 */
module SwarmMotion {
  import opened Wrappers
  import opened Swarm
  import opened SwarmSearch

  // How far coordinate i moves.
  function Displacement(s: Settings, b: Body, gbest: seq<real>, draws: Draws, i: nat): real
    requires Fits(s, b) && |gbest| == |draws| == s.dim && i < s.dim
  {
    Moved(s, b, gbest, draws).position.location[i] - b.position.location[i]
  }

  // Nothing pulls this particle back, and it has no momentum.
  predicate Pulled(s: Settings, b: Body, draws: Draws, i: nat)
    requires Fits(s, b) && |draws| == s.dim && i < s.dim
  {
    && (s.inertia == 0.0 || b.velocity[i] == 0.0)
    && s.c1 >= 0.0 && s.c2 >= 0.0 && draws[i].0 >= 0.0 && draws[i].1 >= 0.0
  }

  lemma ProductSign(a: real, b: real)
    ensures a >= 0.0 && b >= 0.0 ==> a * b >= 0.0
    ensures a >= 0.0 && b <= 0.0 ==> a * b <= 0.0
    ensures a > 0.0 && b > 0.0 ==> a * b > 0.0
    ensures a > 0.0 && b < 0.0 ==> a * b < 0.0
    ensures a == 0.0 || b == 0.0 ==> a * b == 0.0
  {}

  /**
   Without momentum, each coordinate moves towards the best positions: up if both lie above it, down if both
   lie below, strictly if one of them does and pulls; and not at all when the particle is at both.
   */
  lemma MovesTowardsBest(s: Settings, b: Body, gbest: seq<real>, draws: Draws, i: nat)
    requires Fits(s, b) && |gbest| == |draws| == s.dim && i < s.dim && Pulled(s, b, draws, i)
    ensures var x, p, g, d := b.position.location[i], b.pbest.location[i], gbest[i], Displacement(s, b, gbest, draws, i);
      && (p >= x && g >= x ==> d >= 0.0)
      && (p <= x && g <= x ==> d <= 0.0)
      && (p == x && g == x ==> d == 0.0)
      && (p >= x && g > x && s.c2 * draws[i].1 > 0.0 ==> d > 0.0)
      && (p > x && g >= x && s.c1 * draws[i].0 > 0.0 ==> d > 0.0)
      && (p <= x && g < x && s.c2 * draws[i].1 > 0.0 ==> d < 0.0)
      && (p < x && g <= x && s.c1 * draws[i].0 > 0.0 ==> d < 0.0)
  {
    var x, p, g := b.position.location[i], b.pbest.location[i], gbest[i];
    ProductSign(s.c1, draws[i].0);
    ProductSign(s.c2, draws[i].1);
    ProductSign(s.inertia, b.velocity[i]);
    ProductSign(s.c1 * draws[i].0, p - x);
    ProductSign(s.c2 * draws[i].1, g - x);
    PullsNamed(s, b, gbest, draws, i, s.c1 * draws[i].0 * (p - x), s.c2 * draws[i].1 * (g - x));
  }

  function Min3(a: real, b: real, c: real): real {
    if a <= b && a <= c then a else if b <= c then b else c
  }

  function Max3(a: real, b: real, c: real): real {
    if a >= b && a >= c then a else if b >= c then b else c
  }

  /** If moreover the pulls add up to at most one, the coordinate ends between its old place and the best positions. */
  lemma StaysBetween(s: Settings, b: Body, gbest: seq<real>, draws: Draws, i: nat)
    requires Fits(s, b) && |gbest| == |draws| == s.dim && i < s.dim && Pulled(s, b, draws, i)
    requires s.c1 * draws[i].0 + s.c2 * draws[i].1 <= 1.0
    ensures var x, p, g := b.position.location[i], b.pbest.location[i], gbest[i];
      Min3(x, p, g) <= Moved(s, b, gbest, draws).position.location[i] <= Max3(x, p, g)
  {
    var x, p, g, a1, a2 := b.position.location[i], b.pbest.location[i], gbest[i], s.c1 * draws[i].0, s.c2 * draws[i].1;
    ProductSign(s.c1, draws[i].0);
    ProductSign(s.c2, draws[i].1);
    ProductSign(s.inertia, b.velocity[i]);
    PullsNamed(s, b, gbest, draws, i, a1 * (p - x), a2 * (g - x));
    Average(x, p, g, a1, a2, Max3(x, p, g));
    Average(-x, -p, -g, a1, a2, -Min3(x, p, g));
    assert a1 * (-p - -x) == -(a1 * (p - x)) && a2 * (-g - -x) == -(a2 * (g - x));
  }

  lemma Average(x: real, p: real, g: real, a1: real, a2: real, top: real)
    requires a1 >= 0.0 && a2 >= 0.0 && a1 + a2 <= 1.0 && x <= top && p <= top && g <= top
    ensures x + a1 * (p - x) + a2 * (g - x) <= top
  {
    ProductSign(a1, top - p);
    ProductSign(a2, top - g);
    ProductSign(1.0 - a1 - a2, top - x);
    assert a1 * (top - p) == a1 * (top - x) - a1 * (p - x);
    assert a2 * (top - g) == a2 * (top - x) - a2 * (g - x);
    assert (1.0 - a1 - a2) * (top - x) == (top - x) - a1 * (top - x) - a2 * (top - x);
  }

  /**
   The first coefficient and draw pull to the particle's own best position, the second ones to that of the swarm:
   a pull of one, alone, lands on it, and without its pull neither matters. Without pulls only momentum is left.
   */
  lemma EachPullIsItsOwn(s: Settings, b: Body, gbest: seq<real>, draws: Draws, i: nat)
    requires Fits(s, b) && |gbest| == |draws| == s.dim && i < s.dim
    ensures var x, p, g, v, d :=
        b.position.location[i], b.pbest.location[i], gbest[i], b.velocity[i], Displacement(s, b, gbest, draws, i);
      var a1, a2 := s.c1 * draws[i].0, s.c2 * draws[i].1;
      && (a1 == 0.0 && a2 == 0.0 ==> d == s.inertia * v)
      && (s.inertia == 0.0 && a1 == 1.0 && a2 == 0.0 ==> x + d == p)
      && (s.inertia == 0.0 && a1 == 0.0 && a2 == 1.0 ==> x + d == g)
  {
    var x, p, g := b.position.location[i], b.pbest.location[i], gbest[i];
    ProductSign(s.c1 * draws[i].0, p - x);
    ProductSign(s.c2 * draws[i].1, g - x);
    ProductSign(s.inertia, b.velocity[i]);
    PullsNamed(s, b, gbest, draws, i, s.c1 * draws[i].0 * (p - x), s.c2 * draws[i].1 * (g - x));
  }

  // A displacement, with its two pulls named.
  lemma PullsNamed(s: Settings, b: Body, gbest: seq<real>, draws: Draws, i: nat, own: real, common: real)
    requires Fits(s, b) && |gbest| == |draws| == s.dim && i < s.dim
    requires own == s.c1 * draws[i].0 * (b.pbest.location[i] - b.position.location[i])
    requires common == s.c2 * draws[i].1 * (gbest[i] - b.position.location[i])
    ensures Displacement(s, b, gbest, draws, i) == s.inertia * b.velocity[i] + own + common
  {}

  lemma UnpulledGbestDoesNotMatter(s: Settings, b: Body, gbest: seq<real>, other: seq<real>, draws: Draws, i: nat)
    requires Fits(s, b) && |gbest| == |other| == |draws| == s.dim && i < s.dim
    requires s.c2 * draws[i].1 == 0.0
    ensures Displacement(s, b, gbest, draws, i) == Displacement(s, b, other, draws, i)
  {
    var x := b.position.location[i];
    var own := s.c1 * draws[i].0 * (b.pbest.location[i] - x);
    ProductSign(s.c2 * draws[i].1, gbest[i] - x);
    ProductSign(s.c2 * draws[i].1, other[i] - x);
    PullsNamed(s, b, gbest, draws, i, own, 0.0);
    PullsNamed(s, b, other, draws, i, own, 0.0);
  }

  lemma UnpulledPbestDoesNotMatter(s: Settings, b: Body, pbest: Point, gbest: seq<real>, draws: Draws, i: nat)
    requires Fits(s, b) && |pbest.location| == |gbest| == |draws| == s.dim && i < s.dim
    requires s.c1 * draws[i].0 == 0.0
    ensures Displacement(s, b, gbest, draws, i) == Displacement(s, b.(pbest := pbest), gbest, draws, i)
  {
    var x := b.position.location[i];
    var common := s.c2 * draws[i].1 * (gbest[i] - x);
    ProductSign(s.c1 * draws[i].0, b.pbest.location[i] - x);
    ProductSign(s.c1 * draws[i].0, pbest.location[i] - x);
    PullsNamed(s, b, gbest, draws, i, 0.0, common);
    PullsNamed(s, b.(pbest := pbest), gbest, draws, i, 0.0, common);
  }

  /** The new velocity is the way that was gone, and what the particle remembers is not touched by the move. */
  lemma VelocityIsDisplacement(s: Settings, b: Body, gbest: seq<real>, draws: Draws, i: nat)
    requires Fits(s, b) && |gbest| == |draws| == s.dim && i < s.dim
    ensures var r := Moved(s, b, gbest, draws);
      r.velocity[i] == Displacement(s, b, gbest, draws, i) && r.pbest == b.pbest && r.position.fitness == b.position.fitness
  {}

  /**
   A new particle lies within the bounds, at the lower one for a draw of zero and at the upper one for a draw of
   one; its velocity is at most half the width, and points the way of the larger draw.
   */
  lemma NewParticleIsInBounds(s: Settings, start: seq<real>, kicks: Draws, i: nat)
    requires |start| == |kicks| == s.dim && i < s.dim && s.xLo <= s.xHi
    requires 0.0 <= start[i] <= 1.0 && 0.0 <= kicks[i].0 <= 1.0 && 0.0 <= kicks[i].1 <= 1.0
    ensures var x, v, width := FirstLocation(s, start)[i], FirstVelocity(s, kicks)[i], s.xHi - s.xLo;
      && s.xLo <= x <= s.xHi && -width <= 2.0 * v <= width
      && (start[i] == 0.0 ==> x == s.xLo) && (start[i] == 1.0 ==> x == s.xHi)
      && (kicks[i].0 >= kicks[i].1 ==> v >= 0.0) && (kicks[i].0 <= kicks[i].1 ==> v <= 0.0)
      && (kicks[i] == (1.0, 0.0) ==> 2.0 * v == width)
  {
    var width, difference := s.xHi - s.xLo, kicks[i].0 - kicks[i].1;
    ProductSign(width, start[i]);
    ProductSign(width, 1.0 - start[i]);
    assert width * (1.0 - start[i]) == width - width * start[i];
    ProductSign(width, difference);
    ProductSign(width, 1.0 - difference);
    ProductSign(width, 1.0 + difference);
    assert width * difference == width * kicks[i].0 - width * kicks[i].1;
    assert width * (1.0 - difference) == width - width * difference;
    assert width * (1.0 + difference) == width + width * difference;
  }

  // ---------- What a particle remembers ----------

  // The fitness values that particle i gets in these iterations.
  function OwnFitnesses(s: Settings, sw: SwarmState, draws: seq<seq<Draws>>, i: nat): seq<real>
    requires Shaped(s, sw) && AllDrawn(s, draws, |sw.bodies|) && i < |sw.bodies|
    decreases draws
  {
    if draws == [] then []
    else
      var r := Iteration(s, sw, draws[0]);
      [s.evaluate(r.bodies[i].position.location)] + OwnFitnesses(s, r, draws[1..], i)
  }

  // The best of `values`, at the location that has it.
  predicate Remembers(s: Settings, b: Body, values: seq<real>) {
    b.pbest.fitness == Least(values) && Genuine(s, b.pbest)
  }

  lemma LeastOfOneMore(values: seq<real>, v: real)
    ensures Least(values + [v]) == if v < Least(values) then v else Least(values)
  {
    assert (values + [v])[..|values|] == values;
  }

  lemma EvaluationRemembers(s: Settings, b: Body, values: seq<real>)
    requires Remembers(s, b, values)
    ensures var v := s.evaluate(b.position.location);
      && Remembers(s, Evaluated(s, b), values + [v])
      && Evaluated(s, b).position == Point(b.position.location, v)
      && (v >= b.pbest.fitness ==> Evaluated(s, b).pbest == b.pbest)
  {
    LeastOfOneMore(values, s.evaluate(b.position.location));
  }

  /**
   After any number of iterations every particle remembers the best of all values that it was itself given, at
   the location where it was given it.
   */
  lemma {:induction false} ParticlesRememberBest(s: Settings, sw: SwarmState, seen: seq<real>, draws: seq<seq<Draws>>, i: nat, values: seq<real>)
    requires Shaped(s, sw) && AllDrawn(s, draws, |sw.bodies|) && i < |sw.bodies| && Remembers(s, sw.bodies[i], values)
    ensures var r := Search(s, sw, seen, draws).0;
      i < |r.bodies| && Remembers(s, r.bodies[i], values + OwnFitnesses(s, sw, draws, i))
    decreases draws
  {
    if draws == [] {
      assert values + [] == values;
    } else {
      var r := Iteration(s, sw, draws[0]);
      var v := s.evaluate(r.bodies[i].position.location);
      IterationRemembers(s, sw, draws[0], i, values);
      ParticlesRememberBest(s, r, seen + Fitnesses(r.bodies), draws[1..], i, values + [v]);
      Reassociate(values, v, OwnFitnesses(s, r, draws[1..], i));
    }
  }

  lemma Reassociate(values: seq<real>, v: real, rest: seq<real>)
    ensures values + [v] + rest == values + ([v] + rest)
  {}

  lemma IterationRemembers(s: Settings, sw: SwarmState, draws: seq<Draws>, i: nat, values: seq<real>)
    requires Shaped(s, sw) && Drawn(s, draws, |sw.bodies|) && i < |sw.bodies| && Remembers(s, sw.bodies[i], values)
    ensures var b := Iteration(s, sw, draws).bodies[i];
      Remembers(s, b, values + [s.evaluate(b.position.location)])
  {
    var moved := Moved(s, sw.bodies[i], sw.gbest.location, draws[i]);
    EvaluationRemembers(s, moved, values);
    assert Iteration(s, sw, draws).bodies[i] == Evaluated(s, moved);
  }

  // ---------- Ties ----------

  predicate IsFirstBest(pbests: seq<Point>, i: nat)
    requires i < |pbests|
  {
    && (forall j | 0 <= j < |pbests| :: pbests[i].fitness <= pbests[j].fitness)
    && (forall j | 0 <= j < i :: pbests[i].fitness < pbests[j].fitness)
  }

  /**
   The best of the swarm changes only for something strictly better, and then to the first of the best
   particles.
   */
  lemma {:induction false} BestIsFirst(gbest: Point, pbests: seq<Point>) returns (i: nat)
    ensures i <= |pbests|
    ensures i == |pbests| ==> BestOf(gbest, pbests) == gbest && forall j | 0 <= j < |pbests| :: gbest.fitness <= pbests[j].fitness
    ensures i < |pbests| ==>
      BestOf(gbest, pbests) == pbests[i] && pbests[i].fitness < gbest.fitness && IsFirstBest(pbests, i)
    decreases pbests
  {
    if pbests == [] {
      return 0;
    }
    var last := |pbests| - 1;
    i := BestIsFirst(gbest, pbests[..last]);
    var best := if i == last then gbest else pbests[i];
    assert BestOf(gbest, pbests[..last]) == best;
    if Better(pbests[last], best) {
      i := last;
    } else if i == last {
      i := |pbests|;
    }
  }

  // ---------- Every iteration can be completed ----------

  function Left(jobs: seq<Job>): nat {
    if jobs == [] then 0
    else Left(jobs[..|jobs| - 1]) + match jobs[|jobs| - 1] case Ready => 2 case Running(_) => 1 case Complete => 0
  }

  lemma {:induction false} LeftOfUpdate(jobs: seq<Job>, i: nat, job: Job)
    requires i < |jobs| && (jobs[i].Ready? ==> job.Running?) && (jobs[i].Running? ==> job.Complete?) && !jobs[i].Complete?
    ensures Left(jobs[i := job]) == Left(jobs) - 1
    decreases |jobs|
  {
    var last := |jobs| - 1;
    if i == last {
      assert jobs[i := job][..last] == jobs[..last];
    } else {
      assert jobs[i := job][..last] == jobs[..last][i := job];
      LeftOfUpdate(jobs[..last], i, job);
    }
  }

  lemma {:induction false} CanComplete(s: Settings, draws: seq<Draws>, r: Round) returns (moves: seq<Move>)
    requires Sent(s, draws, r)
    ensures var end := Play(s, draws, r, moves); end.Some? && AllComplete(end.value)
    decreases Left(r.jobs)
  {
    moves := [];
    if i :| 0 <= i < |r.jobs| && !r.jobs[i].Complete? {
      var m := if r.jobs[i].Ready? then Launch(i) else Land(i);
      var r1 := Step(s, draws, r, m).value;
      LeftOfUpdate(r.jobs, i, r1.jobs[i]);
      var rest := CanComplete(s, draws, r1);
      moves := [m] + rest;
      assert moves[1..] == rest;
    }
  }

  /** However an iteration began, all its activities can complete. */
  lemma EveryRoundCanComplete(s: Settings, draws: seq<Draws>, first: SwarmState, moves: seq<Move>)
    requires Shaped(s, first) && Drawn(s, draws, |first.bodies|) && Play(s, draws, Idle(first), moves).Some?
    ensures exists rest :: var end := Play(s, draws, Idle(first), moves + rest); end.Some? && AllComplete(end.value)
  {
    PlayKeepsSent(s, draws, Idle(first), moves);
    var rest := CanComplete(s, draws, Play(s, draws, Idle(first), moves).value);
    PlayConcat(s, draws, Idle(first), moves, rest);
  }

  lemma {:induction false} PlayKeepsSent(s: Settings, draws: seq<Draws>, r: Round, moves: seq<Move>)
    requires Sent(s, draws, r) && Play(s, draws, r, moves).Some?
    ensures Sent(s, draws, Play(s, draws, r, moves).value)
    decreases moves
  {
    if moves != [] {
      PlayKeepsSent(s, draws, Step(s, draws, r, moves[0]).value, moves[1..]);
    }
  }

  lemma {:induction false} PlayConcat(s: Settings, draws: seq<Draws>, r: Round, a: seq<Move>, b: seq<Move>)
    requires Sent(s, draws, r) && Play(s, draws, r, a).Some?
    ensures Sent(s, draws, Play(s, draws, r, a).value)
    ensures Play(s, draws, r, a + b) == Play(s, draws, Play(s, draws, r, a).value, b)
    decreases a
  {
    PlayKeepsSent(s, draws, r, a);
    if a == [] {
      assert a + b == b;
    } else {
      assert (a + b)[1..] == a[1..] + b;
      PlayConcat(s, draws, Step(s, draws, r, a[0]).value, a[1..], b);
    }
  }
}
