/**
 The lock server never hangs: whatever its clients do, it has something to do by itself as long as it runs, it
 passes over clients that have closed, and it gets through its queue to its end.
 */
module MutexProgress {
  import opened Wrappers
  import opened Mutex
  import opened MutexService

  // The moves that the server makes by itself.
  predicate ServerMove(m: Move) {
    m.Take? || m.Deliver? || m.Release? || m.Timeout? || m.Close?
  }

  ghost predicate OnlyServerMoves(moves: seq<Move>) {
    forall i | 0 <= i < |moves| :: ServerMove(moves[i])
  }

  // What the server can do next without the help of a client.
  function NextMove(s: Server): Move {
    match s.phase
    case Polling => if s.queue == [] then Close else Take
    case Delivering(_) => Deliver
    case Held(_) => Timeout
  }

  /** A server that is running always has a move of its own, whatever its clients have done. */
  lemma NeverHangs(w: World)
    requires w.server.open
    ensures ServerMove(NextMove(w.server)) && Step(w, NextMove(w.server)).Some?
  {}

  /**
   A request whose client has closed is passed over: the server goes on to its queue, which is unchanged like
   all clients and signals, and says that the request could not be delivered.
   */
  lemma ClosedIsPassedOver(w: World, c: ClientId)
    requires w.server.open && w.server.phase == Delivering(c) && ClientOf(w, c).phase.Closed?
    ensures var r := Step(w, Deliver);
      && r.Some? && r.value.server.open && r.value.server.phase == Polling && r.value.server.queue == w.server.queue
      && r.value.server.handled == w.server.handled + [Undeliverable(c)]
      && r.value.clients == w.clients && r.value.inFlight == w.inFlight
      && r.value.early == w.early && r.value.stale == w.stale
  {}

  /** A request whose client has not closed is granted: the client has the signal and the server waits for it. */
  lemma LiveIsGranted(w: World, c: ClientId)
    requires w.server.open && w.server.phase == Delivering(c) && !ClientOf(w, c).phase.Closed?
    ensures var r := Step(w, Deliver);
      && r.Some? && WaitsFor(r.value.server, c) && r.value.server.queue == w.server.queue
      && r.value.server.handled == w.server.handled + [Granted(c)]
      && ClientOf(r.value, c) == ClientOf(w, c).(inbox := ClientOf(w, c).inbox + [UnlockChannelName(c)])
      && forall d | d != c :: ClientOf(r.value, d) == ClientOf(w, d)
  {}

  // How much the server has left to do.
  function Left(s: Server): nat {
    3 * |s.queue| + match s.phase case Polling => 1 case Delivering(_) => 3 case Held(_) => 2
  }

  lemma NextMoveServes(w: World)
    requires w.server.open
    ensures var s, s1 := w.server, Step(w, NextMove(w.server)).value.server;
      && s1.run == s.run && s1.received == s.received
      && (s1.open ==> Left(s1) < Left(s))
  {}

  lemma {:induction false} DrainFrom(w: World) returns (moves: seq<Move>)
    requires w.server.open
    ensures OnlyServerMoves(moves) && Run(w, moves).Some?
    ensures var s := Run(w, moves).value.server; !s.open && s.run == w.server.run && s.received == w.server.received
    decreases Left(w.server)
  {
    var m := NextMove(w.server);
    NeverHangs(w);
    NextMoveServes(w);
    var w1 := Step(w, m).value;
    if w1.server.open {
      var rest := DrainFrom(w1);
      moves := [m] + rest;
    } else {
      moves := [m];
      OneMove(w, m);
    }
  }

  /**
   From every point of every schedule the server can, by its own moves alone, handle every request that it has
   received and end its run.
   */
  lemma EveryRunCanEnd(before: seq<Move>) returns (moves: seq<Move>)
    requires Run(INIT, before).Some? && Run(INIT, before).value.server.open
    ensures var w := Run(INIT, before).value;
      && OnlyServerMoves(moves) && Run(w, moves).Some?
      && var r := Run(w, moves).value;
         !r.server.open && Clients(r.server.handled) == w.server.received
  {
    var w := Run(INIT, before).value;
    moves := DrainFrom(w);
    RunConcat(INIT, before, moves);
    GrantsFollowRequests(before + moves);
  }

  // ---------- Nobody is forgotten ----------

  // A client that waits without a signal has a request in the queue or in hand.
  predicate IsPending(w: World, c: ClientId) {
    w.server.open && (c in w.server.queue || w.server.phase == Delivering(c))
  }

  ghost predicate WaitersArePending(w: World) {
    forall c :: ClientOf(w, c).phase.Waiting? && ClientOf(w, c).inbox == [] ==> IsPending(w, c)
  }

  lemma ServeKeepsPending(s: Server, e: Event, c: ClientId)
    requires s.open && (c in s.queue || s.phase == Delivering(c)) && Serve(s, e).Some?
    requires !(e.Delivered? && s.phase == Delivering(c))
    ensures var r := Serve(s, e).value; r.open && (c in r.queue || r.phase == Delivering(c))
  {
    if e.Took? && c in s.queue && s.queue[0] != c {
      var i :| 0 <= i < |s.queue| && s.queue[i] == c;
      assert s.queue[1..][i - 1] == c;
    }
    if e.Asked? {
      assert forall i | 0 <= i < |s.queue| :: (s.queue + [e.client])[i] == s.queue[i];
    }
  }

  // Who waits without a signal after a step did so before, or has just asked.
  lemma WaitersAreOld(w: World, m: Move, c: ClientId)
    requires Step(w, m).Some?
    requires var client := ClientOf(Step(w, m).value, c); client.phase.Waiting? && client.inbox == []
    ensures m == Request(c) || (ClientOf(w, c).phase.Waiting? && ClientOf(w, c).inbox == [])
    ensures !(m.Deliver? && w.server.phase == Delivering(c))
  {}

  lemma StepKeepsWaitersPending(w: World, m: Move)
    requires WaitersArePending(w) && Step(w, m).Some?
    ensures WaitersArePending(Step(w, m).value)
  {
    var w1 := Step(w, m).value;
    StepServes(w, m);
    forall c | ClientOf(w1, c).phase.Waiting? && ClientOf(w1, c).inbox == [] ensures IsPending(w1, c) {
      WaitersAreOld(w, m, c);
      if m == Request(c) {
        assert w1.server.queue[|w1.server.queue| - 1] == c;
      } else if EventOf(w, m).Some? {
        ServeKeepsPending(w.server, EventOf(w, m).value, c);
      }
    }
  }

  lemma {:induction false} RunKeepsWaitersPending(w: World, moves: seq<Move>)
    requires WaitersArePending(w) && Run(w, moves).Some?
    ensures WaitersArePending(Run(w, moves).value)
    decreases |moves|
  {
    if moves != [] {
      StepKeepsWaitersPending(w, moves[0]);
      RunKeepsWaitersPending(Step(w, moves[0]).value, moves[1..]);
    }
  }

  lemma {:induction false} GrantFrom(w: World, c: ClientId) returns (moves: seq<Move>)
    requires WaitersArePending(w) && ClientOf(w, c).phase.Waiting? && ClientOf(w, c).inbox == []
    ensures OnlyServerMoves(moves) && Run(w, moves).Some?
    ensures var r := Run(w, moves).value;
      WaitsFor(r.server, c) && ClientOf(r, c).phase.Waiting? && ClientOf(r, c).inbox == [UnlockChannelName(c)]
    decreases Left(w.server)
  {
    assert IsPending(w, c);
    var m := NextMove(w.server);
    NeverHangs(w);
    var w1 := Step(w, m).value;
    if w.server.phase == Delivering(c) {
      LiveIsGranted(w, c);
      OneMove(w, m);
      moves := [m];
    } else {
      NextMoveServes(w);
      NextMoveSparesWaiters(w, c);
      StepKeepsWaitersPending(w, m);
      var rest := GrantFrom(w1, c);
      moves := [m] + rest;
    }
  }

  lemma NextMoveSparesWaiters(w: World, c: ClientId)
    requires w.server.open && w.server.phase != Delivering(c)
    ensures ClientOf(Step(w, NextMove(w.server)).value, c) == ClientOf(w, c)
  {}

  /**
   At every point of every schedule, a client that waits in Lock without a signal can be granted the lock by
   moves of the server alone: no request is ever lost.
   */
  lemma EveryWaiterCanBeGranted(before: seq<Move>, c: ClientId) returns (moves: seq<Move>)
    requires Run(INIT, before).Some?
    requires var client := ClientOf(Run(INIT, before).value, c); client.phase.Waiting? && client.inbox == []
    ensures var w := Run(INIT, before).value;
      && OnlyServerMoves(moves) && Run(w, moves).Some?
      && var r := Run(w, moves).value; WaitsFor(r.server, c) && ClientOf(r, c).inbox == [UnlockChannelName(c)]
  {
    RunKeepsWaitersPending(INIT, before);
    moves := GrantFrom(Run(INIT, before).value, c);
  }

  // ---------- A release is heard ----------

  // Those that the server has to do with know its run.
  ghost predicate RunsAgree(w: World) {
    w.server.open ==> forall c ::
      c in w.server.queue || w.server.phase == Delivering(c) || w.server.phase == Held(c) ==> ClientOf(w, c).run == w.server.run
  }

  lemma ServeMindsOld(s: Server, e: Event, c: ClientId)
    requires Serve(s, e).Some? && e != Asked(c)
    requires var r := Serve(s, e).value; r.open && (c in r.queue || r.phase == Delivering(c) || r.phase == Held(c))
    ensures s.open && Serve(s, e).value.run == s.run && (c in s.queue || s.phase == Delivering(c) || s.phase == Held(c))
  {}

  lemma OnlyRequestsChangeRun(w: World, m: Move, c: ClientId)
    requires Step(w, m).Some?
    ensures ClientOf(Step(w, m).value, c).run == if m == Request(c) then Step(w, m).value.server.run else ClientOf(w, c).run
  {}

  lemma StepKeepsRunsAgree(w: World, m: Move)
    requires RunsAgree(w) && Step(w, m).Some?
    ensures RunsAgree(Step(w, m).value)
  {
    var w1 := Step(w, m).value;
    StepServes(w, m);
    if w1.server.open {
      forall c | c in w1.server.queue || w1.server.phase == Delivering(c) || w1.server.phase == Held(c)
        ensures ClientOf(w1, c).run == w1.server.run
      {
        OnlyRequestsChangeRun(w, m, c);
        if m != Request(c) && EventOf(w, m).Some? {
          ServeMindsOld(w.server, EventOf(w, m).value, c);
        }
      }
    }
  }

  lemma {:induction false} RunKeepsRunsAgree(w: World, moves: seq<Move>)
    requires RunsAgree(w) && Named(w) && Run(w, moves).Some?
    ensures RunsAgree(Run(w, moves).value) && Named(Run(w, moves).value)
    decreases |moves|
  {
    if moves != [] {
      StepKeepsRunsAgree(w, moves[0]);
      StepKeepsNamed(w, moves[0]);
      RunKeepsRunsAgree(Step(w, moves[0]).value, moves[1..]);
    }
  }

  /**
   At every point of every schedule, when the client that the server waits for unlocks, its release signal
   reaches the server, which goes on to the next request without waiting for its timer.
   */
  lemma UnlockLetsNextIn(before: seq<Move>, a: ClientId)
    requires Run(INIT, before).Some?
    requires var w := Run(INIT, before).value;
      WaitsFor(w.server, a) && ClientOf(w, a).phase.Critical? && w.server.queue != []
    ensures var w := Run(INIT, before).value;
      var r := Run(w, [Unlock(a), Arrive(w.server.run, UnlockChannelName(a)), Release, Take]);
      && r.Some? && r.value.server.open && r.value.server.phase == Delivering(w.server.queue[0])
      && r.value.server.queue == w.server.queue[1..] && r.value.early == w.early && r.value.stale == w.stale
      && ClientOf(r.value, a).phase.Unlocked?
  {
    RunKeepsRunsAgree(INIT, before);
    ReleaseIsHeard(Run(INIT, before).value, a);
  }

  lemma ReleaseIsHeard(w: World, a: ClientId)
    requires RunsAgree(w) && Named(w) && WaitsFor(w.server, a) && ClientOf(w, a).phase.Critical? && w.server.queue != []
    ensures var r := Run(w, [Unlock(a), Arrive(w.server.run, UnlockChannelName(a)), Release, Take]);
      && r.Some? && r.value.server.open && r.value.server.phase == Delivering(w.server.queue[0])
      && r.value.server.queue == w.server.queue[1..] && r.value.early == w.early && r.value.stale == w.stale
      && ClientOf(r.value, a).phase.Unlocked?
  {
    var w2 := UnlockArrives(w, a);
    var w3, w4 := NextIsTaken(w2, a);
    FourSteps(w, Step(w, Unlock(a)).value, w2, w3, w4, Unlock(a), Arrive(w.server.run, UnlockChannelName(a)), Release, Take);
  }

  lemma NextIsTaken(w: World, a: ClientId) returns (released: World, r: World)
    requires WaitsFor(w.server, a) && UnlockChannelName(a) in w.server.releases && w.server.queue != []
    requires ClientOf(w, a).phase.Unlocked?
    ensures Step(w, Release) == Some(released) && Step(released, Take) == Some(r)
    ensures r.server.open && r.server.phase == Delivering(w.server.queue[0]) && r.server.queue == w.server.queue[1..]
    ensures r.clients == w.clients && r.early == w.early && r.stale == w.stale
  {
    released := Step(w, Release).value;
    r := Step(released, Take).value;
  }

  lemma FourSteps(w: World, w1: World, w2: World, w3: World, w4: World, m0: Move, m1: Move, m2: Move, m3: Move)
    requires Step(w, m0) == Some(w1) && Step(w1, m1) == Some(w2) && Step(w2, m2) == Some(w3) && Step(w3, m3) == Some(w4)
    ensures Run(w, [m0, m1, m2, m3]) == Some(w4)
  {
    FourMoves(w, m0, m1, m2, m3);
  }

  lemma UnlockArrives(w: World, a: ClientId) returns (r: World)
    requires RunsAgree(w) && Named(w) && WaitsFor(w.server, a) && ClientOf(w, a).phase.Critical?
    ensures Step(w, Unlock(a)).Some? && Step(Step(w, Unlock(a)).value, Arrive(w.server.run, UnlockChannelName(a))) == Some(r)
    ensures ClientOf(r, a).phase.Unlocked? && r.early == w.early && r.stale == w.stale
    ensures UnlockChannelName(a) in r.server.releases && r.server.(releases := w.server.releases) == w.server
  {
    assert NamedClient(w, a) && ClientOf(w, a).run == w.server.run;
    var w1 := Step(w, Unlock(a)).value;
    assert (w.server.run, UnlockChannelName(a)) in w1.inFlight && w1.server == w.server;
    r := Step(w1, Arrive(w.server.run, UnlockChannelName(a))).value;
  }

  // ---------- Every signal is used once ----------

  function Unlocks(moves: seq<Move>): nat {
    if moves == [] then 0 else (if moves[0].Unlock? then 1 else 0) + Unlocks(moves[1..])
  }

  function Releases(moves: seq<Move>): nat {
    if moves == [] then 0 else (if moves[0].Release? then 1 else 0) + Releases(moves[1..])
  }

  // Release signals that have been sent and not been taken.
  function Underway(w: World): nat {
    |w.inFlight| + |w.server.releases|
  }

  lemma OneLess<T>(all: multiset<T>, x: T)
    requires x in all
    ensures |all - multiset{x}| == |all| - 1
  {}

  lemma FlightsMove(w: World, m: Move)
    requires Step(w, m).Some?
    ensures |Step(w, m).value.inFlight| == |w.inFlight| + (if m.Unlock? then 1 else 0) - (if m.Arrive? then 1 else 0)
  {
    if m.Arrive? { OneLess(w.inFlight, (m.run, m.channel)); }
  }

  lemma BufferMoves(s: Server, e: Event)
    requires Serve(s, e).Some?
    ensures |Serve(s, e).value.releases| + (if e.Released? then 1 else 0) <= |s.releases| + (if e.Signalled? then 1 else 0)
  {
    if e.Released? { OneLess(s.releases, UnlockChannelName(s.phase.client)); }
  }

  lemma StepMovesSignals(w: World, m: Move)
    requires Step(w, m).Some?
    ensures Underway(Step(w, m).value) + (if m.Release? then 1 else 0) <= Underway(w) + (if m.Unlock? then 1 else 0)
  {
    FlightsMove(w, m);
    StepServes(w, m);
    if EventOf(w, m).Some? { BufferMoves(w.server, EventOf(w, m).value); }
  }

  lemma {:induction false} RunMovesSignals(w: World, moves: seq<Move>)
    requires Run(w, moves).Some?
    ensures Underway(Run(w, moves).value) + Releases(moves) <= Underway(w) + Unlocks(moves)
    decreases |moves|
  {
    if moves != [] {
      StepMovesSignals(w, moves[0]);
      RunMovesSignals(Step(w, moves[0]).value, moves[1..]);
    }
  }

  /** Over every schedule the server takes no more releases than clients have unlocked: no release counts twice. */
  lemma ReleasesNeedUnlocks(moves: seq<Move>)
    requires Run(INIT, moves).Some?
    ensures Releases(moves) + Underway(Run(INIT, moves).value) <= Unlocks(moves)
  {
    RunMovesSignals(INIT, moves);
  }

  // How often client c got inside, and how often it was granted the lock.
  function Entries(moves: seq<Move>, c: ClientId): nat {
    if moves == [] then 0 else (if moves[0] == Receive(c) then 1 else 0) + Entries(moves[1..], c)
  }

  function Grants(w: World, moves: seq<Move>, c: ClientId): nat
    requires Run(w, moves).Some?
    decreases moves
  {
    if moves == [] then 0
    else
      var w1 := Step(w, moves[0]).value;
      (if moves[0].Deliver? && WaitsFor(w1.server, c) then 1 else 0) + Grants(w1, moves[1..], c)
  }

  lemma StepFillsInbox(w: World, m: Move, c: ClientId)
    requires Step(w, m).Some?
    ensures |ClientOf(Step(w, m).value, c).inbox| + (if m == Receive(c) then 1 else 0)
         == |ClientOf(w, c).inbox| + (if m.Deliver? && WaitsFor(Step(w, m).value.server, c) then 1 else 0)
  {}

  lemma {:induction false} RunFillsInbox(w: World, moves: seq<Move>, c: ClientId)
    requires Run(w, moves).Some?
    ensures |ClientOf(Run(w, moves).value, c).inbox| + Entries(moves, c) == |ClientOf(w, c).inbox| + Grants(w, moves, c)
    decreases |moves|
  {
    if moves != [] {
      StepFillsInbox(w, moves[0], c);
      RunFillsInbox(Step(w, moves[0]).value, moves[1..], c);
    }
  }

  /** Over every schedule a client has got inside once for every grant, but for those it has not yet received. */
  lemma EntriesAreGrants(moves: seq<Move>, c: ClientId)
    requires Run(INIT, moves).Some?
    ensures Entries(moves, c) + |ClientOf(Run(INIT, moves).value, c).inbox| == Grants(INIT, moves, c)
  {
    RunFillsInbox(INIT, moves, c);
  }
}
