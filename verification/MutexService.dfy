/** What the lock server of the mutex does for its clients: order, completeness and waiting time. */
module MutexService {
  import opened Wrappers
  import opened Mutex

  // ---------- Requests are handled once, in order ----------

  function Clients(handled: seq<Handled>): seq<ClientId> {
    seq(|handled|, i requires 0 <= i < |handled| => handled[i].client)
  }

  // The request that is being delivered, if any.
  function InHand(s: Server): seq<ClientId> {
    if s.phase.Delivering? then [s.phase.client] else []
  }

  predicate InOrder(s: Server) {
    && s.received == Clients(s.handled) + InHand(s) + s.queue
    && (s.phase.Held? ==> s.handled != [] && s.handled[|s.handled| - 1] == Granted(s.phase.client))
    && (!s.open ==> s.phase.Polling? && s.queue == [])
  }

  lemma ServeKeepsInOrder(s: Server, e: Event)
    requires InOrder(s) && Serve(s, e).Some?
    ensures InOrder(Serve(s, e).value)
  {
    match e
    case Asked(c) =>
      if s.open { Reassociate(Clients(s.handled), InHand(s), s.queue, c); }
    case Took =>
      assert Clients(s.handled) + [] + s.queue == Clients(s.handled) + [s.queue[0]] + s.queue[1..];
    case Delivered(ok) =>
      var handled := Serve(s, e).value.handled;
      assert Clients(handled) == Clients(s.handled) + [s.phase.client];
      assert Clients(handled) + [] + s.queue == Clients(s.handled) + [s.phase.client] + s.queue;
    case _ =>
  }

  lemma Reassociate(a: seq<ClientId>, b: seq<ClientId>, queue: seq<ClientId>, c: ClientId)
    ensures a + b + (queue + [c]) == (a + b + queue) + [c]
  {}

  lemma {:induction false} RunKeepsInOrder(w: World, moves: seq<Move>)
    requires InOrder(w.server) && Run(w, moves).Some?
    ensures InOrder(Run(w, moves).value.server)
    decreases |moves|
  {
    if moves != [] {
      StepServes(w, moves[0]);
      if EventOf(w, moves[0]).Some? { ServeKeepsInOrder(w.server, EventOf(w, moves[0]).value); }
      RunKeepsInOrder(Step(w, moves[0]).value, moves[1..]);
    }
  }

  /**
   The requests that a server run has handled, each by one grant or one failed delivery, are a prefix of
   those it received, in the order in which it received them; the holder is the client granted last; and a
   run that has ended has handled all of them and waits for nobody.
   */
  lemma GrantsFollowRequests(moves: seq<Move>)
    requires Run(INIT, moves).Some?
    ensures var s := Run(INIT, moves).value.server;
      && Clients(s.handled) <= s.received
      && (s.phase.Held? ==> s.handled != [] && s.handled[|s.handled| - 1] == Granted(s.phase.client))
      && (!s.open ==> Clients(s.handled) == s.received && s.phase.Polling?)
  {
    RunKeepsInOrder(INIT, moves);
    var s := Run(INIT, moves).value.server;
    assert Clients(s.handled) + InHand(s) + s.queue == Clients(s.handled) + (InHand(s) + s.queue);
  }

  // A failed delivery is to a client that has closed.
  ghost predicate SkippedAreClosed(w: World) {
    forall c | Undeliverable(c) in w.server.handled :: ClientOf(w, c).phase.Closed?
  }

  lemma ClosedStays(w: World, m: Move, c: ClientId)
    requires ClientOf(w, c).phase.Closed? && Step(w, m).Some?
    ensures ClientOf(Step(w, m).value, c).phase.Closed?
  {}

  lemma StepKeepsSkippedClosed(w: World, m: Move)
    requires SkippedAreClosed(w) && Step(w, m).Some?
    ensures SkippedAreClosed(Step(w, m).value)
  {
    var w1 := Step(w, m).value;
    forall c | Undeliverable(c) in w1.server.handled ensures ClientOf(w1, c).phase.Closed? {
      if Undeliverable(c) in w.server.handled { ClosedStays(w, m, c); }
    }
  }

  lemma {:induction false} RunKeepsSkippedClosed(w: World, moves: seq<Move>)
    requires SkippedAreClosed(w) && Run(w, moves).Some?
    ensures SkippedAreClosed(Run(w, moves).value)
    decreases |moves|
  {
    if moves != [] {
      StepKeepsSkippedClosed(w, moves[0]);
      RunKeepsSkippedClosed(Step(w, moves[0]).value, moves[1..]);
    }
  }

  // What the server's present run has handled since w.
  function Since(w: World, r: World): seq<Handled> {
    if r.server.run == w.server.run && |w.server.handled| <= |r.server.handled| then
      r.server.handled[|w.server.handled|..]
    else r.server.handled
  }

  predicate Follows(w: World, r: World) {
    r.server.run >= w.server.run && (r.server.run == w.server.run ==> w.server.handled <= r.server.handled)
  }

  lemma StepFollows(w: World, m: Move, c: ClientId)
    requires ClientOf(w, c).phase.Closed? && Step(w, m).Some?
    ensures Follows(w, Step(w, m).value) && Granted(c) !in Since(w, Step(w, m).value)
  {
    StepServes(w, m);
    if EventOf(w, m).Some? { ServeFollows(w.server, EventOf(w, m).value, c); }
  }

  lemma ServeFollows(s: Server, e: Event, c: ClientId)
    requires Serve(s, e).Some? && !(e == Delivered(true) && s.phase == Delivering(c))
    ensures var r := Serve(s, e).value;
      if r.run == s.run then s.handled <= r.handled && Granted(c) !in r.handled[|s.handled|..]
      else r.run > s.run && r.handled == []
  {}

  lemma FollowsOn(w: World, w1: World, r: World, c: ClientId)
    requires Follows(w, w1) && Follows(w1, r) && Granted(c) !in Since(w, w1) && Granted(c) !in Since(w1, r)
    ensures Follows(w, r) && Granted(c) !in Since(w, r)
  {
    var h, h1, h2 := w.server.handled, w1.server.handled, r.server.handled;
    if r.server.run == w1.server.run {
      assert h2 == h1 + h2[|h1|..];
      if w1.server.run == w.server.run {
        assert h2[|h|..] == h1[|h|..] + h2[|h1|..];
      }
    }
  }

  lemma {:induction false} ClosedIsNotGranted(w: World, moves: seq<Move>, c: ClientId)
    requires ClientOf(w, c).phase.Closed? && Run(w, moves).Some?
    ensures var r := Run(w, moves).value;
      ClientOf(r, c).phase.Closed? && Follows(w, r) && Granted(c) !in Since(w, r)
    decreases |moves|
  {
    if moves != [] {
      var w1 := Step(w, moves[0]).value;
      ClosedStays(w, moves[0], c);
      StepFollows(w, moves[0], c);
      ClosedIsNotGranted(w1, moves[1..], c);
      FollowsOn(w, w1, Run(w1, moves[1..]).value, c);
    }
  }

  /**
   At every point of every schedule: a request was skipped only if its client had closed by then, and a client
   that has closed stays closed and is never granted the lock again, by this server run or a later one.
   */
  lemma OnlyClosedClientsAreSkipped(before: seq<Move>, after: seq<Move>, c: ClientId)
    requires Run(INIT, before).Some? && Run(Run(INIT, before).value, after).Some?
    ensures var w := Run(INIT, before).value;
      Undeliverable(c) in w.server.handled ==> ClientOf(w, c).phase.Closed?
    ensures var w := Run(INIT, before).value;
      var r := Run(w, after).value;
      ClientOf(w, c).phase.Closed? ==> ClientOf(r, c).phase.Closed? && Granted(c) !in Since(w, r)
  {
    RunKeepsSkippedClosed(INIT, before);
    var w := Run(INIT, before).value;
    if ClientOf(w, c).phase.Closed? {
      ClosedIsNotGranted(w, after, c);
    }
  }

  // ---------- Waiting time, when signals take none ----------

  // When a request arrived, and how many requests were then before it, the one in hand or holding included.
  datatype Ticket = Ticket(arrived: int, ahead: nat)

  // `since` is when the present holder was granted the lock.
  datatype Timed = Timed(world: World, now: int, since: int, tickets: seq<Ticket>)

  datatype TimedMove = Act(move: Move) | Tick(time: nat)

  function Busy(s: Server): nat {
    if s.open && !s.phase.Polling? then 1 else 0
  }

  // Time passes while the server waits for a release, and no further than its timer, or while nobody waits.
  function TimedStep(t: Timed, unlockTimeout: nat, m: TimedMove): Option<Timed> {
    var s := t.world.server;
    match m
    case Tick(time) =>
      if s.open && s.phase.Held? && t.now + time - t.since <= unlockTimeout then Some(t.(now := t.now + time))
      else if !s.open then Some(t.(now := t.now + time))
      else None
    case Act(move) =>
      var w1 := Step(t.world, move);
      if w1.None? || (move.Timeout? && t.now - t.since != unlockTimeout) then None
      else
        Some(Timed(w1.value, t.now,
                   if move.Deliver? then t.now else t.since,
                   if move.Request? then
                     (if s.open then t.tickets else []) + [Ticket(t.now, if s.open then |s.queue| + Busy(s) else 0)]
                   else if move.Take? && t.tickets != [] then t.tickets[1..]
                   else t.tickets))
  }

  function TimedRun(t: Timed, unlockTimeout: nat, moves: seq<TimedMove>): Option<Timed>
    decreases moves
  {
    if moves == [] then Some(t)
    else
      var t1 := TimedStep(t, unlockTimeout, moves[0]);
      if t1.None? then None else TimedRun(t1.value, unlockTimeout, moves[1..])
  }

  // How long the present holder has had the lock.
  function Holding(t: Timed): int {
    if t.world.server.open && t.world.server.phase.Held? then t.now - t.since else 0
  }

  // Request i of the queue has seen off all that were before it but i and the one in hand.
  predicate OnTime(t: Timed, unlockTimeout: nat, i: nat)
    requires i < |t.tickets|
  {
    var gone := t.tickets[i].ahead - i - Busy(t.world.server);
    gone >= 0 && t.now - t.tickets[i].arrived <= gone * unlockTimeout + Holding(t)
  }

  predicate Served(t: Timed, unlockTimeout: nat) {
    && |t.tickets| == |t.world.server.queue|
    && 0 <= Holding(t) <= unlockTimeout
    && (!t.world.server.open ==> t.world.server.queue == [])
    && forall i: nat | i < |t.tickets| :: OnTime(t, unlockTimeout, i)
  }

  lemma OneMoreGone(gone: int, unlockTimeout: nat)
    ensures (gone + 1) * unlockTimeout == gone * unlockTimeout + unlockTimeout
  {}

  lemma RequestKeepsServed(t: Timed, unlockTimeout: nat, c: ClientId)
    requires Served(t, unlockTimeout) && TimedStep(t, unlockTimeout, Act(Request(c))).Some?
    ensures Served(TimedStep(t, unlockTimeout, Act(Request(c))).value, unlockTimeout)
  {
    var t1 := TimedStep(t, unlockTimeout, Act(Request(c))).value;
    forall i: nat | i < |t1.tickets| ensures OnTime(t1, unlockTimeout, i) {
      if i < |t1.tickets| - 1 { assert OnTime(t, unlockTimeout, i); }
    }
  }

  lemma TakeKeepsServed(t: Timed, unlockTimeout: nat)
    requires Served(t, unlockTimeout) && TimedStep(t, unlockTimeout, Act(Take)).Some?
    ensures Served(TimedStep(t, unlockTimeout, Act(Take)).value, unlockTimeout)
  {
    var t1 := TimedStep(t, unlockTimeout, Act(Take)).value;
    forall i: nat | i < |t1.tickets| ensures OnTime(t1, unlockTimeout, i) {
      assert OnTime(t, unlockTimeout, i + 1);
    }
  }

  // Time passes, or nothing changes, while the same request is in hand.
  lemma SameTurn(t: Timed, t1: Timed, unlockTimeout: nat)
    requires Served(t, unlockTimeout) && t1.tickets == t.tickets && t1.world.server.queue == t.world.server.queue
    requires t1.world.server.open == t.world.server.open && Busy(t1.world.server) == Busy(t.world.server)
    requires t1.now - t.now == Holding(t1) - Holding(t) && 0 <= Holding(t1) <= unlockTimeout
    ensures Served(t1, unlockTimeout)
  {
    forall i: nat | i < |t1.tickets| ensures OnTime(t1, unlockTimeout, i) {
      assert OnTime(t, unlockTimeout, i);
    }
  }

  // The request in hand is done with.
  lemma NextTurn(t: Timed, t1: Timed, unlockTimeout: nat)
    requires Served(t, unlockTimeout) && t1.tickets == t.tickets && t1.world.server.queue == t.world.server.queue
    requires t1.world.server.open && Busy(t.world.server) == 1 && Busy(t1.world.server) == 0 && t1.now == t.now
    ensures Served(t1, unlockTimeout)
  {
    forall i: nat | i < |t1.tickets| ensures OnTime(t1, unlockTimeout, i) {
      assert OnTime(t, unlockTimeout, i);
      OneMoreGone(t.tickets[i].ahead - i - 1, unlockTimeout);
    }
  }

  lemma StepKeepsServed(t: Timed, unlockTimeout: nat, m: TimedMove)
    requires Served(t, unlockTimeout) && TimedStep(t, unlockTimeout, m).Some?
    ensures Served(TimedStep(t, unlockTimeout, m).value, unlockTimeout)
  {
    if m.Act? && m.move.Request? {
      RequestKeepsServed(t, unlockTimeout, m.move.client);
    } else if m.Act? && m.move.Take? {
      TakeKeepsServed(t, unlockTimeout);
    } else if m.Act? {
      ActKeepsServed(t, unlockTimeout, m.move);
    } else if t.world.server.open {
      SameTurn(t, TimedStep(t, unlockTimeout, m).value, unlockTimeout);
    }
  }

  lemma ActKeepsServed(t: Timed, unlockTimeout: nat, m: Move)
    requires Served(t, unlockTimeout) && TimedStep(t, unlockTimeout, Act(m)).Some? && !m.Request? && !m.Take?
    ensures Served(TimedStep(t, unlockTimeout, Act(m)).value, unlockTimeout)
  {
    var t1 := TimedStep(t, unlockTimeout, Act(m)).value;
    StepServes(t.world, m);
    var e := EventOf(t.world, m);
    if e.None? || e.value.Signalled? || e == Some(Delivered(true)) {
      SameTurn(t, t1, unlockTimeout);
    } else if !e.value.Ended? {
      NextTurn(t, t1, unlockTimeout);
    }
  }

  lemma {:induction false} RunKeepsServed(t: Timed, unlockTimeout: nat, moves: seq<TimedMove>)
    requires Served(t, unlockTimeout) && TimedRun(t, unlockTimeout, moves).Some?
    ensures Served(TimedRun(t, unlockTimeout, moves).value, unlockTimeout)
    decreases |moves|
  {
    if moves != [] {
      StepKeepsServed(t, unlockTimeout, moves[0]);
      RunKeepsServed(TimedStep(t, unlockTimeout, moves[0]).value, unlockTimeout, moves[1..]);
    }
  }

  /** A request with k requests before it, the holder's included, waits at most k times the unlock timeout. */
  lemma WaitIsBounded(unlockTimeout: nat, moves: seq<TimedMove>, i: nat)
    requires var r := TimedRun(Timed(INIT, 0, 0, []), unlockTimeout, moves); r.Some? && i < |r.value.tickets|
    ensures var t := TimedRun(Timed(INIT, 0, 0, []), unlockTimeout, moves).value;
      t.now - t.tickets[i].arrived <= t.tickets[i].ahead * unlockTimeout
  {
    RunKeepsServed(Timed(INIT, 0, 0, []), unlockTimeout, moves);
    var t := TimedRun(Timed(INIT, 0, 0, []), unlockTimeout, moves).value;
    assert OnTime(t, unlockTimeout, i);
    var gone := t.tickets[i].ahead - i - Busy(t.world.server);
    OneMoreGone(gone, unlockTimeout);
    MoreAhead(gone + Busy(t.world.server), t.tickets[i].ahead, unlockTimeout);
  }

  lemma MoreAhead(a: int, b: int, unlockTimeout: nat)
    requires a <= b
    ensures a * unlockTimeout <= b * unlockTimeout
  {}

  // ---------- The timer is on time ----------

  /** While a client holds the lock time can pass up to the unlock timeout, and exactly then the timer can fire. */
  lemma TimerFiresOnTime(unlockTimeout: nat, moves: seq<TimedMove>)
    requires var r := TimedRun(Timed(INIT, 0, 0, []), unlockTimeout, moves);
      r.Some? && r.value.world.server.open && r.value.world.server.phase.Held?
    ensures var t := TimedRun(Timed(INIT, 0, 0, []), unlockTimeout, moves).value;
      && 0 <= t.now - t.since <= unlockTimeout
      && (TimedStep(t, unlockTimeout, Act(Timeout)).Some? <==> t.now == t.since + unlockTimeout)
      && (forall time: nat :: TimedStep(t, unlockTimeout, Tick(time)).Some? <==> t.now + time <= t.since + unlockTimeout)
  {
    RunKeepsServed(Timed(INIT, 0, 0, []), unlockTimeout, moves);
  }
}
