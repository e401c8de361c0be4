/**
 The distributed mutex of mutex/mutex_workflow.go: a lock-server workflow and any number of client workflows
 that exchange signals. Clients ask with signal-with-start, the server grants in order and waits for the
 release or the unlock timer, and it ends when its request channel is empty; a later request starts it anew.
 */
module Mutex {
  import opened Wrappers

  type ClientId = string

  function UnlockChannelName(sender: ClientId): (name: string)
    ensures |name| == 13 + |sender|
  {
    "unlock-event-" + sender
  }

  lemma UnlockChannelNamesDiffer(a: ClientId, b: ClientId)
    requires UnlockChannelName(a) == UnlockChannelName(b)
    ensures a == b
  {
    assert UnlockChannelName(a)[13..] == a;
    assert UnlockChannelName(b)[13..] == b;
  }

  // ---------- State ----------

  // A client asks, waits in Lock, works and unlocks; it may lock again, and be terminated at any point.
  datatype ClientPhase = Idle | Waiting | Critical | Unlocked | Closed

  // `run` is the server run that the last request went to, `inbox` the acquire signals not yet received.
  datatype Client = Client(phase: ClientPhase, run: nat, inbox: seq<string>, channel: string)

  datatype ServerPhase = Polling | Delivering(client: ClientId) | Held(client: ClientId)

  datatype Handled = Granted(client: ClientId) | Undeliverable(client: ClientId)

  // `received` and `handled` record what this run was asked and what it did about it.
  datatype Server = Server(
    open: bool, run: nat, queue: seq<ClientId>, phase: ServerPhase, releases: multiset<string>,
    received: seq<ClientId>, handled: seq<Handled>)

  // `early` records that an unlock timer fired on a client that still owned the lock, `stale` that an acquire
  // or release signal left over from an earlier Lock took effect in a later one.
  datatype World = World(
    server: Server, clients: map<ClientId, Client>, inFlight: multiset<(nat, string)>, early: bool, stale: bool)

  datatype Move =
    | Request(client: ClientId)
    | Take
    | Deliver
    | Receive(client: ClientId)
    | Unlock(client: ClientId)
    | Arrive(run: nat, channel: string)
    | Release
    | Timeout
    | Close
    | Terminate(client: ClientId)

  function ClientOf(w: World, c: ClientId): Client {
    if c in w.clients then w.clients[c] else Client(Idle, 0, [], "")
  }

  function Update(w: World, c: ClientId, client: Client): World {
    w.(clients := w.clients[c := client])
  }

  const INIT := World(Server(false, 0, [], Polling, multiset{}, [], []), map[], multiset{}, false, false)

  // A request reaches the open run, or starts the next one.
  function Enqueue(s: Server, c: ClientId): Server {
    if s.open then s.(queue := s.queue + [c], received := s.received + [c])
    else Server(true, s.run + 1, [c], Polling, multiset{}, [c], [])
  }

  // What happens to a server run.
  datatype Event =
    | Asked(client: ClientId)
    | Took
    | Delivered(ok: bool)
    | Signalled(channel: string)
    | Released
    | TimedOut
    | Ended

  function Serve(s: Server, e: Event): Option<Server> {
    match e
    case Asked(c) => Some(Enqueue(s, c))
    case Took =>
      if s.open && s.phase.Polling? && s.queue != [] then
        Some(s.(phase := Delivering(s.queue[0]), queue := s.queue[1..]))
      else None
    case Delivered(ok) =>
      if !s.open || !s.phase.Delivering? then None
      else if ok then Some(s.(phase := Held(s.phase.client), handled := s.handled + [Granted(s.phase.client)]))
      else Some(s.(phase := Polling, handled := s.handled + [Undeliverable(s.phase.client)]))
    case Signalled(channel) =>
      if s.open then Some(s.(releases := s.releases + multiset{channel})) else None
    case Released =>
      if s.open && s.phase.Held? && UnlockChannelName(s.phase.client) in s.releases then
        Some(s.(phase := Polling, releases := s.releases - multiset{UnlockChannelName(s.phase.client)}))
      else None
    case TimedOut => if s.open && s.phase.Held? then Some(s.(phase := Polling)) else None
    case Ended => if s.open && s.phase.Polling? && s.queue == [] then Some(s.(open := false)) else None
  }

  // The lock is with a client from the delivery of its acquire signal until it calls unlock.
  predicate Owns(w: World, c: ClientId) {
    var client := ClientOf(w, c);
    client.phase.Critical? || (client.phase.Waiting? && client.inbox != [])
  }

  // The server waits for this client to release the lock.
  predicate WaitsFor(s: Server, c: ClientId) {
    s.open && s.phase == Held(c)
  }

  // After the move a client owns the lock that the server does not wait for: the timer or a release signal
  // makes the server go on too soon, or a client calls Lock again with an acquire signal left over.
  predicate Breaks(w: World, m: Move) {
    match m
    case Timeout => w.server.phase.Held? && Owns(w, w.server.phase.client)
    case Release => w.server.phase.Held? && Owns(w, w.server.phase.client)
    case Request(c) => ClientOf(w, c).phase.Unlocked? && ClientOf(w, c).inbox != [] && !WaitsFor(w.server, c)
    case _ => false
  }

  function WithServer(w: World, s: Option<Server>): Option<World> {
    if s.Some? then Some(w.(server := s.value)) else None
  }

  function Step(w: World, m: Move): Option<World> {
    var s := w.server;
    match m
    case Request(c) =>
      // The local activity may be retried, so a waiting client may ask again.
      var client := ClientOf(w, c);
      if client.phase.Idle? || client.phase.Waiting? || client.phase.Unlocked? then
        var s1 := Serve(s, Asked(c)).value;
        Some(Update(w.(server := s1, stale := w.stale || Breaks(w, m)), c, client.(phase := Waiting, run := s1.run)))
      else None
    case Take => WithServer(w, Serve(s, Took))
    case Deliver =>
      if !s.open || !s.phase.Delivering? then None
      else
        var c := s.phase.client;
        var client := ClientOf(w, c);
        // The signal cannot be delivered to a workflow that has closed.
        var w1 := WithServer(w, Serve(s, Delivered(!client.phase.Closed?)));
        if client.phase.Closed? then w1
        else Some(Update(w1.value, c, client.(inbox := client.inbox + [UnlockChannelName(c)])))
    case Receive(c) =>
      var client := ClientOf(w, c);
      if client.phase.Waiting? && client.inbox != [] then
        Some(Update(w, c, client.(phase := Critical, channel := client.inbox[0], inbox := client.inbox[1..])))
      else None
    case Unlock(c) =>
      var client := ClientOf(w, c);
      if client.phase.Critical? then
        Some(Update(w.(inFlight := w.inFlight + multiset{(client.run, client.channel)}), c, client.(phase := Unlocked)))
      else None
    case Arrive(run, channel) =>
      if (run, channel) in w.inFlight then
        var w1 := w.(inFlight := w.inFlight - multiset{(run, channel)});
        // A signal to a run that has ended is lost.
        if s.open && s.run == run then WithServer(w1, Serve(s, Signalled(channel))) else Some(w1)
      else None
    case Release => WithServer(w.(stale := w.stale || Breaks(w, m)), Serve(s, Released))
    case Timeout => WithServer(w.(early := w.early || Breaks(w, m)), Serve(s, TimedOut))
    case Close => WithServer(w, Serve(s, Ended))
    case Terminate(c) =>
      Some(Update(w, c, ClientOf(w, c).(phase := Closed)))
  }

  // What a move is for the server.
  function EventOf(w: World, m: Move): Option<Event> {
    match m
    case Request(c) => Some(Asked(c))
    case Take => Some(Took)
    case Deliver => if w.server.phase.Delivering? then Some(Delivered(!ClientOf(w, w.server.phase.client).phase.Closed?)) else None
    case Arrive(run, channel) => if w.server.open && w.server.run == run then Some(Signalled(channel)) else None
    case Release => Some(Released)
    case Timeout => Some(TimedOut)
    case Close => Some(Ended)
    case _ => None
  }

  lemma StepServes(w: World, m: Move)
    requires Step(w, m).Some?
    ensures var e := EventOf(w, m);
      if e.None? then Step(w, m).value.server == w.server else Serve(w.server, e.value) == Some(Step(w, m).value.server)
  {}

  function Run(w: World, moves: seq<Move>): Option<World>
    decreases moves
  {
    if moves == [] then Some(w)
    else
      var w1 := Step(w, moves[0]);
      if w1.None? then None else Run(w1.value, moves[1..])
  }

  // ---------- Mutual exclusion ----------

  // Whoever owns the lock is the one the server waits for.
  ghost predicate HolderOwns(w: World) {
    forall c :: Owns(w, c) ==> WaitsFor(w.server, c)
  }

  ghost predicate OnlyAskedFor(w: World) {
    forall c :: ClientOf(w, c).phase.Idle? ==>
      ClientOf(w, c).inbox == [] && c !in w.server.queue && w.server.phase != Delivering(c)
  }

  lemma IdleIsLeftAlone(w: World, m: Move, c: ClientId)
    requires Step(w, m).Some? && ClientOf(Step(w, m).value, c).phase.Idle?
    ensures ClientOf(w, c).phase.Idle? && m != Request(c)
    ensures !(m.Deliver? && w.server.phase == Delivering(c)) ==> ClientOf(Step(w, m).value, c).inbox == ClientOf(w, c).inbox
  {}

  // The server deals with those only who asked.
  lemma ServerMindsItsQueue(s: Server, e: Event, c: ClientId)
    requires Serve(s, e).Some? && e != Asked(c) && c !in s.queue && s.phase != Delivering(c)
    ensures c !in Serve(s, e).value.queue && Serve(s, e).value.phase != Delivering(c)
  {}

  lemma StepKeepsOnlyAskedFor(w: World, m: Move)
    requires OnlyAskedFor(w) && Step(w, m).Some?
    ensures OnlyAskedFor(Step(w, m).value)
  {
    var w1 := Step(w, m).value;
    StepServes(w, m);
    forall c | ClientOf(w1, c).phase.Idle?
      ensures ClientOf(w1, c).inbox == [] && c !in w1.server.queue && w1.server.phase != Delivering(c)
    {
      IdleIsLeftAlone(w, m, c);
      if EventOf(w, m).Some? { ServerMindsItsQueue(w.server, EventOf(w, m).value, c); }
    }
  }

  // A step gives the lock to nobody but the client of a delivery, or one that locks again with a signal left over.
  lemma OwnersAreOld(w: World, m: Move, c: ClientId)
    requires Step(w, m).Some? && Owns(Step(w, m).value, c)
    requires OnlyAskedFor(w)
    ensures || Owns(w, c) || (m == Deliver && w.server.phase == Delivering(c))
            || (m == Request(c) && ClientOf(w, c).phase.Unlocked? && ClientOf(w, c).inbox != [])
  {}

  // The server stops waiting by a release or its timer only.
  lemma WaitStays(s: Server, e: Event, c: ClientId)
    requires WaitsFor(s, c) && Serve(s, e).Some? && !e.Released? && !e.TimedOut?
    ensures WaitsFor(Serve(s, e).value, c)
  {}

  lemma UnbrokenKeepsHolderOwns(w: World, m: Move)
    requires HolderOwns(w) && OnlyAskedFor(w) && Step(w, m).Some? && !Breaks(w, m)
    ensures HolderOwns(Step(w, m).value)
  {
    var w1 := Step(w, m).value;
    StepServes(w, m);
    forall c | Owns(w1, c) ensures WaitsFor(w1.server, c) {
      OwnersAreOld(w, m, c);
      if m != Deliver || w.server.phase != Delivering(c) {
        assert WaitsFor(w.server, c);
        if EventOf(w, m).Some? { WaitStays(w.server, EventOf(w, m).value, c); }
      }
    }
  }

  /** A step loses the agreement between the owner of the lock and the server exactly in the three cases of Breaks. */
  lemma ProtectionIsLostExactly(w: World, m: Move)
    requires HolderOwns(w) && OnlyAskedFor(w) && Step(w, m).Some?
    ensures HolderOwns(Step(w, m).value) <==> !Breaks(w, m)
  {
    var w1 := Step(w, m).value;
    if !Breaks(w, m) {
      UnbrokenKeepsHolderOwns(w, m);
    } else if m.Request? {
      assert Owns(w1, m.client) && !WaitsFor(w1.server, m.client);
    } else {
      assert Owns(w1, w.server.phase.client) && !WaitsFor(w1.server, w.server.phase.client);
    }
  }

  ghost predicate Exclusive(w: World) {
    OnlyAskedFor(w) && (w.early || w.stale || HolderOwns(w))
  }

  lemma {:induction false} RunKeepsExclusive(w: World, moves: seq<Move>)
    requires Exclusive(w) && Run(w, moves).Some?
    ensures Exclusive(Run(w, moves).value)
    decreases |moves|
  {
    if moves != [] {
      StepKeepsOnlyAskedFor(w, moves[0]);
      if HolderOwns(w) {
        ProtectionIsLostExactly(w, moves[0]);
      }
      RunKeepsExclusive(Step(w, moves[0]).value, moves[1..]);
    }
  }

  /**
   Two clients are in their critical sections at once only if some unlock timer fired on an owner of the lock,
   or a signal left over from an earlier Lock took effect; whatever the order of signals, however often
   clients lock, and across any number of server runs.
   */
  lemma MutualExclusion(moves: seq<Move>, a: ClientId, b: ClientId)
    requires Run(INIT, moves).Some?
    requires var w := Run(INIT, moves).value; ClientOf(w, a).phase.Critical? && ClientOf(w, b).phase.Critical?
    ensures a == b || Run(INIT, moves).value.early || Run(INIT, moves).value.stale
  {
    RunKeepsExclusive(INIT, moves);
    var w := Run(INIT, moves).value;
    assert Owns(w, a) && Owns(w, b);
  }

  // ---------- Nothing left over ----------

  predicate Past(w: World, c: ClientId) {
    ClientOf(w, c).phase.Unlocked? || ClientOf(w, c).phase.Closed?
  }

  // Nothing of an earlier Lock of this client is left: no acquire signal, unless the server still waits for
  // this client, and no release signal, on its way or received.
  ghost predicate Tidy(w: World, c: ClientId) {
    && (ClientOf(w, c).inbox == [] || WaitsFor(w.server, c))
    && UnlockChannelName(c) !in w.server.releases
    && (forall run :: (run, UnlockChannelName(c)) !in w.inFlight)
  }

  // Clients lock again only when nothing is left over; in particular every schedule is careful in which each
  // client locks once.
  ghost predicate Careful(w: World, moves: seq<Move>)
    requires Run(w, moves).Some?
    decreases moves
  {
    moves == []
    || ((moves[0].Request? && ClientOf(w, moves[0].client).phase.Unlocked? ==> Tidy(w, moves[0].client))
        && Careful(Step(w, moves[0]).value, moves[1..]))
  }

  // Clients know the release channel by their own name only.
  predicate NamedClient(w: World, c: ClientId) {
    && (forall name | name in ClientOf(w, c).inbox :: name == UnlockChannelName(c))
    && (ClientOf(w, c).phase.Critical? ==> ClientOf(w, c).channel == UnlockChannelName(c))
  }

  ghost predicate Named(w: World) {
    forall c :: NamedClient(w, c)
  }

  // A release signal is only ever sent by a client that is past its critical section.
  ghost predicate ReleasesAreSpent(w: World) {
    && (forall c :: UnlockChannelName(c) in w.server.releases ==> Past(w, c))
    && (forall c, run :: (run, UnlockChannelName(c)) in w.inFlight ==> Past(w, c))
  }

  lemma StepKeepsNamed(w: World, m: Move)
    requires Named(w) && Step(w, m).Some?
    ensures Named(Step(w, m).value)
  {
    var w1 := Step(w, m).value;
    forall c ensures NamedClient(w1, c) {
      assert NamedClient(w, c);
      var inbox := ClientOf(w, c).inbox;
      assert inbox != [] ==> inbox[0] in inbox && forall name | name in inbox[1..] :: name in inbox;
    }
  }

  lemma PastStays(w: World, m: Move, c: ClientId)
    requires Past(w, c) && Step(w, m).Some? && m != Request(c)
    ensures Past(Step(w, m).value, c)
  {}

  // Where the release signals of a step come from.
  lemma ReleasesComeFromFlight(w: World, m: Move, name: string)
    requires Step(w, m).Some? && name in Step(w, m).value.server.releases && name !in w.server.releases
    ensures exists run :: (run, name) in w.inFlight
  {
    if m.Arrive? { assert (m.run, m.channel) in w.inFlight; }
  }

  lemma FlightsComeFromUnlock(w: World, m: Move, run: nat, name: string)
    requires Step(w, m).Some? && (run, name) in Step(w, m).value.inFlight && (run, name) !in w.inFlight
    ensures m.Unlock? && ClientOf(w, m.client).phase.Critical? && name == ClientOf(w, m.client).channel
    ensures Past(Step(w, m).value, m.client)
  {}

  lemma StepKeepsReleasesSpent(w: World, m: Move)
    requires ReleasesAreSpent(w) && Named(w) && Step(w, m).Some?
    requires m.Request? && ClientOf(w, m.client).phase.Unlocked? ==> Tidy(w, m.client)
    ensures ReleasesAreSpent(Step(w, m).value)
  {
    var w1 := Step(w, m).value;
    forall c | UnlockChannelName(c) in w1.server.releases ensures Past(w1, c) {
      if UnlockChannelName(c) !in w.server.releases {
        ReleasesComeFromFlight(w, m, UnlockChannelName(c));
      }
      PastStays(w, m, c);
    }
    forall c, run | (run, UnlockChannelName(c)) in w1.inFlight ensures Past(w1, c) {
      if (run, UnlockChannelName(c)) in w.inFlight {
        PastStays(w, m, c);
      } else {
        FlightsComeFromUnlock(w, m, run, UnlockChannelName(c));
        assert NamedClient(w, m.client);
        UnlockChannelNamesDiffer(c, m.client);
      }
    }
  }

  lemma {:induction false} CarefulRunIsNotStale(w: World, moves: seq<Move>)
    requires Named(w) && ReleasesAreSpent(w) && !w.stale && Run(w, moves).Some? && Careful(w, moves)
    ensures !Run(w, moves).value.stale
    decreases |moves|
  {
    if moves != [] {
      StepKeepsNamed(w, moves[0]);
      StepKeepsReleasesSpent(w, moves[0]);
      CarefulRunIsNotStale(Step(w, moves[0]).value, moves[1..]);
    }
  }

  /** If clients lock again only when nothing is left over, an early unlock timer is the only way to lose exclusion. */
  lemma CarefulClientsExclude(moves: seq<Move>, a: ClientId, b: ClientId)
    requires Run(INIT, moves).Some? && Careful(INIT, moves)
    requires var w := Run(INIT, moves).value; ClientOf(w, a).phase.Critical? && ClientOf(w, b).phase.Critical?
    ensures a == b || Run(INIT, moves).value.early
  {
    CarefulRunIsNotStale(INIT, moves);
    MutualExclusion(moves, a, b);
  }

  // No client locks again.
  predicate LocksOnce(w: World, moves: seq<Move>)
    requires Run(w, moves).Some?
    decreases moves
  {
    moves == []
    || (!(moves[0].Request? && ClientOf(w, moves[0].client).phase.Unlocked?)
        && LocksOnce(Step(w, moves[0]).value, moves[1..]))
  }

  lemma {:induction false} LocksOnceIsCareful(w: World, moves: seq<Move>)
    requires Run(w, moves).Some? && LocksOnce(w, moves)
    ensures Careful(w, moves)
    decreases |moves|
  {
    if moves != [] {
      LocksOnceIsCareful(Step(w, moves[0]).value, moves[1..]);
    }
  }

  /** With one Lock per client, as in the sample, an early unlock timer is the only way to lose exclusion. */
  lemma OneLockEachExcludes(moves: seq<Move>, a: ClientId, b: ClientId)
    requires Run(INIT, moves).Some? && LocksOnce(INIT, moves)
    requires var w := Run(INIT, moves).value; ClientOf(w, a).phase.Critical? && ClientOf(w, b).phase.Critical?
    ensures a == b || Run(INIT, moves).value.early
  {
    LocksOnceIsCareful(INIT, moves);
    CarefulClientsExclude(moves, a, b);
  }

  // ---------- What the unlock timer gives up ----------

  lemma {:induction false} RunConcat(w: World, a: seq<Move>, b: seq<Move>)
    requires Run(w, a).Some?
    ensures Run(w, a + b) == Run(Run(w, a).value, b)
    decreases a
  {
    if a == [] {
      assert a + b == b;
    } else {
      assert (a + b)[1..] == a[1..] + b;
      RunConcat(Step(w, a[0]).value, a[1..], b);
    }
  }

  lemma FourMoves(w: World, m0: Move, m1: Move, m2: Move, m3: Move)
    requires Step(w, m0).Some? && Step(Step(w, m0).value, m1).Some?
    requires var w2 := Step(Step(w, m0).value, m1).value; Step(w2, m2).Some? && Step(Step(w2, m2).value, m3).Some?
    ensures var w2 := Step(Step(w, m0).value, m1).value;
      Run(w, [m0, m1, m2, m3]) == Step(Step(w2, m2).value, m3)
  {
    var moves := [m0, m1, m2, m3];
    var w1 := Step(w, m0).value;
    var w2 := Step(w1, m1).value;
    var w3 := Step(w2, m2).value;
    var w4 := Step(w3, m3).value;
    assert moves[3..][1..] == [] && moves[2..][1..] == moves[3..] && moves[1..][1..] == moves[2..];
    assert Run(w3, moves[3..]) == Some(w4);
    assert Run(w2, moves[2..]) == Some(w4);
    assert Run(w1, moves[1..]) == Some(w4);
  }

  lemma OneMove(w: World, m: Move)
    ensures Run(w, [m]) == Step(w, m)
  {
    assert [m][1..] == [];
  }

  /** Whenever the timer fires on a holder that is inside while another client waits, both can be inside. */
  lemma EarlyTimerBreaksExclusion(w: World, a: ClientId, b: ClientId)
    requires a != b && w.server.open && w.server.phase == Held(a) && w.server.queue != [] && w.server.queue[0] == b
    requires ClientOf(w, a).phase.Critical? && ClientOf(w, b).phase.Waiting?
    ensures var r := Run(w, [Timeout, Take, Deliver, Receive(b)]);
      && r.Some? && r.value.early && r.value.stale == w.stale
      && ClientOf(r.value, a).phase.Critical? && ClientOf(r.value, b).phase.Critical?
  {
    var w1 := Step(w, Timeout).value;
    var w2 := Step(w1, Take).value;
    assert w2.server.phase == Delivering(b) && ClientOf(w2, b) == ClientOf(w, b);
    var w3 := Step(w2, Deliver).value;
    assert ClientOf(w3, b).inbox != [];
    FourMoves(w, Timeout, Take, Deliver, Receive(b));
  }

  // The first client is inside and the second one has asked.
  function OneInside(a: ClientId, b: ClientId): seq<Move> {
    [Request(a), Take, Deliver, Receive(a)] + [Request(b)]
  }

  lemma OneInsideIsReached(a: ClientId, b: ClientId)
    requires a != b
    ensures Run(INIT, OneInside(a, b)).Some?
    ensures var w := Run(INIT, OneInside(a, b)).value;
      && w.server.open && w.server.phase == Held(a) && w.server.queue == [b] && !w.early && !w.stale
      && ClientOf(w, a).phase.Critical? && ClientOf(w, b).phase.Waiting?
  {
    var name := UnlockChannelName(a);
    var w1 := Step(INIT, Request(a)).value;
    var w2 := Step(w1, Take).value;
    assert w2.server.phase == Delivering(a) && ClientOf(w2, a) == Client(Waiting, 1, [], "");
    var w3 := Step(w2, Deliver).value;
    assert ClientOf(w3, a) == Client(Waiting, 1, [name], "");
    var w4 := Step(w3, Receive(a)).value;
    assert w4.server.queue == [] && ClientOf(w4, a).phase.Critical? && ClientOf(w4, b).phase.Idle?;
    FourMoves(INIT, Request(a), Take, Deliver, Receive(a));
    OneMove(w4, Request(b));
    RunConcat(INIT, [Request(a), Take, Deliver, Receive(a)], [Request(b)]);
  }

  /** From the start, any two clients can get inside together by way of an unlock timer that fires early. */
  lemma EarlyTimerIsReached(a: ClientId, b: ClientId)
    requires a != b
    ensures var r := Run(INIT, OneInside(a, b) + [Timeout, Take, Deliver, Receive(b)]);
      && r.Some? && r.value.early && !r.value.stale
      && ClientOf(r.value, a).phase.Critical? && ClientOf(r.value, b).phase.Critical?
  {
    OneInsideIsReached(a, b);
    EarlyTimerBreaksExclusion(Run(INIT, OneInside(a, b)).value, a, b);
    RunConcat(INIT, OneInside(a, b), [Timeout, Take, Deliver, Receive(b)]);
  }

  // ---------- What a retried request gives up ----------

  /**
   A client that locks again with an acquire signal left over gets inside at once, though the server waits for
   another client that is inside.
   */
  lemma LeftoverAcquireBreaksExclusion(w: World, a: ClientId, b: ClientId)
    requires a != b && w.server.open && w.server.phase == Held(b) && ClientOf(w, b).phase.Critical?
    requires ClientOf(w, a).phase.Unlocked? && ClientOf(w, a).inbox != []
    ensures Breaks(w, Request(a))
    ensures var r := Run(w, [Request(a), Receive(a)]);
      && r.Some? && r.value.stale && r.value.early == w.early
      && ClientOf(r.value, a).phase.Critical? && ClientOf(r.value, b).phase.Critical?
  {
    var w1 := Step(w, Request(a)).value;
    assert [Request(a), Receive(a)][1..] == [Receive(a)];
    OneMove(w1, Receive(a));
  }

  // The first client's request is retried; it is granted twice and has unlocked when the second one gets in.
  function Retried(a: ClientId, b: ClientId): seq<Move> {
    [Request(a), Request(a), Take, Deliver] + [Receive(a), Unlock(a), Arrive(1, UnlockChannelName(a)), Release]
    + [Take, Deliver, Timeout, Request(b)] + [Take, Deliver, Receive(b)]
  }

  lemma RetriedRequestIsGrantedTwice(a: ClientId) returns (w: World)
    ensures Run(INIT, [Request(a), Request(a), Take, Deliver]) == Some(w)
    ensures w == World(Server(true, 1, [a], Held(a), multiset{}, [a, a], [Granted(a)]),
                       map[a := Client(Waiting, 1, [UnlockChannelName(a)], "")], multiset{}, false, false)
  {
    var w1 := Step(INIT, Request(a)).value;
    var w2 := Step(w1, Request(a)).value;
    assert w2.server == Server(true, 1, [a, a], Polling, multiset{}, [a, a], []);
    assert w2.clients == map[a := Client(Waiting, 1, [], "")];
    var w3 := Step(w2, Take).value;
    assert [a, a][1..] == [a] && w3.server.queue == [a];
    w := Step(w3, Deliver).value;
    assert [] + [UnlockChannelName(a)] == [UnlockChannelName(a)];
    assert w.clients == map[a := Client(Waiting, 1, [UnlockChannelName(a)], "")];
    FourMoves(INIT, Request(a), Request(a), Take, Deliver);
  }

  lemma FirstLockIsReleased(a: ClientId, w: World) returns (r: World)
    requires w == World(Server(true, 1, [a], Held(a), multiset{}, [a, a], [Granted(a)]),
                        map[a := Client(Waiting, 1, [UnlockChannelName(a)], "")], multiset{}, false, false)
    ensures Run(w, [Receive(a), Unlock(a), Arrive(1, UnlockChannelName(a)), Release]) == Some(r)
    ensures r.server.open && r.server.run == 1 && r.server.queue == [a] && r.server.phase == Polling && !r.early && !r.stale
    ensures r.clients == map[a := Client(Unlocked, 1, [], UnlockChannelName(a))]
  {
    var name := UnlockChannelName(a);
    var w1 := Step(w, Receive(a)).value;
    assert [name][1..] == [];
    assert w1.clients == map[a := Client(Critical, 1, [], name)];
    var w2 := Step(w1, Unlock(a)).value;
    assert w2.inFlight == multiset{(1, name)} && w2.clients == map[a := Client(Unlocked, 1, [], name)];
    var w3 := Step(w2, Arrive(1, name)).value;
    assert name in w3.server.releases && w3.clients == w2.clients;
    r := Step(w3, Release).value;
    FourMoves(w, Receive(a), Unlock(a), Arrive(1, name), Release);
  }

  lemma SecondGrantTimesOut(a: ClientId, b: ClientId, w: World) returns (r: World)
    requires a != b
    requires w.server.open && w.server.queue == [a] && w.server.phase == Polling && !w.early && !w.stale
    requires w.clients == map[a := Client(Unlocked, 1, [], UnlockChannelName(a))]
    ensures Run(w, [Take, Deliver, Timeout, Request(b)]) == Some(r)
    ensures r.server.open && r.server.queue == [b] && r.server.phase == Polling && !r.early && !r.stale
    ensures ClientOf(r, a) == Client(Unlocked, 1, [UnlockChannelName(a)], UnlockChannelName(a))
    ensures ClientOf(r, b).phase.Waiting? && ClientOf(r, b).inbox == []
  {
    var w1 := Step(w, Take).value;
    var w2 := Step(w1, Deliver).value;
    assert ClientOf(w2, a) == Client(Unlocked, 1, [UnlockChannelName(a)], UnlockChannelName(a)) && ClientOf(w2, b).phase.Idle?;
    var w3 := Step(w2, Timeout).value;
    r := Step(w3, Request(b)).value;
    FourMoves(w, Take, Deliver, Timeout, Request(b));
  }

  lemma SecondClientGetsIn(a: ClientId, b: ClientId, w: World) returns (r: World)
    requires a != b
    requires w.server.open && w.server.queue == [b] && w.server.phase == Polling && !w.early && !w.stale
    requires ClientOf(w, b).phase.Waiting? && ClientOf(w, b).inbox == []
    ensures Run(w, [Take, Deliver, Receive(b)]) == Some(r)
    ensures r.server.open && r.server.phase == Held(b) && !r.early && !r.stale
    ensures ClientOf(r, a) == ClientOf(w, a) && ClientOf(r, b).phase.Critical?
  {
    var moves := [Take, Deliver, Receive(b)];
    var w1 := Step(w, Take).value;
    var w2 := Step(w1, Deliver).value;
    assert ClientOf(w2, b).inbox == [UnlockChannelName(b)];
    r := Step(w2, Receive(b)).value;
    assert moves[1..][1..] == moves[2..] == [Receive(b)];
    OneMove(w2, Receive(b));
    assert Run(w1, moves[1..]) == Some(r);
  }

  /**
   From the start, any two clients can get inside together though no timer ever fires on an owner of the lock:
   the first client's request is retried, and it locks again while the second client is inside.
   */
  lemma LeftoverAcquireIsReached(a: ClientId, b: ClientId)
    requires a != b
    ensures var r := Run(INIT, Retried(a, b) + [Request(a), Receive(a)]);
      && r.Some? && !r.value.early && r.value.stale
      && ClientOf(r.value, a).phase.Critical? && ClientOf(r.value, b).phase.Critical?
  {
    var p0, p1 := [Request(a), Request(a), Take, Deliver], [Receive(a), Unlock(a), Arrive(1, UnlockChannelName(a)), Release];
    var p2, p3 := [Take, Deliver, Timeout, Request(b)], [Take, Deliver, Receive(b)];
    var w0 := RetriedRequestIsGrantedTwice(a);
    var w1 := FirstLockIsReleased(a, w0);
    var w2 := SecondGrantTimesOut(a, b, w1);
    var w3 := SecondClientGetsIn(a, b, w2);
    RunConcat(INIT, p0, p1);
    RunConcat(INIT, p0 + p1, p2);
    RunConcat(INIT, p0 + p1 + p2, p3);
    LeftoverAcquireBreaksExclusion(w3, a, b);
    RunConcat(INIT, Retried(a, b), [Request(a), Receive(a)]);
  }
}
