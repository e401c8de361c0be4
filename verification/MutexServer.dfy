/**
 The loop of the lock server in mutex/mutex_workflow.go, over a script of what its environment does: the
 requests in order, each until its release or its timer, and the same steps as the server of the state machine.
 */
module MutexServer {
  import opened Wrappers
  import opened Mutex
  import opened MutexService

  // What happens while one request is in hand: whether its acquire signal is delivered, when the release
  // arrives, if ever, and who asks meanwhile.
  datatype Turn = Turn(delivered: bool, release: Option<nat>, arrivals: seq<ClientId>)

  datatype Ending = Skipped | ReleasedAfter(time: nat) | TimerFired

  function Arrivals(turns: seq<Turn>): seq<ClientId> {
    if turns == [] then [] else Arrivals(turns[..|turns| - 1]) + turns[|turns| - 1].arrivals
  }

  // The selector takes the release if it comes before the timer fires.
  predicate EndsAs(turn: Turn, unlockTimeout: nat, ending: Ending) {
    match ending
    case Skipped => !turn.delivered
    case ReleasedAfter(time) => turn.delivered && turn.release == Some(time) && time <= unlockTimeout
    case TimerFired => turn.delivered && (turn.release.None? || turn.release.value > unlockTimeout)
  }

  function TimeOf(ending: Ending, unlockTimeout: nat): nat {
    match ending
    case Skipped => 0
    case ReleasedAfter(time) => time
    case TimerFired => unlockTimeout
  }

  function TimeHeld(endings: seq<Ending>, unlockTimeout: nat): nat {
    if endings == [] then 0
    else TimeHeld(endings[..|endings| - 1], unlockTimeout) + TimeOf(endings[|endings| - 1], unlockTimeout)
  }

  lemma {:induction false} HeldIsBounded(endings: seq<Ending>, unlockTimeout: nat)
    requires forall i | 0 <= i < |endings| :: endings[i].ReleasedAfter? ==> endings[i].time <= unlockTimeout
    ensures TimeHeld(endings, unlockTimeout) <= |endings| * unlockTimeout
    decreases |endings|
  {
    if endings != [] {
      HeldIsBounded(endings[..|endings| - 1], unlockTimeout);
      OneMoreGone(|endings| - 1, unlockTimeout);
    }
  }

  lemma OneHandled(handled: seq<ClientId>, channel: seq<ClientId>, more: seq<ClientId>, requests: seq<ClientId>, arrived: seq<ClientId>)
    requires channel != [] && handled + channel == requests + arrived
    ensures handled + [channel[0]] + (channel[1..] + more) == requests + (arrived + more)
  {
    assert channel == [channel[0]] + channel[1..];
    assert handled + [channel[0]] + (channel[1..] + more) == (handled + channel) + more;
  }

  // ---------- The loop serves as the state machine does ----------

  function ServeAll(s: Server, events: seq<Event>): Option<Server>
    decreases events
  {
    if events == [] then Some(s)
    else
      var s1 := Serve(s, events[0]);
      if s1.None? then None else ServeAll(s1.value, events[1..])
  }

  lemma {:induction false} ServeConcat(s: Server, a: seq<Event>, b: seq<Event>)
    requires ServeAll(s, a).Some?
    ensures ServeAll(s, a + b) == ServeAll(ServeAll(s, a).value, b)
    decreases a
  {
    if a == [] {
      assert a + b == b;
    } else {
      assert (a + b)[1..] == a[1..] + b;
      ServeConcat(Serve(s, a[0]).value, a[1..], b);
    }
  }

  lemma ServeOne(s: Server, e: Event)
    ensures ServeAll(s, [e]) == Serve(s, e)
  {
    assert [e][1..] == [];
  }

  function Requests(clients: seq<ClientId>): seq<Event> {
    seq(|clients|, i requires 0 <= i < |clients| => Asked(clients[i]))
  }

  lemma {:induction false} ServeRequests(s: Server, clients: seq<ClientId>)
    requires s.open
    ensures ServeAll(s, Requests(clients)) == Some(s.(queue := s.queue + clients, received := s.received + clients))
    decreases clients
  {
    if clients != [] {
      assert Requests(clients)[0] == Asked(clients[0]) && Requests(clients)[1..] == Requests(clients[1..]);
      ServeRequests(Serve(s, Asked(clients[0])).value, clients[1..]);
      assert s.queue + [clients[0]] + clients[1..] == s.queue + clients;
      assert s.received + [clients[0]] + clients[1..] == s.received + clients;
    } else {
      assert s.queue + clients == s.queue && s.received + clients == s.received;
    }
  }

  // How a turn ends: the release of the client in hand arrives, or its timer fires, or neither if it was skipped.
  function EndOfTurn(sender: ClientId, ending: Ending): seq<Event> {
    match ending
    case Skipped => []
    case ReleasedAfter(_) => [Signalled(UnlockChannelName(sender)), Released]
    case TimerFired => [TimedOut]
  }

  function Mark(sender: ClientId, ending: Ending): Handled {
    if ending.Skipped? then Undeliverable(sender) else Granted(sender)
  }

  lemma ServeEnd(s: Server, sender: ClientId, ending: Ending)
    requires s.open && s.phase == Held(sender) && !ending.Skipped?
    ensures var r := ServeAll(s, EndOfTurn(sender, ending));
      r.Some? && r.value.(releases := s.releases) == s.(phase := Polling)
  {
    if ending.TimerFired? {
      ServeOne(s, TimedOut);
    } else {
      var s1 := Serve(s, Signalled(UnlockChannelName(sender))).value;
      ServeOne(s1, Released);
      assert EndOfTurn(sender, ending)[1..] == [Released];
    }
  }

  // A whole turn: the request is taken, others arrive, its acquire signal is sent, and the lock is given back.
  lemma ServeTurn(s: Server, arrivals: seq<ClientId>, ending: Ending) returns (events: seq<Event>, r: Server)
    requires s.open && s.phase == Polling && s.queue != []
    ensures ServeAll(s, events) == Some(r) && r.open && r.run == s.run && r.phase == Polling
    ensures r.queue == s.queue[1..] + arrivals && r.received == s.received + arrivals
    ensures r.handled == s.handled + [Mark(s.queue[0], ending)]
  {
    var sender := s.queue[0];
    var s1 := Serve(s, Took).value;
    ServeOne(s, Took);
    ServeRequests(s1, arrivals);
    var s2 := ServeAll(s1, Requests(arrivals)).value;
    ServeConcat(s, [Took], Requests(arrivals));
    var s3 := Serve(s2, Delivered(!ending.Skipped?)).value;
    ServeOne(s2, Delivered(!ending.Skipped?));
    events := [Took] + Requests(arrivals);
    ServeConcat(s, events, [Delivered(!ending.Skipped?)]);
    events, r := events + [Delivered(!ending.Skipped?)], s3;
    if !ending.Skipped? {
      ServeEnd(s3, sender, ending);
      ServeConcat(s, events, EndOfTurn(sender, ending));
      events := events + EndOfTurn(sender, ending);
      r := ServeAll(s, events).value;
    }
  }

  // A run that has just been started with these requests.
  function Opened(requests: seq<ClientId>): Server {
    Server(true, 1, requests, Polling, multiset{}, requests, [])
  }

  // The server has handled these clients, each with this ending.
  predicate HandledAs(s: Server, handled: seq<ClientId>, endings: seq<Ending>) {
    && |s.handled| == |handled| == |endings|
    && forall i | 0 <= i < |handled| :: s.handled[i] == Mark(handled[i], endings[i])
  }

  lemma HandledOneMore(s: Server, r: Server, handled: seq<ClientId>, endings: seq<Ending>, sender: ClientId, ending: Ending)
    requires HandledAs(s, handled, endings) && r.handled == s.handled + [Mark(sender, ending)]
    ensures HandledAs(r, handled + [sender], endings + [ending])
  {}

  lemma OneTurn(script: seq<Turn>, endings: seq<Ending>, ending: Ending, n: nat, unlockTimeout: nat)
    requires n == |endings| < |script|
    ensures Arrivals(script[..n + 1]) == Arrivals(script[..n]) + script[n].arrivals
    ensures TimeHeld(endings + [ending], unlockTimeout) == TimeHeld(endings, unlockTimeout) + TimeOf(ending, unlockTimeout)
  {
    assert (endings + [ending])[..n] == endings;
    assert script[..n + 1][..n] == script[..n];
  }

  // What the state machine says when the loop comes round.
  ghost predicate ServedSoFar(
    requests: seq<ClientId>, channel: seq<ClientId>, handled: seq<ClientId>, endings: seq<Ending>, events: seq<Event>, last: Server)
  {
    && ServeAll(Opened(requests), events) == Some(last) && HandledAs(last, handled, endings)
    && last.open && last.phase == Polling && last.queue == channel
  }

  lemma ServedOneMore(
    requests: seq<ClientId>, channel: seq<ClientId>, handled: seq<ClientId>, endings: seq<Ending>, events: seq<Event>, last: Server,
    arrivals: seq<ClientId>, ending: Ending) returns (more: seq<Event>, next: Server)
    requires ServedSoFar(requests, channel, handled, endings, events, last) && channel != []
    ensures ServedSoFar(requests, channel[1..] + arrivals, handled + [channel[0]], endings + [ending], more, next)
  {
    more, next := ServeTurn(last, arrivals, ending);
    ServeConcat(Opened(requests), events, more);
    HandledOneMore(last, next, handled, endings, channel[0], ending);
    more := events + more;
  }

  // The selector between the release and the timer.
  method Select(turn: Turn, unlockTimeout: nat) returns (ending: Ending, time: nat)
    ensures EndsAs(turn, unlockTimeout, ending) && time == TimeOf(ending, unlockTimeout) <= unlockTimeout
  {
    if !turn.delivered {
      return Skipped, 0;
    }
    if turn.release.Some? && turn.release.value <= unlockTimeout {
      return ReleasedAfter(turn.release.value), turn.release.value;
    }
    return TimerFired, unlockTimeout;
  }

  /**
   One run of the server over what its environment does in each turn: the requests in order, each with the way
   its turn ended, and the time that the run took. It ends by itself when the channel is empty; `ended` is
   false when the script ends first, with a request in hand. It goes through `events` as the server of the
   state machine does, up to `last`, and can end exactly when that one can.
   */
  method MutexWorkflow(requests: seq<ClientId>, script: seq<Turn>, unlockTimeout: nat)
    returns (handled: seq<ClientId>, endings: seq<Ending>, elapsed: nat, ended: bool, ghost events: seq<Event>, ghost last: Server)
    ensures |handled| == |endings| <= |script|
    ensures handled <= requests + Arrivals(script[..|handled|])
    ensures ended <==> handled == requests + Arrivals(script[..|handled|])
    ensures !ended ==> |handled| == |script|
    ensures forall i | 0 <= i < |handled| :: EndsAs(script[i], unlockTimeout, endings[i])
    ensures elapsed == TimeHeld(endings, unlockTimeout) <= |handled| * unlockTimeout
    ensures ServeAll(Opened(requests), events) == Some(last) && HandledAs(last, handled, endings)
    ensures ended <==> Serve(last, Ended).Some?
  {
    events, last := [], Opened(requests);
    var channel := requests;
    handled, endings, elapsed := [], [], 0;
    while |handled| < |script| && channel != []
      invariant |handled| == |endings| <= |script|
      invariant handled + channel == requests + Arrivals(script[..|handled|])
      invariant forall i | 0 <= i < |handled| :: EndsAs(script[i], unlockTimeout, endings[i])
      invariant elapsed == TimeHeld(endings, unlockTimeout)
      invariant ServedSoFar(requests, channel, handled, endings, events, last)
      decreases |script| - |handled|
    {
      var sender := channel[0];
      var turn := script[|handled|];
      var ending, time := Select(turn, unlockTimeout);
      OneTurn(script, endings, ending, |handled|, unlockTimeout);
      OneHandled(handled, channel, turn.arrivals, requests, Arrivals(script[..|handled|]));
      events, last := ServedOneMore(requests, channel, handled, endings, events, last, turn.arrivals, ending);
      elapsed := elapsed + time;
      channel := channel[1..] + turn.arrivals;
      handled := handled + [sender];
      endings := endings + [ending];
    }
    ended := channel == [];
    HeldIsBounded(endings, unlockTimeout);
  }
}
