/**
 The update-serving workflow of reqrespupdate/workflow.go: update handlers count requests and pending
 updates, and the main coroutine continues as new once enough requests came in and none is pending.

 The methods of the class are the code between two blocking calls. Updates and activity results arrive in any
 order.
 */
module Uppercaser {
  import opened Wrappers

  type Reply = Result<string, string>

  datatype Update = Pending(input: string) | Replied(input: string, reply: Reply)

  // `updates` are the accepted updates, `rejected` the others.
  datatype Service = Service(
    limit: nat, rejects: bool, requestCount: nat, pendingUpdates: int,
    updates: map<nat, Update>, rejected: set<nat>, continued: bool)

  datatype Move = Send(id: nat, input: string) | Answer(id: nat, result: Reply) | ContinueAsNew

  function Begin(limit: nat, rejects: bool): Service {
    Service(limit, rejects, 0, 0, map[], {}, false)
  }

  // `possible` says what the activity may answer to an input.
  function Step(s: Service, m: Move, possible: (string, Reply) -> bool): Option<Service> {
    if s.continued then None
    else match m
      case Send(id, input) =>
        if id in s.updates || id in s.rejected then None
        else if s.rejects && s.requestCount >= s.limit then Some(s.(rejected := s.rejected + {id}))
        else
          Some(s.(requestCount := s.requestCount + 1, pendingUpdates := s.pendingUpdates + 1,
                  updates := s.updates[id := Pending(input)]))
      case Answer(id, result) =>
        if id in s.updates && s.updates[id].Pending? && possible(s.updates[id].input, result) then
          Some(s.(pendingUpdates := s.pendingUpdates - 1, updates := s.updates[id := Replied(s.updates[id].input, result)]))
        else None
      case ContinueAsNew =>
        if s.requestCount >= s.limit && s.pendingUpdates == 0 then Some(s.(continued := true)) else None
  }

  // The counters that the closures of `run` share, and what the callers of the updates see.
  class UppercaserRun {
    const requestsBeforeContinueAsNew: nat
    const rejectOnPendingContinueAsNew: bool
    var requestCount: nat
    var pendingUpdates: int
    var updates: map<nat, Update>
    var rejected: set<nat>
    var continued: bool

    function Snapshot(): Service
      reads this
    {
      Service(requestsBeforeContinueAsNew, rejectOnPendingContinueAsNew, requestCount, pendingUpdates,
              updates, rejected, continued)
    }

    constructor (requestsBeforeContinueAsNew: nat, reject: bool)
      ensures Snapshot() == Begin(requestsBeforeContinueAsNew, reject)
    {
      this.requestsBeforeContinueAsNew := requestsBeforeContinueAsNew;
      rejectOnPendingContinueAsNew := reject;
      requestCount, pendingUpdates, updates, rejected, continued := 0, 0, map[], {}, false;
    }

    // The validator, and if it lets the update pass, the handler up to its activity.
    method Send(id: nat, input: string, ghost possible: (string, Reply) -> bool) returns (accepted: bool)
      requires !continued && id !in updates && id !in rejected
      modifies this
      ensures Some(Snapshot()) == Step(old(Snapshot()), Move.Send(id, input), possible)
      ensures accepted <==> id in updates
    {
      if rejectOnPendingContinueAsNew && requestCount >= requestsBeforeContinueAsNew {
        rejected := rejected + {id};
        return false;
      }
      requestCount := requestCount + 1;
      pendingUpdates := pendingUpdates + 1;
      updates := updates[id := Pending(input)];
      return true;
    }

    // The handler after its activity, which may have failed.
    method Answer(id: nat, result: Reply, ghost possible: (string, Reply) -> bool)
      requires !continued && id in updates && updates[id].Pending? && possible(updates[id].input, result)
      modifies this
      ensures Some(Snapshot()) == Step(old(Snapshot()), Move.Answer(id, result), possible)
    {
      updates := updates[id := Replied(updates[id].input, result)];
      pendingUpdates := pendingUpdates - 1;
    }

    // The main coroutine when its await condition is looked at.
    method TryContinueAsNew(ghost possible: (string, Reply) -> bool) returns (done: bool)
      requires !continued
      modifies this
      ensures done <==> Step(old(Snapshot()), ContinueAsNew, possible).Some?
      ensures Snapshot() == if done then Step(old(Snapshot()), ContinueAsNew, possible).value else old(Snapshot())
    {
      done := requestCount >= requestsBeforeContinueAsNew && pendingUpdates == 0;
      if done {
        continued := true;
      }
    }
  }

  function Run(s: Service, moves: seq<Move>, possible: (string, Reply) -> bool): Option<Service>
    decreases moves
  {
    if moves == [] then Some(s)
    else
      var s1 := Step(s, moves[0], possible);
      if s1.None? then None else Run(s1.value, moves[1..], possible)
  }

  function InFlight(s: Service): set<nat> {
    set id | id in s.updates && s.updates[id].Pending?
  }

  predicate Consistent(s: Service, possible: (string, Reply) -> bool) {
    && s.pendingUpdates == |InFlight(s)|
    && s.requestCount == |s.updates|
    && (s.rejects ==> s.requestCount <= s.limit)
    && (s.continued ==> s.pendingUpdates == 0 && s.requestCount >= s.limit)
    && forall id | id in s.updates && s.updates[id].Replied? :: possible(s.updates[id].input, s.updates[id].reply)
  }

  lemma SendKeepsConsistent(s: Service, id: nat, input: string, possible: (string, Reply) -> bool)
    requires Consistent(s, possible) && Step(s, Send(id, input), possible).Some?
    ensures Consistent(Step(s, Send(id, input), possible).value, possible)
  {
    var s1 := Step(s, Send(id, input), possible).value;
    if id in s1.updates {
      assert id !in InFlight(s);
      assert InFlight(s1) == InFlight(s) + {id};
    } else {
      assert InFlight(s1) == InFlight(s);
    }
  }

  lemma AnswerKeepsConsistent(s: Service, id: nat, result: Reply, possible: (string, Reply) -> bool)
    requires Consistent(s, possible) && Step(s, Answer(id, result), possible).Some?
    ensures Consistent(Step(s, Answer(id, result), possible).value, possible)
  {
    var s1 := Step(s, Answer(id, result), possible).value;
    assert InFlight(s1) == InFlight(s) - {id};
    assert s1.updates.Keys == s.updates.Keys;
    assert |s1.updates.Keys| == |s1.updates| && |s.updates.Keys| == |s.updates|;
  }

  lemma StepKeepsConsistent(s: Service, m: Move, possible: (string, Reply) -> bool)
    requires Consistent(s, possible) && Step(s, m, possible).Some?
    ensures Consistent(Step(s, m, possible).value, possible)
  {
    match m
    case Send(id, input) => SendKeepsConsistent(s, id, input, possible);
    case Answer(id, result) => AnswerKeepsConsistent(s, id, result, possible);
    case ContinueAsNew => assert InFlight(Step(s, m, possible).value) == InFlight(s);
  }

  lemma {:induction false} RunKeepsConsistent(s: Service, moves: seq<Move>, possible: (string, Reply) -> bool)
    requires Consistent(s, possible) && Run(s, moves, possible).Some?
    ensures Consistent(Run(s, moves, possible).value, possible)
    decreases |moves|
  {
    if moves != [] {
      StepKeepsConsistent(s, moves[0], possible);
      RunKeepsConsistent(Step(s, moves[0], possible).value, moves[1..], possible);
    }
  }

  // What was accepted stays, with its input, and what was answered keeps its answer.
  predicate Preserves(s: Service, t: Service) {
    && s.limit == t.limit && s.rejects == t.rejects
    && forall id | id in s.updates ::
         id in t.updates && t.updates[id].input == s.updates[id].input
         && (s.updates[id].Replied? ==> t.updates[id] == s.updates[id])
  }

  lemma {:induction false} AnswersAreFinal(s: Service, moves: seq<Move>, possible: (string, Reply) -> bool)
    requires Run(s, moves, possible).Some?
    ensures Preserves(s, Run(s, moves, possible).value)
    decreases |moves|
  {
    if moves != [] {
      AnswersAreFinal(Step(s, moves[0], possible).value, moves[1..], possible);
    }
  }

  /**
   Over every interleaving, pendingUpdates is the number of accepted updates without a reply; every reply is
   one that the activity may give to that update's own input; a run that continued as new has replied to
   every update that it accepted; and with rejection on, it never accepted more than the limit.
   */
  lemma DrainBeforeContinueAsNew(limit: nat, rejects: bool, moves: seq<Move>, possible: (string, Reply) -> bool)
    requires Run(Begin(limit, rejects), moves, possible).Some?
    ensures var s := Run(Begin(limit, rejects), moves, possible).value;
      && s.pendingUpdates == |InFlight(s)| && s.requestCount == |s.updates|
      && (forall id | id in s.updates && s.updates[id].Replied? :: possible(s.updates[id].input, s.updates[id].reply))
      && (s.continued ==> (forall id | id in s.updates :: s.updates[id].Replied?) && |s.updates| >= limit)
      && (rejects ==> |s.updates| <= limit)
  {
    var s := Run(Begin(limit, rejects), moves, possible).value;
    assert InFlight(Begin(limit, rejects)) == {};
    RunKeepsConsistent(Begin(limit, rejects), moves, possible);
    AnswersAreFinal(Begin(limit, rejects), moves, possible);
    if s.continued {
      forall id | id in s.updates ensures s.updates[id].Replied? {
        assert id !in InFlight(s);
      }
    }
  }

  // ---------- Which updates are accepted ----------

  predicate RejectsWhenFull(s: Service) {
    s.rejected != {} ==> s.rejects && s.requestCount >= s.limit
  }

  lemma {:induction false} RunKeepsRejectsWhenFull(s: Service, moves: seq<Move>, possible: (string, Reply) -> bool)
    requires RejectsWhenFull(s) && Run(s, moves, possible).Some?
    ensures RejectsWhenFull(Run(s, moves, possible).value)
    decreases |moves|
  {
    if moves != [] {
      RunKeepsRejectsWhenFull(Step(s, moves[0], possible).value, moves[1..], possible);
    }
  }

  /**
   Over every interleaving: nothing was rejected before as many updates as the limit had been accepted, and
   nothing ever without rejection. The next update is accepted exactly when rejection is off or fewer than the
   limit have been; an accepted one is pending, a rejected one changes neither count.
   */
  lemma RejectsOnlyWhenFull(limit: nat, rejects: bool, moves: seq<Move>, possible: (string, Reply) -> bool, id: nat, input: string)
    requires Run(Begin(limit, rejects), moves, possible).Some?
    requires var s := Run(Begin(limit, rejects), moves, possible).value;
      !s.continued && id !in s.updates && id !in s.rejected
    ensures var s := Run(Begin(limit, rejects), moves, possible).value;
      var t := Step(s, Send(id, input), possible);
      && (s.rejected != {} ==> rejects && |s.updates| >= limit)
      && t.Some?
      && (if !rejects || |s.updates| < limit then
            && t.value.updates == s.updates[id := Pending(input)] && t.value.rejected == s.rejected
            && t.value.pendingUpdates == s.pendingUpdates + 1 && t.value.requestCount == s.requestCount + 1
          else
            t.value == s.(rejected := s.rejected + {id}))
  {
    assert InFlight(Begin(limit, rejects)) == {};
    RunKeepsConsistent(Begin(limit, rejects), moves, possible);
    RunKeepsRejectsWhenFull(Begin(limit, rejects), moves, possible);
    AnswersAreFinal(Begin(limit, rejects), moves, possible);
  }

  /** A pending update can be given any answer that its activity may give, at any time, and then has that reply. */
  lemma PendingCanBeAnswered(s: Service, id: nat, reply: Reply, possible: (string, Reply) -> bool)
    requires !s.continued && id in s.updates && s.updates[id].Pending? && possible(s.updates[id].input, reply)
    ensures var t := Step(s, Answer(id, reply), possible);
      && t.Some? && t.value.updates == s.updates[id := Replied(s.updates[id].input, reply)]
      && InFlight(t.value) == InFlight(s) - {id} && |InFlight(t.value)| == |InFlight(s)| - 1
      && t.value.requestCount == s.requestCount && t.value.rejected == s.rejected
  {
    var t := Step(s, Answer(id, reply), possible).value;
    assert InFlight(t) == InFlight(s) - {id};
  }

  predicate Full(s: Service) {
    s.rejects && s.requestCount >= s.limit
  }

  /**
   Once the limit is reached with rejection on, the pending updates only go down: after any further moves
   their number has fallen by exactly the number of answers given.
   */
  lemma {:induction false} FullServiceOnlyDrains(s: Service, moves: seq<Move>, possible: (string, Reply) -> bool)
    requires Full(s) && Run(s, moves, possible).Some?
    ensures var t := Run(s, moves, possible).value;
      Full(t) && t.requestCount == s.requestCount && t.pendingUpdates == s.pendingUpdates - Answers(moves)
    decreases |moves|
  {
    if moves != [] {
      FullServiceOnlyDrains(Step(s, moves[0], possible).value, moves[1..], possible);
    }
  }

  function Answers(moves: seq<Move>): nat {
    if moves == [] then 0 else (if moves[0].Answer? then 1 else 0) + Answers(moves[1..])
  }

  /** As long as activities can answer, a service that has reached its limit can answer or continue as new. */
  lemma FullServiceIsNeverStuck(limit: nat, rejects: bool, moves: seq<Move>, possible: (string, Reply) -> bool,
                                upper: string -> Reply)
    requires Run(Begin(limit, rejects), moves, possible).Some?
    requires forall input :: possible(input, upper(input))
    requires var s := Run(Begin(limit, rejects), moves, possible).value; s.requestCount >= limit && !s.continued
    ensures var s := Run(Begin(limit, rejects), moves, possible).value;
      exists m: Move :: !m.Send? && Step(s, m, possible).Some?
  {
    var s := Run(Begin(limit, rejects), moves, possible).value;
    assert InFlight(Begin(limit, rejects)) == {};
    RunKeepsConsistent(Begin(limit, rejects), moves, possible);
    AnswersAreFinal(Begin(limit, rejects), moves, possible);
    if id :| id in InFlight(s) {
      assert Step(s, Answer(id, upper(s.updates[id].input)), possible).Some?;
    } else {
      assert InFlight(s) == {};
      assert Step(s, ContinueAsNew, possible).Some?;
    }
  }

  // Something is pending before and after every move, so the run cannot continue as new anywhere on the way.
  predicate AlwaysPending(s: Service, moves: seq<Move>, possible: (string, Reply) -> bool)
    decreases moves
  {
    && s.pendingUpdates > 0
    && (moves == []
        || (var s1 := Step(s, moves[0], possible); s1.Some? && AlwaysPending(s1.value, moves[1..], possible)))
  }

  lemma FreshId(ids: set<nat>) returns (unused: nat)
    ensures unused !in ids
  {
    unused := Above(ids);
  }

  lemma {:induction false} Above(ids: set<nat>) returns (bound: nat)
    ensures forall id | id in ids :: id < bound
    decreases |ids|
  {
    if id :| id in ids {
      var rest := Above(ids - {id});
      assert ids == (ids - {id}) + {id};
      bound := if rest > id then rest else id + 1;
    } else {
      bound := 0;
    }
  }

  /**
   Without rejection the run may never continue as new, though every update is answered: from any point at
   which something is pending, updates can come in so fast that for as long as one likes there is no moment
   without one.
   */
  lemma {:induction false} WithoutRejectionNeverDrains(
    s: Service, input: string, n: nat, possible: (string, Reply) -> bool, upper: string -> Reply) returns (moves: seq<Move>)
    requires Consistent(s, possible) && !s.rejects && !s.continued && s.pendingUpdates > 0
    requires forall x :: possible(x, upper(x))
    ensures Answers(moves) == n && AlwaysPending(s, moves, possible)
    decreases n
  {
    if n == 0 {
      return [];
    }
    var next := FreshId(s.updates.Keys + s.rejected);
    var oldest :| oldest in InFlight(s);
    var send, answer := Send(next, input), Answer(oldest, upper(s.updates[oldest].input));
    var s1 := Step(s, send, possible).value;
    var s2 := Step(s1, answer, possible).value;
    StepKeepsConsistent(s, send, possible);
    StepKeepsConsistent(s1, answer, possible);
    var rest := WithoutRejectionNeverDrains(s2, input, n - 1, possible, upper);
    moves := [send, answer] + rest;
    assert moves[1..] == [answer] + rest && moves[1..][1..] == rest;
  }
}
