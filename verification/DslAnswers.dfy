/**
 What the activities answered, read from the moves of a schedule and not from what the interpreter made of
 them: the outcome of a workflow is determined by the answers its activities really gave.
 */
module DslAnswers {
  import opened Wrappers
  import opened Dsl
  import opened DslOutcome

  // The activity that a move answers for, and its answer. It depends on the shape of the tree only.
  function AnswerOf(t: Task, m: Move): Option<(nat, ActivityResult)>
    decreases m
  {
    match m
    case In(child, move) => if !t.Leaf? && child < |t.children| then AnswerOf(t.children[child], move) else None
    case Finish(result) => if t.Leaf? then Some((t.id, result)) else None
    case _ => None
  }

  // Activity id gave this answer in some move of the schedule.
  predicate Answered(t: Task, moves: seq<Move>, id: nat, result: ActivityResult) {
    exists k | 0 <= k < |moves| :: AnswerOf(t, moves[k]) == Some((id, result))
  }

  // An activity of t has this number and has ended like this.
  predicate EndedAs(t: Task, id: nat, err: Option<Error>) {
    if t.Leaf? then t.id == id && t.state == Ended(err)
    else exists k: nat | k < |t.children| :: EndedAs(t.children[k], id, err)
  }

  // How an activity ends that gives this answer.
  function ErrorOf(id: nat, result: ActivityResult): Option<Error> {
    match result
    case Success(_) => None
    case Failure(reason) => Some(ActivityError(id, reason))
    case Cancellation => Some(Canceled)
  }

  lemma {:induction false} ShapeFixesAnswer(t: Task, u: Task, m: Move)
    requires SameShape(t, u)
    ensures AnswerOf(t, m) == AnswerOf(u, m)
    decreases m
  {
    if m.In? && !t.Leaf? && m.child < |t.children| {
      ShapeFixesAnswer(t.children[m.child], u.children[m.child], m.move);
    }
  }

  // ---------- One step ----------

  lemma {:induction false} AnswerEnds(t: Task, m: Move, c: bool, b: Bindings, permits: Permits)
    requires Next(t, m, c, b, permits).Some? && AnswerOf(t, m).Some?
    ensures var (id, result) := AnswerOf(t, m).value;
      EndedAs(Next(t, m, c, b, permits).value.task, id, ErrorOf(id, result))
    decreases m
  {
    if m.In? {
      AnswerEnds(t.children[m.child], m.move, c || Aborted(t), b, permits);
      var u := Next(t, m, c, b, permits).value.task;
      var (id, result) := AnswerOf(t, m).value;
      assert EndedAs(u.children[m.child], id, ErrorOf(id, result));
    }
  }

  lemma {:induction false} EndedStays(t: Task, m: Move, c: bool, b: Bindings, permits: Permits, id: nat, err: Option<Error>)
    requires Next(t, m, c, b, permits).Some? && EndedAs(t, id, err)
    ensures EndedAs(Next(t, m, c, b, permits).value.task, id, err)
    decreases m
  {
    if !t.Leaf? {
      var u := Next(t, m, c, b, permits).value.task;
      var k: nat :| k < |t.children| && EndedAs(t.children[k], id, err);
      if m.In? && m.child == k {
        EndedStays(t.children[k], m.move, c || Aborted(t), b, permits, id, err);
      }
      assert EndedAs(u.children[k], id, err);
    }
  }

  lemma {:induction false} OnlyAnswersEnd(t: Task, m: Move, c: bool, b: Bindings, permits: Permits, id: nat, err: Option<Error>)
    requires Next(t, m, c, b, permits).Some? && EndedAs(Next(t, m, c, b, permits).value.task, id, err)
    ensures EndedAs(t, id, err) || exists result :: AnswerOf(t, m) == Some((id, result)) && err == ErrorOf(id, result)
    decreases m
  {
    var u := Next(t, m, c, b, permits).value.task;
    if t.Leaf? {
      if m.Finish? && !EndedAs(t, id, err) {
        assert AnswerOf(t, m) == Some((id, m.result)) && err == ErrorOf(id, m.result);
      }
    } else {
      var k: nat :| k < |u.children| && EndedAs(u.children[k], id, err);
      if m.In? && m.child == k {
        OnlyAnswersEnd(t.children[k], m.move, c || Aborted(t), b, permits, id, err);
      }
      assert EndedAs(t.children[k], id, err) ==> EndedAs(t, id, err);
    }
  }

  // ---------- Along a run ----------

  lemma {:induction false} RunEndsAnswered(s: State, moves: seq<Move>, permits: Permits, id: nat, err: Option<Error>)
    requires Run(s, moves, permits).Some?
    requires EndedAs(s.task, id, err) || exists result :: Answered(s.task, moves, id, result) && err == ErrorOf(id, result)
    ensures EndedAs(Run(s, moves, permits).value.task, id, err)
    decreases |moves|
  {
    if moves != [] {
      var s1 := Step(s, moves[0], permits).value;
      if EndedAs(s.task, id, err) {
        EndedStays(s.task, moves[0], false, s.bindings, permits, id, err);
      } else {
        var result :| Answered(s.task, moves, id, result) && err == ErrorOf(id, result);
        var k :| 0 <= k < |moves| && AnswerOf(s.task, moves[k]) == Some((id, result));
        if k == 0 {
          AnswerEnds(s.task, moves[0], false, s.bindings, permits);
        } else {
          StepKeepsShape(s.task, moves[0], false, s.bindings, permits);
          ShapeFixesAnswer(s.task, s1.task, moves[k]);
          assert moves[1..][k - 1] == moves[k];
          assert Answered(s1.task, moves[1..], id, result);
        }
      }
      RunEndsAnswered(s1, moves[1..], permits, id, err);
    }
  }

  lemma {:induction false} OnlyAnsweredEnd(s: State, moves: seq<Move>, permits: Permits, id: nat, err: Option<Error>)
    requires Run(s, moves, permits).Some? && EndedAs(Run(s, moves, permits).value.task, id, err)
    ensures EndedAs(s.task, id, err) || exists result :: Answered(s.task, moves, id, result) && err == ErrorOf(id, result)
    decreases |moves|
  {
    if moves != [] {
      var s1 := Step(s, moves[0], permits).value;
      OnlyAnsweredEnd(s1, moves[1..], permits, id, err);
      if EndedAs(s1.task, id, err) {
        OnlyAnswersEnd(s.task, moves[0], false, s.bindings, permits, id, err);
        if !EndedAs(s.task, id, err) {
          var result :| AnswerOf(s.task, moves[0]) == Some((id, result)) && err == ErrorOf(id, result);
          assert Answered(s.task, moves, id, result);
        }
      } else {
        var result :| Answered(s1.task, moves[1..], id, result) && err == ErrorOf(id, result);
        var k :| 0 <= k < |moves| - 1 && AnswerOf(s1.task, moves[1..][k]) == Some((id, result));
        StepKeepsShape(s.task, moves[0], false, s.bindings, permits);
        ShapeFixesAnswer(s.task, s1.task, moves[k + 1]);
        assert AnswerOf(s.task, moves[k + 1]) == Some((id, result));
      }
    }
  }

  // ---------- The outcome ----------

  lemma {:induction false} FreshHasNotEnded(t: Task, lo: nat, id: nat, err: Option<Error>)
    requires Fresh(t, lo)
    ensures !EndedAs(t, id, err)
    decreases t, 1
  {
    if !t.Leaf? {
      FreshHaveNotEnded(t.children, lo, id, err);
    }
  }

  lemma {:induction false} FreshHaveNotEnded(ts: seq<Task>, lo: nat, id: nat, err: Option<Error>)
    requires FreshAll(ts, lo)
    ensures forall k: nat | k < |ts| :: !EndedAs(ts[k], id, err)
    decreases ts, 0
  {
    if ts != [] {
      FreshHasNotEnded(ts[0], lo, id, err);
      FreshHaveNotEnded(ts[1..], lo + Leaves(ts[0]), id, err);
      assert forall k: nat | 0 < k < |ts| :: ts[k] == ts[1..][k - 1];
    }
  }

  lemma {:induction false} NilEndsAll(t: Task, cancelled: bool, id: nat)
    requires Sound(t, cancelled) && StatusOf(t) == Returned(None) && Owns(t, id)
    ensures EndedAs(t, id, None)
    decreases t
  {
    if !t.Leaf? {
      var k: nat :| k < |t.children| && Owns(t.children[k], id);
      NilEndsAll(t.children[k], cancelled || Aborted(t), id);
      assert EndedAs(t.children[k], id, None);
    }
  }

  lemma {:induction false} FailedHasEnded(t: Task, cancelled: bool, e: Error)
    requires Sound(t, cancelled) && HasFailed(t, e) && e.ActivityError?
    ensures EndedAs(t, e.id, Some(e))
    decreases t
  {
    if !t.Leaf? {
      var k: nat :| k < |t.children| && HasFailed(t.children[k], e);
      FailedHasEnded(t.children[k], cancelled || Aborted(t), e);
      assert EndedAs(t.children[k], e.id, Some(e));
    }
  }

  // An activity ends in one way only.
  lemma {:induction false} EndsOneWay(t: Task, id: nat, a: Option<Error>, b: Option<Error>)
    requires Numbered(t) && EndedAs(t, id, a) && EndedAs(t, id, b)
    ensures a == b
    decreases t
  {
    if !t.Leaf? {
      var j: nat :| j < |t.children| && EndedAs(t.children[j], id, a);
      var k: nat :| k < |t.children| && EndedAs(t.children[k], id, b);
      EndedIsOwned(t.children[j], id, a);
      EndedIsOwned(t.children[k], id, b);
      assert j == k;
      EndsOneWay(t.children[j], id, a, b);
    }
  }

  lemma {:induction false} EndedIsOwned(t: Task, id: nat, err: Option<Error>)
    requires EndedAs(t, id, err)
    ensures Owns(t, id)
    decreases t
  {
    if !t.Leaf? {
      var k: nat :| k < |t.children| && EndedAs(t.children[k], id, err);
      EndedIsOwned(t.children[k], id, err);
    }
  }

  ghost predicate AnsweredAs(t: Task, moves: seq<Move>, id: nat, err: Option<Error>) {
    exists result :: Answered(t, moves, id, result) && err == ErrorOf(id, result)
  }

  ghost predicate AnsweredSuccess(t: Task, moves: seq<Move>, id: nat) {
    exists value :: Answered(t, moves, id, Success(value))
  }

  lemma EndedIffAnswered(root: Statement, variables: Bindings, moves: seq<Move>, permits: Permits, id: nat, err: Option<Error>)
    requires Run(Init(root, variables), moves, permits).Some?
    ensures EndedAs(Run(Init(root, variables), moves, permits).value.task, id, err)
       <==> AnsweredAs(Load(root, 0), moves, id, err)
  {
    var s := Init(root, variables);
    if EndedAs(Run(s, moves, permits).value.task, id, err) {
      LoadIsFresh(root, 0);
      FreshHasNotEnded(s.task, 0, id, err);
      OnlyAnsweredEnd(s, moves, permits, id, err);
    } else if AnsweredAs(s.task, moves, id, err) {
      RunEndsAnswered(s, moves, permits, id, err);
    }
  }

  // The error tells what was answered.
  lemma AnsweredAsMeans(t: Task, moves: seq<Move>, id: nat, reason: string)
    ensures AnsweredAs(t, moves, id, None) <==> AnsweredSuccess(t, moves, id)
    ensures AnsweredAs(t, moves, id, Some(ActivityError(id, reason))) <==> Answered(t, moves, id, Failure(reason))
    ensures AnsweredAs(t, moves, id, Some(Canceled)) <==> Answered(t, moves, id, Cancellation)
  {
    if AnsweredAs(t, moves, id, None) {
      var result :| Answered(t, moves, id, result) && None == ErrorOf(id, result);
      assert Answered(t, moves, id, Success(result.value));
    }
    if value :| Answered(t, moves, id, Success(value)) {
      assert ErrorOf(id, Success(value)) == None;
    }
    assert ErrorOf(id, Failure(reason)) == Some(ActivityError(id, reason)) && ErrorOf(id, Cancellation) == Some(Canceled);
  }

  /**
   In every schedule an activity ends exactly as it answered: in success after a success, with its own number
   and the reason given after a failure, as cancelled after a cancellation; and only if it answered.
   */
  lemma EndsAsAnswered(root: Statement, variables: Bindings, moves: seq<Move>, permits: Permits, id: nat, reason: string)
    requires Run(Init(root, variables), moves, permits).Some?
    ensures var t, r := Load(root, 0), Run(Init(root, variables), moves, permits).value.task;
      && (EndedAs(r, id, None) <==> AnsweredSuccess(t, moves, id))
      && (EndedAs(r, id, Some(ActivityError(id, reason))) <==> Answered(t, moves, id, Failure(reason)))
      && (EndedAs(r, id, Some(Canceled)) <==> Answered(t, moves, id, Cancellation))
  {
    EndedIffAnswered(root, variables, moves, permits, id, None);
    EndedIffAnswered(root, variables, moves, permits, id, Some(ActivityError(id, reason)));
    EndedIffAnswered(root, variables, moves, permits, id, Some(Canceled));
    AnsweredAsMeans(Load(root, 0), moves, id, reason);
  }

  // A success, and nothing else, was the answer.
  ghost predicate OnlySucceeded(t: Task, moves: seq<Move>, id: nat) {
    AnsweredSuccess(t, moves, id) && forall result | Answered(t, moves, id, result) :: result.Success?
  }

  lemma EndedInSuccess(root: Statement, variables: Bindings, moves: seq<Move>, permits: Permits, id: nat)
    requires Run(Init(root, variables), moves, permits).Some?
    requires EndedAs(Run(Init(root, variables), moves, permits).value.task, id, None)
    ensures OnlySucceeded(Load(root, 0), moves, id)
  {
    var s := Init(root, variables);
    InitIsInvariant(root, variables);
    RunKeepsInvariant(s, moves, permits);
    EndsAsAnswered(root, variables, moves, permits, id, "");
    forall result | Answered(s.task, moves, id, result) ensures result.Success? {
      RunEndsAnswered(s, moves, permits, id, ErrorOf(id, result));
      EndsOneWay(Run(s, moves, permits).value.task, id, None, ErrorOf(id, result));
    }
  }

  /**
   A workflow that returned nil had a success, and nothing else, as the answer of every activity. A workflow
   that returned an error had it as the failure that the named activity answered with.
   */
  lemma OutcomeIsAnswered(root: Statement, variables: Bindings, moves: seq<Move>, permits: Permits)
    requires Run(Init(root, variables), moves, permits).Some?
    requires StatusOf(Run(Init(root, variables), moves, permits).value.task).Returned?
    ensures var t, err := Load(root, 0), StatusOf(Run(Init(root, variables), moves, permits).value.task).err;
      && (err.None? ==> forall id: nat | id < Size(root) :: OnlySucceeded(t, moves, id))
      && (err.Some? ==>
            err.value.ActivityError? && err.value.id < Size(root) && Answered(t, moves, err.value.id, Failure(err.value.reason)))
  {
    var r := Run(Init(root, variables), moves, permits).value;
    InitIsInvariant(root, variables);
    RunKeepsInvariant(Init(root, variables), moves, permits);
    if StatusOf(r.task).err.None? {
      forall id: nat | id < Size(root) ensures OnlySucceeded(Load(root, 0), moves, id) {
        NilEndsAll(r.task, false, id);
        EndedInSuccess(root, variables, moves, permits, id);
      }
    } else {
      var e := StatusOf(r.task).err.value;
      ErrorIsGenuine(r.task, false);
      FailedHasEnded(r.task, false, e);
      EndsAsAnswered(root, variables, moves, permits, e.id, e.reason);
      EndedIsOwned(r.task, e.id, Some(e));
    }
  }

  /** One failure anywhere, of an activity that was not cancelled, is enough: the workflow cannot return nil. */
  lemma FailureIsNotLost(root: Statement, variables: Bindings, moves: seq<Move>, permits: Permits, id: nat, reason: string)
    requires Run(Init(root, variables), moves, permits).Some?
    requires Answered(Load(root, 0), moves, id, Failure(reason))
    ensures StatusOf(Run(Init(root, variables), moves, permits).value.task) != Returned(None)
  {
    var r := Run(Init(root, variables), moves, permits).value;
    InitIsInvariant(root, variables);
    RunKeepsInvariant(Init(root, variables), moves, permits);
    EndsAsAnswered(root, variables, moves, permits, id, reason);
    EndedIsOwned(r.task, id, Some(ActivityError(id, reason)));
    if StatusOf(r.task) == Returned(None) {
      NilEndsAll(r.task, false, id);
      EndsOneWay(r.task, id, None, Some(ActivityError(id, reason)));
      assert false;
    }
  }

  // ---------- Cancellation ----------

  // The move lets an activity answer.
  predicate Answers(m: Move) {
    if m.In? then Answers(m.move) else m.Finish?
  }

  function WithAnswer(m: Move, result: ActivityResult): Move {
    match m
    case In(child, move) => In(child, WithAnswer(move, result))
    case _ => Finish(result)
  }

  // Some parallel block on the way down has aborted.
  predicate PassesAborted(t: Task, m: Move)
    decreases m
  {
    m.In? && !t.Leaf? && m.child < |t.children| && (Aborted(t) || PassesAborted(t.children[m.child], m.move))
  }

  /**
   Wherever an activity can answer, it can be cancelled exactly when a parallel block around it has aborted, at
   any depth, or the whole was cancelled.
   */
  lemma {:induction false} CancellationIsExact(t: Task, m: Move, c: bool, b: Bindings, permits: Permits)
    requires Answers(m) && Next(t, m, c, b, permits).Some?
    ensures Next(t, WithAnswer(m, Cancellation), c, b, permits).Some? <==> c || PassesAborted(t, m)
    decreases m
  {
    if m.In? {
      CancellationIsExact(t.children[m.child], m.move, c || Aborted(t), b, permits);
    }
  }

  /** A success puts its value into the result variable, if there is one, and touches no other; the others write nothing. */
  lemma {:induction false} AnswerWrites(t: Task, m: Move, c: bool, b: Bindings, permits: Permits)
    requires Next(t, m, c, b, permits).Some?
    ensures var after := Apply(Next(t, m, c, b, permits).value.write, b);
      match ResultVariable(t, m)
      case Some((x, value)) => x in after && after[x] == value && forall y | y != x :: y in after <==> y in b
      case None => after == b
    ensures forall y | ResultVariable(t, m).None? || y != ResultVariable(t, m).value.0 ::
      Lookup(Apply(Next(t, m, c, b, permits).value.write, b), y) == Lookup(b, y)
    decreases m
  {
    if m.In? {
      AnswerWrites(t.children[m.child], m.move, c || Aborted(t), b, permits);
    }
  }

  // The variable that the move gives a value, if it is a success with a result variable.
  function ResultVariable(t: Task, m: Move): Option<(string, string)>
    decreases m
  {
    match m
    case In(child, move) => if !t.Leaf? && child < |t.children| then ResultVariable(t.children[child], move) else None
    case Finish(Success(value)) => if t.Leaf? && t.inv.result != "" then Some((t.inv.result, value)) else None
    case _ => None
  }
}
