/**
 The promises of the DSL interpreter in terms of the statements that a user writes, without the coroutine
 tree: which activities come before which, and which statements race.
 */
module DslStatement {
  import opened Wrappers
  import opened Dsl
  import opened DslConfluence
  import opened DslOutcome

  // ---------- Order ----------

  // Activities are numbered in program order: parallel part, sequence part, activity. Activity i of s, whose
  // activities are numbered from lo, must have succeeded before activity j starts: they are in different
  // parts of one statement, or in different elements of one sequence.
  predicate Earlier(s: Statement, lo: nat, i: nat, j: nat)
    decreases s, 1
  {
    var mid1 := lo + ParallelSize(s);
    var mid2 := mid1 + SequenceSize(s);
    || (lo <= i < mid1 <= j < lo + Size(s))
    || (mid1 <= i < mid2 <= j < lo + Size(s))
    || (s.parallel.Some? && EarlierInBranches(s.parallel.value.branches, lo, i, j))
    || (s.sequence.Some? && EarlierInElements(s.sequence.value.elements, mid1, i, j))
  }

  predicate EarlierInBranches(ss: seq<Statement>, lo: nat, i: nat, j: nat)
    decreases ss, 0
  {
    ss != [] && (Earlier(ss[0], lo, i, j) || EarlierInBranches(ss[1..], lo + Size(ss[0]), i, j))
  }

  predicate EarlierInElements(ss: seq<Statement>, lo: nat, i: nat, j: nat)
    decreases ss, 0
  {
    && ss != []
    && (|| (lo <= i < lo + Size(ss[0]) <= j < lo + SizeAll(ss))
        || Earlier(ss[0], lo, i, j)
        || EarlierInElements(ss[1..], lo + Size(ss[0]), i, j))
  }

  // Some task of the list orders i before j, or an earlier task has i and a later one j.
  ghost predicate PrecedesWithin(ts: seq<Task>, i: nat, j: nat) {
    exists k: nat | k < |ts| :: Precedes(ts[k], i, j)
  }

  ghost predicate PrecedesAcross(ts: seq<Task>, i: nat, j: nat) {
    exists a: nat, c: nat | a < c < |ts| :: Owns(ts[a], i) && Owns(ts[c], j)
  }

  lemma OwnedOnLoad(s: Statement, lo: nat, id: nat)
    ensures Owns(Load(s, lo), id) <==> lo <= id < lo + Size(s)
  {
    LoadIsFresh(s, lo);
    FreshIsSound(Load(s, lo), lo);
  }

  lemma OwnedOnLoadAll(ss: seq<Statement>, lo: nat, id: nat)
    ensures OwnsAny(LoadAll(ss, lo), id) <==> lo <= id < lo + SizeAll(ss)
  {
    LoadAllIsFresh(ss, lo);
    FreshAllIsSound(LoadAll(ss, lo), lo);
  }

  lemma {:induction false} EarlierPrecedes(s: Statement, lo: nat, i: nat, j: nat)
    requires Earlier(s, lo, i, j)
    ensures Precedes(Load(s, lo), i, j)
    decreases s, 1
  {
    var t := Load(s, lo);
    var mid1 := lo + ParallelSize(s);
    var mid2 := mid1 + SequenceSize(s);
    var p, q, a := LoadParallel(s, lo), LoadSequence(s, mid1), LoadActivity(s, mid2);
    assert t.children == p + q + a;
    if s.parallel.Some? && EarlierInBranches(s.parallel.value.branches, lo, i, j) {
      BranchesPrecede(s.parallel.value.branches, lo, i, j);
      assert Precedes(p[0], i, j) && t.children[0] == p[0];
    } else if s.sequence.Some? && EarlierInElements(s.sequence.value.elements, mid1, i, j) {
      ElementsPrecede(s.sequence.value.elements, mid1, i, j);
      assert Precedes(q[0], i, j) && t.children[|p|] == q[0];
    } else {
      PartsOwn(s, lo, i);
      PartsOwn(s, lo, j);
    }
  }

  // Which part of a statement an activity is in.
  lemma PartsOwn(s: Statement, lo: nat, id: nat)
    requires lo <= id < lo + Size(s)
    ensures var cs := Load(s, lo).children;
      var p, q := |LoadParallel(s, lo)|, |LoadSequence(s, lo + ParallelSize(s))|;
      && (id < lo + ParallelSize(s) ==> p == 1 && Owns(cs[0], id))
      && (lo + ParallelSize(s) <= id < lo + ParallelSize(s) + SequenceSize(s) ==> q == 1 && Owns(cs[p], id))
      && (id >= lo + ParallelSize(s) + SequenceSize(s) ==> |cs| == p + q + 1 && Owns(cs[p + q], id))
  {
    var mid1 := lo + ParallelSize(s);
    var mid2 := mid1 + SequenceSize(s);
    var p, q, a := LoadParallel(s, lo), LoadSequence(s, mid1), LoadActivity(s, mid2);
    assert Load(s, lo).children == p + q + a;
    if id < mid1 {
      OwnedOnLoadAll(s.parallel.value.branches, lo, id);
      assert Owns(p[0], id);
    } else if id < mid2 {
      OwnedOnLoadAll(s.sequence.value.elements, mid1, id);
      assert Owns(q[0], id);
    } else {
      assert Owns(a[0], id);
    }
  }

  lemma {:induction false} BranchesPrecede(ss: seq<Statement>, lo: nat, i: nat, j: nat)
    requires EarlierInBranches(ss, lo, i, j)
    ensures PrecedesWithin(LoadAll(ss, lo), i, j)
    decreases ss, 0
  {
    var rest := LoadAll(ss[1..], lo + Size(ss[0]));
    if Earlier(ss[0], lo, i, j) {
      EarlierPrecedes(ss[0], lo, i, j);
      assert Precedes(LoadAll(ss, lo)[0], i, j);
    } else {
      BranchesPrecede(ss[1..], lo + Size(ss[0]), i, j);
      var k: nat :| k < |rest| && Precedes(rest[k], i, j);
      assert Precedes(LoadAll(ss, lo)[k + 1], i, j);
    }
  }

  lemma LaterPrecede(t: Task, rest: seq<Task>, i: nat, j: nat)
    requires PrecedesWithin(rest, i, j) || PrecedesAcross(rest, i, j)
    ensures PrecedesWithin([t] + rest, i, j) || PrecedesAcross([t] + rest, i, j)
  {
    if k: nat :| k < |rest| && Precedes(rest[k], i, j) {
      assert ([t] + rest)[k + 1] == rest[k];
    } else {
      var a: nat, c: nat :| a < c < |rest| && Owns(rest[a], i) && Owns(rest[c], j);
      assert ([t] + rest)[a + 1] == rest[a] && ([t] + rest)[c + 1] == rest[c];
    }
  }

  lemma FirstPrecedes(t: Task, rest: seq<Task>, i: nat, j: nat)
    requires Owns(t, i) && OwnsAny(rest, j)
    ensures PrecedesAcross([t] + rest, i, j)
  {
    var c: nat :| c < |rest| && Owns(rest[c], j);
    assert ([t] + rest)[0] == t && ([t] + rest)[c + 1] == rest[c];
  }

  lemma {:induction false} ElementsPrecede(ss: seq<Statement>, lo: nat, i: nat, j: nat)
    requires EarlierInElements(ss, lo, i, j)
    ensures PrecedesWithin(LoadAll(ss, lo), i, j) || PrecedesAcross(LoadAll(ss, lo), i, j)
    decreases ss, 0
  {
    var first, rest := Load(ss[0], lo), LoadAll(ss[1..], lo + Size(ss[0]));
    if Earlier(ss[0], lo, i, j) {
      EarlierPrecedes(ss[0], lo, i, j);
      assert Precedes(LoadAll(ss, lo)[0], i, j);
    } else if EarlierInElements(ss[1..], lo + Size(ss[0]), i, j) {
      ElementsPrecede(ss[1..], lo + Size(ss[0]), i, j);
      LaterPrecede(first, rest, i, j);
    } else {
      OwnedOnLoad(ss[0], lo, i);
      OwnedOnLoadAll(ss[1..], lo + Size(ss[0]), j);
      FirstPrecedes(first, rest, i, j);
    }
  }

  /** Whenever an activity starts, every activity that the statements place before it has succeeded. */
  lemma StatementsRunInOrder(root: Statement, variables: Bindings, moves: seq<Move>, permits: Permits, n: nat, i: nat, j: nat)
    requires Run(Init(root, variables), moves, permits).Some? && Earlier(root, 0, i, j)
    requires n < |Run(Init(root, variables), moves, permits).value.log|
    requires Run(Init(root, variables), moves, permits).value.log[n] == Started(j)
    ensures RanOnce(Run(Init(root, variables), moves, permits).value.log[..n], i)
  {
    EarlierPrecedes(root, 0, i, j);
    SequencesRunInOrder(root, variables, moves, permits, n, i, j);
  }

  // ---------- Races ----------

  // An activity of s with a result variable reads x.
  predicate Uses(s: Statement, x: string)
    decreases s, 1
  {
    || (s.parallel.Some? && UsesAny(s.parallel.value.branches, x))
    || (s.sequence.Some? && UsesAny(s.sequence.value.elements, x))
    || (s.activity.Some? && x in s.activity.value.arguments && s.activity.value.result != "")
  }

  predicate UsesAny(ss: seq<Statement>, x: string)
    decreases ss, 0
  {
    ss != [] && (Uses(ss[0], x) || UsesAny(ss[1..], x))
  }

  predicate Sets(s: Statement, x: string)
    decreases s, 1
  {
    || (s.parallel.Some? && SetsAny(s.parallel.value.branches, x))
    || (s.sequence.Some? && SetsAny(s.sequence.value.elements, x))
    || (s.activity.Some? && x == s.activity.value.result != "")
  }

  predicate SetsAny(ss: seq<Statement>, x: string)
    decreases ss, 0
  {
    ss != [] && (Sets(ss[0], x) || SetsAny(ss[1..], x))
  }

  // Neither sets a variable that the other one sets or uses.
  ghost predicate Independent(s: Statement, others: seq<Statement>) {
    forall x :: (Sets(s, x) ==> !UsesAny(others, x) && !SetsAny(others, x)) && (SetsAny(others, x) ==> !Uses(s, x))
  }

  ghost predicate Untangled(s: Statement)
    decreases s, 1
  {
    && (s.parallel.Some? ==> UntangledAll(s.parallel.value.branches) && AllIndependent(s.parallel.value.branches))
    && (s.sequence.Some? ==> UntangledAll(s.sequence.value.elements))
  }

  ghost predicate UntangledAll(ss: seq<Statement>)
    decreases ss, 0
  {
    ss != [] ==> Untangled(ss[0]) && UntangledAll(ss[1..])
  }

  ghost predicate AllIndependent(ss: seq<Statement>) {
    ss != [] ==> Independent(ss[0], ss[1..]) && AllIndependent(ss[1..])
  }

  predicate ReadsAny(ts: seq<Task>, x: string) {
    exists k: nat | k < |ts| :: Reads(ts[k], x)
  }

  predicate WritesAny(ts: seq<Task>, x: string) {
    exists k: nat | k < |ts| :: Writes(ts[k], x)
  }

  lemma {:induction false} LoadTouches(s: Statement, lo: nat, x: string)
    ensures Reads(Load(s, lo), x) <==> Uses(s, x)
    ensures Writes(Load(s, lo), x) <==> Sets(s, x)
    decreases s, 2
  {
    var mid1 := lo + ParallelSize(s);
    var mid2 := mid1 + SequenceSize(s);
    var p, q, a := LoadParallel(s, lo), LoadSequence(s, mid1), LoadActivity(s, mid2);
    ParallelTouches(s, lo, x);
    SequenceTouches(s, mid1, x);
    if s.activity.Some? { OneTouches(a[0], x); }
    AnyOfConcat(p, q, x);
    AnyOfConcat(p + q, a, x);
    BlockTouches(Load(s, lo), x);
  }

  lemma {:induction false} ParallelTouches(s: Statement, lo: nat, x: string)
    ensures ReadsAny(LoadParallel(s, lo), x) <==> s.parallel.Some? && UsesAny(s.parallel.value.branches, x)
    ensures WritesAny(LoadParallel(s, lo), x) <==> s.parallel.Some? && SetsAny(s.parallel.value.branches, x)
    decreases s, 1
  {
    if s.parallel.Some? {
      LoadAllTouches(s.parallel.value.branches, lo, x);
      BlockTouches(LoadParallel(s, lo)[0], x);
      OneTouches(LoadParallel(s, lo)[0], x);
    }
  }

  lemma {:induction false} SequenceTouches(s: Statement, lo: nat, x: string)
    ensures ReadsAny(LoadSequence(s, lo), x) <==> s.sequence.Some? && UsesAny(s.sequence.value.elements, x)
    ensures WritesAny(LoadSequence(s, lo), x) <==> s.sequence.Some? && SetsAny(s.sequence.value.elements, x)
    decreases s, 1
  {
    if s.sequence.Some? {
      LoadAllTouches(s.sequence.value.elements, lo, x);
      BlockTouches(LoadSequence(s, lo)[0], x);
      OneTouches(LoadSequence(s, lo)[0], x);
    }
  }

  lemma OneTouches(t: Task, x: string)
    ensures ReadsAny([t], x) <==> Reads(t, x)
    ensures WritesAny([t], x) <==> Writes(t, x)
  {
    assert [t][0] == t;
  }

  lemma BlockTouches(t: Task, x: string)
    requires !t.Leaf?
    ensures Reads(t, x) <==> ReadsAny(t.children, x)
    ensures Writes(t, x) <==> WritesAny(t.children, x)
  {}

  lemma AnyOfConcat(xs: seq<Task>, ys: seq<Task>, x: string)
    ensures ReadsAny(xs + ys, x) <==> ReadsAny(xs, x) || ReadsAny(ys, x)
    ensures WritesAny(xs + ys, x) <==> WritesAny(xs, x) || WritesAny(ys, x)
  {
    var all := xs + ys;
    assert forall k: nat | k < |xs| :: all[k] == xs[k];
    assert forall k: nat | k < |ys| :: all[|xs| + k] == ys[k];
    assert forall k: nat | |xs| <= k < |all| :: all[k] == ys[k - |xs|];
  }

  lemma {:induction false} LoadAllTouches(ss: seq<Statement>, lo: nat, x: string)
    ensures ReadsAny(LoadAll(ss, lo), x) <==> UsesAny(ss, x)
    ensures WritesAny(LoadAll(ss, lo), x) <==> SetsAny(ss, x)
    decreases ss, 0
  {
    if ss != [] {
      LoadTouches(ss[0], lo, x);
      LoadAllTouches(ss[1..], lo + Size(ss[0]), x);
      var head := [Load(ss[0], lo)];
      AnyOfConcat(head, LoadAll(ss[1..], lo + Size(ss[0])), x);
      assert ReadsAny(head, x) <==> Reads(head[0], x);
      assert WritesAny(head, x) <==> Writes(head[0], x);
    }
  }

  lemma {:induction false} UntangledIsRaceFree(s: Statement, lo: nat)
    requires Untangled(s)
    ensures RaceFree(Load(s, lo))
    decreases s, 1
  {
    var mid1 := lo + ParallelSize(s);
    var mid2 := mid1 + SequenceSize(s);
    var p, q, a := LoadParallel(s, lo), LoadSequence(s, mid1), LoadActivity(s, mid2);
    if s.parallel.Some? {
      UntangledAreRaceFree(s.parallel.value.branches, lo);
      IndependentAreClear(s.parallel.value.branches, lo);
      BlockIsRaceFree(p[0], LoadAll(s.parallel.value.branches, lo));
    }
    if s.sequence.Some? {
      UntangledAreRaceFree(s.sequence.value.elements, mid1);
      BlockIsRaceFree(q[0], LoadAll(s.sequence.value.elements, mid1));
    }
    assert Load(s, lo).children == p + q + a;
    assert forall k: nat | k < |p + q + a| :: (p + q + a)[k] in p || (p + q + a)[k] in q || (p + q + a)[k] in a;
  }

  lemma BlockIsRaceFree(t: Task, ts: seq<Task>)
    requires !t.Leaf? && t.children == ts && forall k: nat | k < |ts| :: RaceFree(ts[k])
    requires t.Fork? ==> forall j: nat, k: nat | j < |ts| && k < |ts| && j != k :: Clear(ts[j], ts[k])
    ensures RaceFree(t)
  {}

  lemma {:induction false} UntangledAreRaceFree(ss: seq<Statement>, lo: nat)
    requires UntangledAll(ss)
    ensures forall k: nat | k < |LoadAll(ss, lo)| :: RaceFree(LoadAll(ss, lo)[k])
    decreases ss, 0
  {
    if ss != [] {
      UntangledIsRaceFree(ss[0], lo);
      UntangledAreRaceFree(ss[1..], lo + Size(ss[0]));
    }
  }

  lemma {:induction false} IndependentAreClear(ss: seq<Statement>, lo: nat)
    requires AllIndependent(ss)
    ensures forall j: nat, k: nat | j < |LoadAll(ss, lo)| && k < |LoadAll(ss, lo)| && j != k ::
      Clear(LoadAll(ss, lo)[j], LoadAll(ss, lo)[k])
    decreases ss
  {
    if ss != [] {
      var ts, rest := LoadAll(ss, lo), LoadAll(ss[1..], lo + Size(ss[0]));
      IndependentAreClear(ss[1..], lo + Size(ss[0]));
      forall k: nat | k < |rest| ensures Clear(ts[0], rest[k]) && Clear(rest[k], ts[0]) {
        IndependentIsClear(ss, lo, k);
      }
      forall j: nat, k: nat | j < |ts| && k < |ts| && j != k ensures Clear(ts[j], ts[k]) {
        assert j > 0 ==> ts[j] == rest[j - 1];
        assert k > 0 ==> ts[k] == rest[k - 1];
      }
    }
  }

  lemma IndependentIsClear(ss: seq<Statement>, lo: nat, k: nat)
    requires ss != [] && Independent(ss[0], ss[1..]) && k < |LoadAll(ss[1..], lo + Size(ss[0]))|
    ensures var head, other := Load(ss[0], lo), LoadAll(ss[1..], lo + Size(ss[0]))[k]; Clear(head, other) && Clear(other, head)
  {
    var head, rest := Load(ss[0], lo), LoadAll(ss[1..], lo + Size(ss[0]));
    forall x ensures (Writes(head, x) ==> !Reads(rest[k], x) && !Writes(rest[k], x))
      && (Writes(rest[k], x) ==> !Reads(head, x) && !Writes(head, x))
    {
      LoadTouches(ss[0], lo, x);
      LoadAllTouches(ss[1..], lo + Size(ss[0]), x);
      assert Reads(rest[k], x) ==> ReadsAny(rest, x);
      assert Writes(rest[k], x) ==> WritesAny(rest, x);
    }
  }

  /**
   When no branch of any parallel block sets a variable that another branch of it sets or uses, and no activity
   fails, every schedule in which the workflow returns, returns nil with the bindings of the sequential run.
   */
  lemma UntangledIsConfluent(root: Statement, variables: Bindings, moves: seq<Move>, f: Activities)
    requires Untangled(root)
    requires Run(Init(root, variables), moves, Functional(f)).Some?
    requires StatusOf(Run(Init(root, variables), moves, Functional(f)).value.task).Returned?
    ensures var r := Run(Init(root, variables), moves, Functional(f)).value;
      StatusOf(r.task) == Returned(None) && r.bindings == Sequential(root, variables, f)
  {
    UntangledIsRaceFree(root, 0);
    Confluence(root, variables, moves, f);
  }
}
