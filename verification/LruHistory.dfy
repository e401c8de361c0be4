/**
 What the cache promises over every history of operations: the order of its list is the order of use, its
 size stays below maxSize, an entry holds the value last stored for its key, its reference count is the
 balance of its users, and when entries expire.
 */
module LruHistory {
  import opened Wrappers
  import opened LruSpec
  import opened LruKeep

  function Before(history: seq<Op>): seq<Op>
    requires history != []
  {
    history[..|history| - 1]
  }

  function Last(history: seq<Op>): Op
    requires history != []
  {
    history[|history| - 1]
  }

  lemma {:induction false} ContentsAreDistinct(cfg: Config, history: seq<Op>)
    ensures DistinctKeys(Contents(cfg, history))
    decreases |history|
  {
    if history != [] {
      ContentsAreDistinct(cfg, Before(history));
      PerformKeepsDistinct(cfg, Contents(cfg, Before(history)), Last(history));
    }
  }

  lemma PerformKeepsDistinct(cfg: Config, items: seq<Item>, op: Op)
    requires DistinctKeys(items)
    ensures DistinctKeys(Perform(cfg, items, op).items)
  {
    var after := Perform(cfg, items, op).items;
    if Has(items, op.key) {
      var i := IndexOf(items, op.key);
      RemoveKeepsKeys(items, i);
      if op.ReleaseOp? {
        assert after == items[i := items[i].(refs := items[i].refs - 1)];
      } else {
        var rest := Remove(items, i);
        assert after == items || after == rest || after == [after[0]] + rest;
      }
    } else if after != items {
      assert op.PutOp? || op.PutIfNotExistOp?;
      NewKeepsDistinct(items, Item(op.key, op.value, Expiry(cfg, op.now), Pinned(cfg)));
    }
  }

  lemma NewKeepsDistinct(items: seq<Item>, item: Item)
    requires DistinctKeys(items) && !Has(items, item.key)
    ensures var grown := [item] + items; DistinctKeys(grown) && DistinctKeys(grown[..|grown| - 1])
  {}

  // ---------- Order ----------

  // The operation gets or puts its key, and the key is in the cache after it.
  predicate Uses(cfg: Config, items: seq<Item>, op: Op) {
    var a := Perform(cfg, items, op);
    !op.DeleteOp? && !op.ReleaseOp? && a.outcome != Panic && Has(a.items, op.key)
  }

  predicate LastUses(cfg: Config, history: seq<Op>)
    requires history != []
  {
    Uses(cfg, Contents(cfg, Before(history)), Last(history))
  }

  // The number of the last operation that used the key, counted from one.
  function LastUse(cfg: Config, history: seq<Op>, key: string): (n: nat)
    ensures n <= |history|
    decreases |history|
  {
    if history == [] then 0
    else if Last(history).key == key && LastUses(cfg, history) then |history|
    else LastUse(cfg, Before(history), key)
  }

  predicate InOrderOfUse(cfg: Config, history: seq<Op>, items: seq<Item>) {
    forall i, j | 0 <= i < j < |items| ::
      LastUse(cfg, history, items[i].key) > LastUse(cfg, history, items[j].key)
  }

  lemma RemoveKeepsOrder(cfg: Config, history: seq<Op>, items: seq<Item>, i: nat)
    requires InOrderOfUse(cfg, history, items) && i < |items|
    ensures InOrderOfUse(cfg, history, Remove(items, i))
  {}

  lemma OthersKeepLastUse(cfg: Config, history: seq<Op>, key: string)
    requires history != [] && (key != Last(history).key || !LastUses(cfg, history))
    ensures LastUse(cfg, history, key) == LastUse(cfg, Before(history), key) < |history|
  {}

  lemma UserHasLastUse(cfg: Config, history: seq<Op>)
    requires history != [] && LastUses(cfg, history)
    ensures LastUse(cfg, history, Last(history).key) == |history|
  {}

  // The items of other keys keep their order when an operation uses its own key.
  lemma UseInFront(cfg: Config, history: seq<Op>, rest: seq<Item>, item: Item)
    requires history != [] && InOrderOfUse(cfg, Before(history), rest)
    requires item.key == Last(history).key && forall j | 0 <= j < |rest| :: rest[j].key != item.key
    requires LastUses(cfg, history)
    ensures InOrderOfUse(cfg, history, [item] + rest)
  {
    var items := [item] + rest;
    UserHasLastUse(cfg, history);
    forall i, j | 0 <= i < j < |items|
      ensures LastUse(cfg, history, items[i].key) > LastUse(cfg, history, items[j].key)
    {
      OthersKeepLastUse(cfg, history, rest[j - 1].key);
      if i > 0 {
        OthersKeepLastUse(cfg, history, rest[i - 1].key);
      }
    }
  }

  lemma UnusedKeepsOrder(cfg: Config, history: seq<Op>, items: seq<Item>)
    requires history != [] && InOrderOfUse(cfg, Before(history), items)
    requires !LastUses(cfg, history)
    ensures InOrderOfUse(cfg, history, items)
  {
    forall i, j | 0 <= i < j < |items|
      ensures LastUse(cfg, history, items[i].key) > LastUse(cfg, history, items[j].key)
    {
      OthersKeepLastUse(cfg, history, items[i].key);
      OthersKeepLastUse(cfg, history, items[j].key);
    }
  }

  predicate SameKeys(a: seq<Item>, b: seq<Item>) {
    |a| == |b| && forall i | 0 <= i < |a| :: a[i].key == b[i].key
  }

  lemma UsedIsInFront(cfg: Config, items: seq<Item>, op: Op)
    requires DistinctKeys(items) && Uses(cfg, items, op)
    ensures var after := Perform(cfg, items, op).items;
      && after != [] && after[0].key == op.key
      && if Has(items, op.key) then after[1..] == Remove(items, IndexOf(items, op.key)) else after[1..] <= items
  {
    if Has(items, op.key) {
      PresentIsInFront(cfg, items, op);
    } else {
      NewIsInFront(cfg, items, op);
    }
  }

  lemma PresentIsInFront(cfg: Config, items: seq<Item>, op: Op)
    requires DistinctKeys(items) && Uses(cfg, items, op) && Has(items, op.key)
    ensures var after := Perform(cfg, items, op).items;
      after != [] && after[0].key == op.key && after[1..] == Remove(items, IndexOf(items, op.key))
  {
    var after, rest := Perform(cfg, items, op).items, Remove(items, IndexOf(items, op.key));
    RemoveKeepsKeys(items, IndexOf(items, op.key));
    assert after == rest || after == [after[0]] + rest;
  }

  lemma NewIsInFront(cfg: Config, items: seq<Item>, op: Op)
    requires Uses(cfg, items, op) && !Has(items, op.key)
    ensures var after := Perform(cfg, items, op).items;
      after != [] && after[0].key == op.key && after[1..] <= items
  {
    var after := Perform(cfg, items, op).items;
    assert op.PutOp? || op.PutIfNotExistOp?;
    var grown := [Item(op.key, op.value, Expiry(cfg, op.now), Pinned(cfg))] + items;
    assert after == items || after == grown || after == grown[..|grown| - 1];
    assert grown[1..] == items;
    if after == grown[..|grown| - 1] && after != [] {
      assert after[1..] == items[..|items| - 1];
    }
  }

  lemma UnusedKeepsKeys(cfg: Config, items: seq<Item>, op: Op)
    requires DistinctKeys(items) && !Uses(cfg, items, op)
    ensures var after := Perform(cfg, items, op).items;
      SameKeys(after, items) || (Has(items, op.key) && after == Remove(items, IndexOf(items, op.key)))
  {
    var after := Perform(cfg, items, op).items;
    if !op.DeleteOp? && !op.ReleaseOp? && after != [] {
      assert after[0] in after;
    }
  }

  lemma UseStep(cfg: Config, history: seq<Op>, items: seq<Item>, after: seq<Item>)
    requires history != [] && DistinctKeys(items) && DistinctKeys(after) && InOrderOfUse(cfg, Before(history), items)
    requires LastUses(cfg, history) && after != [] && after[0].key == Last(history).key
    requires (exists i: nat | i < |items| :: after[1..] == Remove(items, i)) || after[1..] <= items
    ensures InOrderOfUse(cfg, history, after)
  {
    var rest := after[1..];
    if i: nat :| i < |items| && rest == Remove(items, i) {
      RemoveKeepsOrder(cfg, Before(history), items, i);
    }
    UseInFront(cfg, history, rest, after[0]);
    assert after == [after[0]] + rest;
  }

  lemma NoUseStep(cfg: Config, history: seq<Op>, items: seq<Item>, after: seq<Item>)
    requires history != [] && InOrderOfUse(cfg, Before(history), items)
    requires !LastUses(cfg, history)
    requires SameKeys(after, items) || exists i: nat | i < |items| :: after == Remove(items, i)
    ensures InOrderOfUse(cfg, history, after)
  {
    UnusedKeepsOrder(cfg, history, items);
    if i: nat :| i < |items| && after == Remove(items, i) {
      RemoveKeepsOrder(cfg, history, items, i);
    }
  }

  /** The list is the keys in the order of their last use, the most recent first. */
  lemma {:induction false} OrderIsRecency(cfg: Config, history: seq<Op>)
    ensures InOrderOfUse(cfg, history, Contents(cfg, history))
    decreases |history|
  {
    if history != [] {
      var items := Contents(cfg, Before(history));
      OrderIsRecency(cfg, Before(history));
      ContentsAreDistinct(cfg, history);
      ContentsAreDistinct(cfg, Before(history));
      if LastUses(cfg, history) {
        UsedIsInFront(cfg, items, Last(history));
        UseStep(cfg, history, items, Contents(cfg, history));
      } else {
        UnusedKeepsKeys(cfg, items, Last(history));
        NoUseStep(cfg, history, items, Contents(cfg, history));
      }
    }
  }

  // ---------- Size ----------

  /** A cache made for maxSize >= 1 entries holds at most maxSize - 1. */
  lemma {:induction false} SizeStaysBelowMax(cfg: Config, history: seq<Op>)
    requires cfg.maxSize >= 1
    ensures |Contents(cfg, history)| < cfg.maxSize
    decreases |history|
  {
    if history != [] {
      SizeStaysBelowMax(cfg, Before(history));
    }
  }

  // ---------- What an entry holds ----------

  // The users of a key since it entered the cache: successful puts and gets when entries are pinned, less
  // the releases.
  function Balance(cfg: Config, history: seq<Op>, key: string): int
    decreases |history|
  {
    if history == [] || !Has(Contents(cfg, history), key) then 0
    else Balance(cfg, Before(history), key) + Delta(cfg, Last(history), key)
  }

  function Delta(cfg: Config, op: Op, key: string): int {
    if op.key != key then 0
    else match op
      case GetOp(_, _) => Pinned(cfg)
      case PutOp(_, _, _) => 0
      case PutIfNotExistOp(_, _, _) => Pinned(cfg)
      case DeleteOp(_) => 0
      case ReleaseOp(_) => -1
  }

  // The value last stored for a key: PutIfNotExist stores only when the key is absent.
  function Stored(cfg: Config, history: seq<Op>, key: string): Value
    decreases |history|
  {
    if history == [] then Nil
    else
      var op := Last(history);
      if op.key == key && op.PutOp? && !cfg.pin then op.value
      else if op.key == key && op.PutIfNotExistOp? && !Has(Contents(cfg, Before(history)), key) then op.value
      else Stored(cfg, Before(history), key)
  }

  // When the key was last put, by either kind of put.
  function LastPut(cfg: Config, history: seq<Op>, key: string): Option<int>
    decreases |history|
  {
    if history == [] then None
    else
      var op := Last(history);
      if op.key == key && ((op.PutOp? && !cfg.pin) || op.PutIfNotExistOp?) then Some(op.now)
      else LastPut(cfg, Before(history), key)
  }

  predicate Accounted(cfg: Config, history: seq<Op>, item: Item) {
    && item.refs == Balance(cfg, history, item.key)
    && item.value == Stored(cfg, history, item.key)
    && LastPut(cfg, history, item.key).Some?
    && item.expiration == Expiry(cfg, LastPut(cfg, history, item.key).value)
  }

  predicate AllAccounted(cfg: Config, history: seq<Op>) {
    forall i | 0 <= i < |Contents(cfg, history)| :: Accounted(cfg, history, Contents(cfg, history)[i])
  }

  lemma OthersUnchanged(cfg: Config, items: seq<Item>, op: Op, item: Item)
    requires DistinctKeys(items) && item in Perform(cfg, items, op).items && item.key != op.key
    ensures item in items
  {}

  // The entry that an operation leaves under its own key.
  lemma OwnEntry(cfg: Config, items: seq<Item>, op: Op, item: Item)
    requires DistinctKeys(items) && item in Perform(cfg, items, op).items && item.key == op.key
    ensures !op.DeleteOp?
    ensures Has(items, op.key) ==>
      var was := items[IndexOf(items, op.key)];
      match op
      case GetOp(_, _) => item == was.(refs := was.refs + Pinned(cfg))
      case PutOp(_, value, now) => item == if cfg.pin then was else Refreshed(cfg, was, value, now, true)
      case PutIfNotExistOp(_, value, now) => item == Refreshed(cfg, was, value, now, false)
      case DeleteOp(_) => true
      case ReleaseOp(_) => item == was.(refs := was.refs - 1)
    ensures !Has(items, op.key) ==>
      || (op.PutOp? && !cfg.pin && item == Item(op.key, op.value, Expiry(cfg, op.now), 0))
      || (op.PutIfNotExistOp? && item == Item(op.key, op.value, Expiry(cfg, op.now), Pinned(cfg)))
  {
    if Has(items, op.key) {
      OwnPresentEntry(cfg, items, op, item);
    }
  }

  lemma OwnPresentEntry(cfg: Config, items: seq<Item>, op: Op, item: Item)
    requires DistinctKeys(items) && Has(items, op.key)
    requires item in Perform(cfg, items, op).items && item.key == op.key
    ensures !op.DeleteOp?
    ensures var was := items[IndexOf(items, op.key)];
      match op
      case GetOp(_, _) => item == was.(refs := was.refs + Pinned(cfg))
      case PutOp(_, value, now) => item == if cfg.pin then was else Refreshed(cfg, was, value, now, true)
      case PutIfNotExistOp(_, value, now) => item == Refreshed(cfg, was, value, now, false)
      case DeleteOp(_) => true
      case ReleaseOp(_) => item == was.(refs := was.refs - 1)
  {
    var after := Perform(cfg, items, op).items;
    var i := IndexOf(items, op.key);
    RemoveKeepsKeys(items, i);
    var j :| 0 <= j < |after| && after[j] == item;
    if op.ReleaseOp? || (op.PutOp? && cfg.pin) {
      assert j == i;
    }
  }

  /** Every entry holds the value last stored, as many references as its users left, and the expiry of its last put. */
  lemma {:induction false} EntriesAreAccounted(cfg: Config, history: seq<Op>)
    ensures AllAccounted(cfg, history)
    decreases |history|
  {
    if history != [] {
      EntriesAreAccounted(cfg, Before(history));
      ContentsAreDistinct(cfg, Before(history));
      var items := Contents(cfg, Before(history));
      var op := Last(history);
      forall k | 0 <= k < |Contents(cfg, history)| ensures Accounted(cfg, history, Contents(cfg, history)[k]) {
        var item := Contents(cfg, history)[k];
        assert Has(Contents(cfg, history), item.key);
        if item.key != op.key {
          OthersUnchanged(cfg, items, op, item);
          var i :| 0 <= i < |items| && items[i] == item;
        } else {
          OwnEntry(cfg, items, op, item);
          OwnEntryAccounted(cfg, history, items, item);
        }
      }
    }
  }

  lemma OwnEntryAccounted(cfg: Config, history: seq<Op>, items: seq<Item>, item: Item)
    requires history != [] && items == Contents(cfg, Before(history)) && DistinctKeys(items)
    requires AllAccounted(cfg, Before(history))
    requires item in Contents(cfg, history) && item.key == Last(history).key && Has(Contents(cfg, history), item.key)
    ensures Accounted(cfg, history, item)
  {
    var op := Last(history);
    OwnEntry(cfg, items, op, item);
    if Has(items, op.key) {
      assert Accounted(cfg, Before(history), items[IndexOf(items, op.key)]);
    } else {
      assert Balance(cfg, Before(history), op.key) == 0;
    }
  }
}
