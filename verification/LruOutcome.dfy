/**
 What every operation of the cache answers, which key it brings in or drives out, and what it hands to the
 removal callback, told by the history alone.
 */
module LruOutcome {
  import opened Wrappers
  import opened LruSpec
  import opened LruKeep
  import opened LruHistory
  import opened LruLifetime

  // ---------- What a get can return ----------

  // Some operation of the history put this value under this key.
  predicate WasPut(history: seq<Op>, key: string, value: Value) {
    exists i | 0 <= i < |history| ::
      history[i].key == key && (history[i].PutOp? || history[i].PutIfNotExistOp?) && history[i].value == value
  }

  lemma {:induction false} StoredWasPut(cfg: Config, history: seq<Op>, key: string)
    ensures LastPut(cfg, history, key).None? ==> Stored(cfg, history, key) == Nil
    ensures Stored(cfg, history, key) != Nil ==> WasPut(history, key, Stored(cfg, history, key))
    decreases |history|
  {
    if history != [] {
      StoredWasPut(cfg, Before(history), key);
      var value := Stored(cfg, history, key);
      if value != Nil {
        if WasPut(Before(history), key, value) {
          var i :| 0 <= i < |history| - 1 && history[i].key == key
            && (history[i].PutOp? || history[i].PutIfNotExistOp?) && history[i].value == value;
          assert history[i].value == value;
        } else {
          assert history[|history| - 1].value == value;
        }
      }
    }
  }

  // A get of this key finds it.
  predicate Hits(cfg: Config, history: seq<Op>, key: string, now: int) {
    Has(Contents(cfg, history), key) && !(Expired(cfg, history, key, now) && Balance(cfg, history, key) + Pinned(cfg) == 0)
  }

  /**
   A get returns the value last stored if it hits, and nil otherwise: in particular for a key that was never
   put, and for one that has left the cache since, when it also hands nothing to the callback and leaves the
   cache alone. A value that is not nil was put under this key by some operation before.
   */
  lemma GetNeverInvents(cfg: Config, history: seq<Op>, key: string, now: int)
    ensures var items := Contents(cfg, history);
      var a := Get(cfg, items, key, now);
      && a.outcome == Returned(if Hits(cfg, history, key, now) then Stored(cfg, history, key) else Nil)
      && (LastPut(cfg, history, key).None? ==> !Has(items, key))
      && (!Has(items, key) ==> a.outcome == Returned(Nil) && a.removed == [] && a.items == items)
      && (forall value | a.outcome == Returned(value) && value != Nil :: WasPut(history, key, value))
  {
    StoredWasPut(cfg, history, key);
    var items := Contents(cfg, history);
    if Has(items, key) {
      GetIsExact(cfg, history, key, now);
    }
    MissIsSilent(cfg, items, key, now);
  }

  lemma MissIsSilent(cfg: Config, items: seq<Item>, key: string, now: int)
    ensures !Has(items, key) ==> Get(cfg, items, key, now) == Answer(items, Returned(Nil), [])
  {}

  /**
   What the other operations return: Put the value that its key held, or nil; in pin mode it panics and changes
   nothing. Delete nothing. Release panics exactly for an absent key.
   */
  lemma OthersAnswer(cfg: Config, history: seq<Op>, key: string, value: Value, now: int)
    ensures var items := Contents(cfg, history);
      && (cfg.pin ==> Put(cfg, items, key, value, now) == Answer(items, Panic, []))
      && (!cfg.pin ==>
            Put(cfg, items, key, value, now).outcome == Returned(if Has(items, key) then Stored(cfg, history, key) else Nil))
      && Delete(items, key).outcome == Returned(Nil)
      && (Release(items, key).outcome == Panic <==> !Has(items, key))
      && (Release(items, key).outcome != Panic ==> Release(items, key).outcome == Returned(Nil))
  {
    var items := Contents(cfg, history);
    if Has(items, key) {
      EntriesAreAccounted(cfg, history);
      assert Accounted(cfg, history, items[IndexOf(items, key)]);
    }
    if !cfg.pin {
      CacheFullIsExact(cfg, history, key, value, now, true);
      if items != [] { BalanceOfReleases(cfg, history, items[|items| - 1].key); }
    }
  }

  // ---------- Keys and removals ----------

  // A put that is not refused.
  predicate Puts(cfg: Config, op: Op) {
    (op.PutOp? && !cfg.pin) || op.PutIfNotExistOp?
  }

  // The put of a new key that reaches the size at which the cache makes room.
  predicate Fills(cfg: Config, history: seq<Op>, op: Op) {
    Puts(cfg, op) && !Has(Contents(cfg, history), op.key) && |Contents(cfg, history)| + 1 == cfg.maxSize
  }

  // The key that the operation drives out, if any. A put may drive out its own key from a cache of size one.
  function Gone(cfg: Config, history: seq<Op>, op: Op): Option<string> {
    var items := Contents(cfg, history);
    match op
    case GetOp(key, now) =>
      if Has(items, key) && Expired(cfg, history, key, now) && Balance(cfg, history, key) + Pinned(cfg) == 0 then Some(key) else None
    case DeleteOp(key) => if Has(items, key) then Some(key) else None
    case ReleaseOp(_) => None
    case _ =>
      if !Fills(cfg, history, op) then None
      else if items == [] then (if cfg.pin then None else Some(op.key))
      else if Balance(cfg, history, items[|items| - 1].key) > 0 then None
      else Some(items[|items| - 1].key)
  }

  // The key that it brings in, or keeps.
  function Came(cfg: Config, history: seq<Op>, op: Op): set<string> {
    if Puts(cfg, op) && !(Fills(cfg, history, op) && Gone(cfg, history, op).None?) then {op.key} else {}
  }

  function AsSet(key: Option<string>): set<string> {
    if key.Some? then {key.value} else {}
  }

  lemma KeysOfFront(item: Item, rest: seq<Item>)
    ensures Keys([item] + rest) == {item.key} + Keys(rest)
  {
    var all := [item] + rest;
    assert all[0] == item;
    assert forall i | 0 <= i < |rest| :: all[i + 1] == rest[i];
    assert forall i | 0 < i < |all| :: all[i] == rest[i - 1];
  }

  lemma KeysOfDropLast(items: seq<Item>)
    requires DistinctKeys(items) && items != []
    ensures Keys(items[..|items| - 1]) == Keys(items) - {items[|items| - 1].key}
  {
    DropLastIsKeep(items);
    KeysOfKeep(items, Keys(items) - {items[|items| - 1].key});
  }

  lemma KeysOfSame(a: seq<Item>, b: seq<Item>)
    requires SameKeys(a, b)
    ensures Keys(a) == Keys(b)
  {
    assert forall i | 0 <= i < |a| :: a[i].key == b[i].key;
  }

  lemma KeysAfterGet(cfg: Config, items: seq<Item>, key: string, now: int)
    requires DistinctKeys(items) && Has(items, key)
    ensures var a, item := Get(cfg, items, key, now), items[IndexOf(items, key)];
      if item.expiration.Some? && now > item.expiration.value && item.refs + Pinned(cfg) == 0 then
        Keys(a.items) == Keys(items) - {key} && a.removed == [item.value]
      else
        Keys(a.items) == Keys(items) && a.removed == []
  {
    var i := IndexOf(items, key);
    RemoveKeepsKeys(items, i);
    HasIsInKeys(items, key);
    KeysOfFront(items[i].(refs := items[i].refs + Pinned(cfg)), Remove(items, i));
  }

  lemma KeysAfterDelete(items: seq<Item>, key: string)
    requires DistinctKeys(items) && Has(items, key)
    ensures Keys(Delete(items, key).items) == Keys(items) - {key}
  {
    RemoveKeepsKeys(items, IndexOf(items, key));
  }

  lemma KeysAfterUpdate(cfg: Config, items: seq<Item>, key: string, value: Value, now: int, allowUpdate: bool)
    requires DistinctKeys(items) && Has(items, key)
    ensures var a := PutInternal(cfg, items, key, value, now, allowUpdate);
      Keys(a.items) == Keys(items) && a.removed == [] && key in Keys(items)
  {
    var i := IndexOf(items, key);
    RemoveKeepsKeys(items, i);
    HasIsInKeys(items, key);
    KeysOfFront(Refreshed(cfg, items[i], value, now, allowUpdate), Remove(items, i));
  }

  lemma KeysAfterInsert(cfg: Config, items: seq<Item>, key: string, value: Value, now: int, allowUpdate: bool)
    requires DistinctKeys(items) && !Has(items, key)
    ensures var a := PutInternal(cfg, items, key, value, now, allowUpdate);
      var oldest := if items == [] then Item(key, value, Expiry(cfg, now), Pinned(cfg)) else items[|items| - 1];
      if |items| + 1 != cfg.maxSize then Keys(a.items) == Keys(items) + {key} && a.removed == []
      else if oldest.refs > 0 then Keys(a.items) == Keys(items) && a.removed == []
      else Keys(a.items) == Keys(items) + {key} - {oldest.key} && a.removed == [oldest.value]
  {
    var grown := [Item(key, value, Expiry(cfg, now), Pinned(cfg))] + items;
    KeysOfFront(grown[0], items);
    NewKeepsDistinct(items, grown[0]);
    KeysOfDropLast(grown);
    assert items != [] ==> grown[|grown| - 1] == items[|items| - 1];
  }

  // An entry in terms of the history.
  lemma EntryIsAccounted(cfg: Config, history: seq<Op>, i: nat, now: int)
    requires i < |Contents(cfg, history)|
    ensures var item := Contents(cfg, history)[i];
      && item.refs == Balance(cfg, history, item.key) && item.value == Stored(cfg, history, item.key)
      && (item.expiration.Some? && now > item.expiration.value <==> Expired(cfg, history, item.key, now))
  {
    EntriesAreAccounted(cfg, history);
    assert Accounted(cfg, history, Contents(cfg, history)[i]);
  }

  lemma StoredAfter(cfg: Config, history: seq<Op>, op: Op, key: string)
    ensures Stored(cfg, history + [op], key)
         == if op.key == key && ((op.PutOp? && !cfg.pin) || (op.PutIfNotExistOp? && !Has(Contents(cfg, history), key))) then op.value
            else Stored(cfg, history, key)
  {
    assert Before(history + [op]) == history;
  }

  /**
   An operation brings in the key it puts, drives out the key named by Gone and no other, and hands exactly the
   value last stored under that key to the removal callback.
   */
  lemma KeysComeAndGo(cfg: Config, history: seq<Op>, op: Op)
    ensures var items, a, gone := Contents(cfg, history), Perform(cfg, Contents(cfg, history), op), Gone(cfg, history, op);
      && Keys(a.items) == Keys(items) + Came(cfg, history, op) - AsSet(gone)
      && a.removed == (if gone.None? then [] else [Stored(cfg, history + [op], gone.value)])
  {
    var items := Contents(cfg, history);
    ContentsAreDistinct(cfg, history);
    if Gone(cfg, history, op).Some? {
      StoredAfter(cfg, history, op, Gone(cfg, history, op).value);
    }
    if Has(items, op.key) {
      PresentComesAndGoes(cfg, history, op);
    } else if Puts(cfg, op) {
      NewComesAndGoes(cfg, history, op);
    }
  }

  lemma PresentComesAndGoes(cfg: Config, history: seq<Op>, op: Op)
    requires DistinctKeys(Contents(cfg, history)) && Has(Contents(cfg, history), op.key)
    ensures var items, a, gone := Contents(cfg, history), Perform(cfg, Contents(cfg, history), op), Gone(cfg, history, op);
      && Keys(a.items) == Keys(items) + Came(cfg, history, op) - AsSet(gone)
      && a.removed == (if gone.None? then [] else [Stored(cfg, history, gone.value)])
  {
    var items := Contents(cfg, history);
    match op
    case GetOp(key, now) =>
      KeysAfterGet(cfg, items, key, now);
      EntryIsAccounted(cfg, history, IndexOf(items, key), now);
    case DeleteOp(key) =>
      KeysAfterDelete(items, key);
      EntryIsAccounted(cfg, history, IndexOf(items, key), 0);
    case ReleaseOp(key) =>
      ReleaseKeepsKeys(items, key);
      KeysOfSame(Release(items, key).items, items);
    case PutOp(key, value, now) =>
      KeysAfterUpdate(cfg, items, key, value, now, true);
    case PutIfNotExistOp(key, value, now) =>
      KeysAfterUpdate(cfg, items, key, value, now, false);
  }

  lemma NewComesAndGoes(cfg: Config, history: seq<Op>, op: Op)
    requires DistinctKeys(Contents(cfg, history)) && !Has(Contents(cfg, history), op.key) && Puts(cfg, op)
    ensures var items, a, gone := Contents(cfg, history), Perform(cfg, Contents(cfg, history), op), Gone(cfg, history, op);
      && Keys(a.items) == Keys(items) + Came(cfg, history, op) - AsSet(gone)
      && a.removed == (if gone.None? then [] else [if gone.value == op.key then op.value else Stored(cfg, history, gone.value)])
  {
    KeysAfterInsert(cfg, Contents(cfg, history), op.key, op.value, op.now, op.PutOp?);
    GoneOfNew(cfg, history, op);
  }

  // What a new key drives out, in terms of the entries.
  lemma GoneOfNew(cfg: Config, history: seq<Op>, op: Op)
    requires !Has(Contents(cfg, history), op.key) && Puts(cfg, op)
    ensures var items := Contents(cfg, history);
      var oldest := if items == [] then Item(op.key, op.value, Expiry(cfg, op.now), Pinned(cfg)) else items[|items| - 1];
      && Gone(cfg, history, op) == (if |items| + 1 == cfg.maxSize && oldest.refs <= 0 then Some(oldest.key) else None)
      && (items != [] ==> oldest.key != op.key && oldest.value == Stored(cfg, history, oldest.key))
  {
    var items := Contents(cfg, history);
    if items != [] {
      EntryIsAccounted(cfg, history, |items| - 1, 0);
      assert Has(items, items[|items| - 1].key);
    }
  }
}
