/** When entries leave the cache: expiry, pins and eviction, and where the code and its documentation part. */
module LruLifetime {
  import opened Wrappers
  import opened LruSpec
  import opened LruKeep
  import opened LruHistory

  // A get of a key that is in the cache, in terms of the entry.
  lemma GetOfPresent(cfg: Config, items: seq<Item>, key: string, now: int)
    requires DistinctKeys(items) && Has(items, key)
    ensures var a := Get(cfg, items, key, now);
      var item := items[IndexOf(items, key)];
      var expired := item.expiration.Some? && now > item.expiration.value;
      && (Has(a.items, key) <==> !(expired && item.refs + Pinned(cfg) == 0))
      && (if Has(a.items, key) then a.outcome == Returned(item.value)
          else a.outcome == Returned(Nil) && a.removed == [item.value])
  {
    var i := IndexOf(items, key);
    RemoveKeepsKeys(items, i);
    HasIsInKeys(Remove(items, i), key);
    var kept := [items[i].(refs := items[i].refs + Pinned(cfg))] + Remove(items, i);
    assert kept[0].key == key;
  }

  /**
   A get of a key that is in the cache fails exactly when nobody holds the entry, counting this get in pin
   mode, and its last put is more than ttl ago; otherwise it returns the value last stored.
   */
  lemma GetIsExact(cfg: Config, history: seq<Op>, key: string, now: int)
    requires Has(Contents(cfg, history), key)
    ensures LastPut(cfg, history, key).Some?
    ensures var a := Get(cfg, Contents(cfg, history), key, now);
      var expired := cfg.ttl != 0 && now - LastPut(cfg, history, key).value > cfg.ttl;
      && (Has(a.items, key) <==> !(expired && Balance(cfg, history, key) + Pinned(cfg) == 0))
      && (Has(a.items, key) ==> a.outcome == Returned(Stored(cfg, history, key)))
      && (!Has(a.items, key) ==> a.outcome == Returned(Nil) && a.removed == [Stored(cfg, history, key)])
  {
    var items := Contents(cfg, history);
    EntriesAreAccounted(cfg, history);
    assert Accounted(cfg, history, items[IndexOf(items, key)]);
    ContentsAreDistinct(cfg, history);
    GetOfPresent(cfg, items, key, now);
  }

  predicate NoRelease(history: seq<Op>) {
    forall i | 0 <= i < |history| :: !history[i].ReleaseOp?
  }

  lemma {:induction false} NoReleaseNoBalance(cfg: Config, history: seq<Op>, key: string)
    requires NoRelease(history) && !cfg.pin
    ensures Balance(cfg, history, key) == 0
    decreases |history|
  {
    if history != [] {
      NoReleaseNoBalance(cfg, Before(history), key);
    }
  }

  /** With a ttl, no pins and no releases, a get that hits its key finds an entry last put at most ttl ago. */
  lemma TtlIsHonoured(cfg: Config, history: seq<Op>, key: string, now: int)
    requires cfg.ttl != 0 && !cfg.pin && NoRelease(history)
    requires Has(Get(cfg, Contents(cfg, history), key, now).items, key)
    ensures LastPut(cfg, history, key).Some? && now - LastPut(cfg, history, key).value <= cfg.ttl
  {
    ContentsAreDistinct(cfg, history);
    GetIsExact(cfg, history, key, now);
    NoReleaseNoBalance(cfg, history, key);
  }

  // Somebody released the key since it entered the cache.
  predicate ReleasedSince(cfg: Config, history: seq<Op>, key: string)
    decreases |history|
  {
    && history != [] && Has(Contents(cfg, history), key)
    && (Last(history) == ReleaseOp(key) || ReleasedSince(cfg, Before(history), key))
  }

  lemma {:induction false} BalanceOfReleases(cfg: Config, history: seq<Op>, key: string)
    requires !cfg.pin
    ensures Balance(cfg, history, key) <= 0
    ensures Balance(cfg, history, key) < 0 <==> ReleasedSince(cfg, history, key)
    decreases |history|
  {
    if history != [] {
      BalanceOfReleases(cfg, Before(history), key);
    }
  }

  /** Without pins an entry never expires, exactly when there is no ttl or somebody released it. */
  lemma ReleaseDefeatsTtl(cfg: Config, history: seq<Op>, key: string)
    requires !cfg.pin && Has(Contents(cfg, history), key)
    ensures (forall now :: Has(Get(cfg, Contents(cfg, history), key, now).items, key))
       <==> cfg.ttl == 0 || ReleasedSince(cfg, history, key)
  {
    BalanceOfReleases(cfg, history, key);
    GetIsExact(cfg, history, key, 0);
    forall now ensures Has(Get(cfg, Contents(cfg, history), key, now).items, key)
      <==> cfg.ttl == 0 || ReleasedSince(cfg, history, key) || now - LastPut(cfg, history, key).value <= cfg.ttl
    {
      GetIsExact(cfg, history, key, now);
    }
    var late := LastPut(cfg, history, key).value + cfg.ttl + 1;
    assert Has(Get(cfg, Contents(cfg, history), key, late).items, key)
      <==> cfg.ttl == 0 || ReleasedSince(cfg, history, key);
  }

  // ---------- PutIfNotExist and the ttl ----------

  // The last put of the key is more than ttl ago.
  predicate Expired(cfg: Config, history: seq<Op>, key: string, now: int) {
    && cfg.ttl != 0 && LastPut(cfg, history, key).Some?
    && now - LastPut(cfg, history, key).value > cfg.ttl
  }

  // The put succeeds, and returns a value that is not its own and was last put more than ttl ago.
  predicate HandsOutExpired(cfg: Config, history: seq<Op>, key: string, value: Value, now: int) {
    var a := PutIfNotExist(cfg, Contents(cfg, history), key, value, now);
    a.outcome != CacheFull && a.outcome != Returned(value) && Expired(cfg, history, key, now)
  }

  /** PutIfNotExist returns whatever its key holds, however old it is; only a nil gives way to its own value. */
  lemma PutIfNotExistIgnoresAge(cfg: Config, history: seq<Op>, key: string, value: Value, now: int)
    ensures var items := Contents(cfg, history);
      var a := PutIfNotExist(cfg, items, key, value, now);
      if !Has(items, key) then a.outcome == CacheFull || a.outcome == Returned(value)
      else a.outcome == Returned(if Stored(cfg, history, key) == Nil then value else Stored(cfg, history, key))
  {
    var items := Contents(cfg, history);
    if Has(items, key) {
      EntriesAreAccounted(cfg, history);
      assert Accounted(cfg, history, items[IndexOf(items, key)]);
    }
  }

  /**
   The cache promises that entries older than the ttl are not returned. PutIfNotExist keeps this promise,
   whatever value it is given, exactly when its key is absent, holds nil, or was last put at most ttl ago.
   */
  lemma PutIfNotExistHonoursTtl(cfg: Config, history: seq<Op>, key: string, now: int)
    ensures Has(Contents(cfg, history), key) ==> LastPut(cfg, history, key).Some?
    ensures (forall value :: !HandsOutExpired(cfg, history, key, value, now))
       <==> (|| !Has(Contents(cfg, history), key) || Stored(cfg, history, key) == Nil
             || cfg.ttl == 0 || now - LastPut(cfg, history, key).value <= cfg.ttl)
  {
    if Has(Contents(cfg, history), key) {
      GetIsExact(cfg, history, key, now);
    }
    forall value ensures HandsOutExpired(cfg, history, key, value, now)
      <==> (&& Has(Contents(cfg, history), key) && Stored(cfg, history, key) !in [Nil, value]
            && Expired(cfg, history, key, now))
    {
      PutIfNotExistIgnoresAge(cfg, history, key, value, now);
    }
    var stored := Stored(cfg, history, key);
    var other := if stored == Boxed(0) then Boxed(1) else Boxed(0);
    assert HandsOutExpired(cfg, history, key, other, now)
      <==> Has(Contents(cfg, history), key) && stored != Nil && Expired(cfg, history, key, now);
  }

  /** An expired entry that nobody holds is gone for Get; PutIfNotExist returns it, and makes it last for another ttl. */
  lemma PutIfNotExistReturnsExpired(cfg: Config, history: seq<Op>, key: string, value: Value, now: int, later: int)
    requires Has(Contents(cfg, history), key) && Stored(cfg, history, key) != Nil
    requires Expired(cfg, history, key, now) && Balance(cfg, history, key) + Pinned(cfg) == 0
    requires now <= later <= now + cfg.ttl
    ensures var items := Contents(cfg, history);
      var a := PutIfNotExist(cfg, items, key, value, now);
      && Get(cfg, items, key, now).outcome == Returned(Nil)
      && a.outcome == Returned(Stored(cfg, history, key))
      && Get(cfg, a.items, key, later).outcome == Returned(Stored(cfg, history, key))
  {
    GetIsExact(cfg, history, key, now);
    PutIfNotExistIgnoresAge(cfg, history, key, value, now);
    var after := history + [PutIfNotExistOp(key, value, now)];
    assert Before(after) == history;
    var front := PutIfNotExist(cfg, Contents(cfg, history), key, value, now).items;
    assert Contents(cfg, after) == front && front[0].key == key;
    GetIsExact(cfg, after, key, later);
  }

  /** A successful PutIfNotExist returns the value last stored for its key, unless the key already held a nil value. */
  lemma PutIfNotExistReturnsStored(cfg: Config, history: seq<Op>, key: string, value: Value, now: int)
    ensures var items := Contents(cfg, history);
      var a := PutIfNotExist(cfg, items, key, value, now);
      var stored := Stored(cfg, history + [PutIfNotExistOp(key, value, now)], key);
      var misreported := Has(items, key) && Stored(cfg, history, key) == Nil && value != Nil;
      a.outcome != CacheFull ==> (a.outcome == Returned(stored) <==> !misreported)
  {
    var items := Contents(cfg, history);
    assert (history + [PutIfNotExistOp(key, value, now)])[..|history|] == history;
    if Has(items, key) {
      EntriesAreAccounted(cfg, history);
      assert Accounted(cfg, history, items[IndexOf(items, key)]);
    }
  }

  /** An entry that somebody holds leaves the cache only by Delete. */
  lemma HeldEntriesStay(cfg: Config, history: seq<Op>, op: Op, key: string)
    requires Has(Contents(cfg, history), key) && Balance(cfg, history, key) > 0
    requires op != DeleteOp(key)
    ensures Has(Contents(cfg, history + [op]), key)
  {
    var items := Contents(cfg, history);
    assert (history + [op])[..|history|] == history;
    var i := IndexOf(items, key);
    EntriesAreAccounted(cfg, history);
    assert Accounted(cfg, history, items[i]);
    ContentsAreDistinct(cfg, history);
    var after := Perform(cfg, items, op).items;
    if op.key == key {
      HeldByOwnOp(cfg, items, op, i);
    } else {
      HeldByOthersOp(cfg, items, op, i);
    }
  }

  lemma HeldByOwnOp(cfg: Config, items: seq<Item>, op: Op, i: nat)
    requires DistinctKeys(items) && i < |items| && items[i].refs > 0 && op.key == items[i].key && !op.DeleteOp?
    ensures Has(Perform(cfg, items, op).items, items[i].key)
  {
    var after := Perform(cfg, items, op).items;
    assert IndexOf(items, op.key) == i;
    assert after[if op.ReleaseOp? || (op.PutOp? && cfg.pin) then i else 0].key == op.key;
  }

  lemma HeldByOthersOp(cfg: Config, items: seq<Item>, op: Op, i: nat)
    requires DistinctKeys(items) && i < |items| && items[i].refs > 0 && op.key != items[i].key
    ensures Has(Perform(cfg, items, op).items, items[i].key)
  {
    var after := Perform(cfg, items, op).items;
    if Has(items, op.key) {
      var j := IndexOf(items, op.key);
      StaysBeside(items, i, j);
      if op.ReleaseOp? || after == items {
        assert after[i].key == items[i].key;
      } else {
        assert after == Remove(items, j) || after == [after[0]] + Remove(items, j);
        InTail(after, Remove(items, j), items[i].key);
      }
    } else if after != items {
      assert after[i + 1] == items[i];
    }
  }

  lemma StaysBeside(items: seq<Item>, i: nat, j: nat)
    requires i < |items| && j < |items| && i != j
    ensures Has(Remove(items, j), items[i].key)
  {
    assert Remove(items, j)[if i < j then i else i - 1] == items[i];
  }

  lemma InTail(items: seq<Item>, rest: seq<Item>, key: string)
    requires Has(rest, key) && (items == rest || (items != [] && items == [items[0]] + rest))
    ensures Has(items, key)
  {
    var i :| 0 <= i < |rest| && rest[i].key == key;
    assert items == rest || items[i + 1] == rest[i];
  }

  /** A cache made for no entries or fewer never makes room: it grows with every new key. */
  lemma UnboundedNeverEvicts(cfg: Config, items: seq<Item>, key: string, value: Value, now: int, allowUpdate: bool, other: string)
    requires cfg.maxSize <= 0 && DistinctKeys(items) && Has(items, other)
    ensures var a := PutInternal(cfg, items, key, value, now, allowUpdate);
      Has(a.items, key) && Has(a.items, other) && a.removed == []
  {
    var after := PutInternal(cfg, items, key, value, now, allowUpdate).items;
    assert after[0].key == key;
    if key != other {
      var i := IndexOf(items, other);
      if Has(items, key) {
        StaysBeside(items, i, IndexOf(items, key));
        InTail(after, Remove(items, IndexOf(items, key)), other);
      } else {
        InTail(after, items, other);
      }
    }
  }

  /**
   A put fails exactly when its key is new, the new entry would fill the cache, and the least recently used
   entry (the new one itself in a cache of size one) is held; it then leaves order, values and counts as
   they were.
   */
  lemma CacheFullIsExact(cfg: Config, history: seq<Op>, key: string, value: Value, now: int, allowUpdate: bool)
    ensures var items := Contents(cfg, history);
      var a := PutInternal(cfg, items, key, value, now, allowUpdate);
      && (a.outcome == CacheFull <==>
            && !Has(items, key) && |items| + 1 == cfg.maxSize
            && (if items == [] then cfg.pin else Balance(cfg, history, items[|items| - 1].key) > 0))
      && (a.outcome == CacheFull ==> a.items == items && a.removed == [])
  {
    var items := Contents(cfg, history);
    EntriesAreAccounted(cfg, history);
    if items != [] {
      assert Accounted(cfg, history, items[|items| - 1]);
    }
  }

  /**
   The error says that the cache is fully occupied by pinned entries. Yet only the least recently used entry
   is looked at: after a put has failed, a release lets it succeed exactly when it gives up the last hold on
   that entry, whatever other entries are free.
   */
  lemma CacheFullWithFreeEntry(cfg: Config, history: seq<Op>, key: string, value: Value, now: int, freed: string, allowUpdate: bool)
    requires PutInternal(cfg, Contents(cfg, history), key, value, now, allowUpdate).outcome == CacheFull
    ensures var items, after := Contents(cfg, history), history + [ReleaseOp(freed)];
      && (PutInternal(cfg, Contents(cfg, after), key, value, now, allowUpdate).outcome == CacheFull
          <==> !(items != [] && freed == items[|items| - 1].key && Balance(cfg, history, freed) == 1))
      && (Has(items, freed) ==>
            Has(Contents(cfg, after), freed) && Balance(cfg, after, freed) == Balance(cfg, history, freed) - 1)
  {
    CacheFullIsExact(cfg, history, key, value, now, allowUpdate);
    CacheFullIsExact(cfg, history + [ReleaseOp(freed)], key, value, now, allowUpdate);
    AfterRelease(cfg, history, freed, key);
    var items := Contents(cfg, history);
    if items != [] {
      LastAfterRelease(cfg, history, freed);
    }
  }

  lemma AfterRelease(cfg: Config, history: seq<Op>, freed: string, key: string)
    ensures var items, after := Contents(cfg, history), history + [ReleaseOp(freed)];
      && SameKeys(Contents(cfg, after), items) && (Has(Contents(cfg, after), key) <==> Has(items, key))
      && (Has(items, freed) ==>
            Has(Contents(cfg, after), freed) && Balance(cfg, after, freed) == Balance(cfg, history, freed) - 1)
  {
    var items, after := Contents(cfg, history), history + [ReleaseOp(freed)];
    assert Before(after) == history && Contents(cfg, after) == Release(items, freed).items;
    ReleaseKeepsKeys(items, freed);
    KeysDecideHas(items, Contents(cfg, after), key);
    KeysDecideHas(items, Contents(cfg, after), freed);
  }

  lemma LastAfterRelease(cfg: Config, history: seq<Op>, freed: string)
    requires Contents(cfg, history) != []
    ensures var items, after := Contents(cfg, history), history + [ReleaseOp(freed)];
      var last := items[|items| - 1].key;
      && |Contents(cfg, after)| == |items| && Contents(cfg, after)[|items| - 1].key == last
      && Balance(cfg, after, last) == Balance(cfg, history, last) - if freed == last then 1 else 0
  {
    var items, after := Contents(cfg, history), history + [ReleaseOp(freed)];
    AfterRelease(cfg, history, freed, items[|items| - 1].key);
    assert Before(after) == history;
    assert Has(items, items[|items| - 1].key);
  }

  lemma ReleaseKeepsKeys(items: seq<Item>, key: string)
    ensures SameKeys(Release(items, key).items, items)
  {}

  lemma KeysDecideHas(a: seq<Item>, b: seq<Item>, key: string)
    requires SameKeys(b, a)
    ensures Has(a, key) <==> Has(b, key)
  {
    if i :| 0 <= i < |a| && a[i].key == key {
      assert b[i].key == key;
    }
    if i :| 0 <= i < |b| && b[i].key == key {
      assert a[i].key == key;
    }
  }
}
