/**
 The inclusion property of the cache: of two caches that see the same gets, puts and deletes, the larger
 one always holds everything the smaller one holds, with the same values and in the same order of use.
 */
module LruInclusion {
  import opened Wrappers
  import opened LruSpec
  import opened LruKeep

  // No expiry and no pins.
  function Plain(maxSize: int): Config {
    Config(maxSize, 0, false)
  }

  predicate PlainItems(items: seq<Item>) {
    forall i | 0 <= i < |items| :: items[i].expiration == None && items[i].refs == 0
  }

  // s is l without the items whose keys are not in s.
  predicate Included(s: seq<Item>, l: seq<Item>) {
    s == Keep(l, Keys(s))
  }

  predicate Related(m: int, n: int, s: seq<Item>, l: seq<Item>) {
    && Included(s, l)
    && DistinctKeys(s) && DistinctKeys(l) && PlainItems(s) && PlainItems(l)
    && |s| < m && |l| < n && |l| - |s| <= n - m
  }

  predicate Simple(op: Op) {
    op.GetOp? || op.PutOp? || op.DeleteOp?
  }

  // ---------- One step ----------

  // Moving or replacing a key that both caches hold, or that only the larger one holds.
  lemma TouchKeepsIncluded(s: seq<Item>, l: seq<Item>, key: string, item: Item)
    requires Included(s, l) && DistinctKeys(s) && DistinctKeys(l) && Has(s, key) && Has(l, key) && item.key == key
    ensures Included([item] + Remove(s, IndexOf(s, key)), [item] + Remove(l, IndexOf(l, key)))
  {
    var i, j := IndexOf(s, key), IndexOf(l, key);
    RemoveIsKeep(s, i);
    RemoveIsKeep(l, j);
    WithoutKeepsIncluded(s, l, key);
    GrowKeepsIncluded(Remove(s, i), Remove(l, j), item);
  }

  lemma WithoutKeepsIncluded(s: seq<Item>, l: seq<Item>, key: string)
    requires Included(s, l)
    ensures Included(Keep(s, Keys(s) - {key}), Keep(l, Keys(l) - {key}))
  {
    var s1 := Keep(s, Keys(s) - {key});
    KeysOfKeep(s, Keys(s) - {key});
    KeepTwice(l, Keys(s), Keys(s) - {key});
    KeepTwice(l, Keys(l) - {key}, Keys(s1));
    KeepRelevant(l, Keys(s) * (Keys(s) - {key}), (Keys(l) - {key}) * Keys(s1));
  }

  lemma GrowKeepsIncluded(s: seq<Item>, l: seq<Item>, item: Item)
    requires Included(s, l) && item.key !in Keys(l)
    ensures Included([item] + s, [item] + l)
  {
    var keys := Keys([item] + s);
    assert keys == Keys(s) + {item.key} by {
      assert ([item] + s)[0] == item;
      forall k | k in Keys(s) ensures k in keys {
        var i :| 0 <= i < |s| && s[i].key == k;
        assert ([item] + s)[i + 1] == s[i];
      }
    }
    KeepConcat([item], l, keys);
    KeepAll([item], keys);
    forall i | 0 <= i < |l| ensures l[i].key in keys <==> l[i].key in Keys(s) {
      assert l[i].key in Keys(l);
    }
    KeepRelevant(l, keys, Keys(s));
  }

  // Items of the larger cache that the smaller one does not hold may move or go.
  lemma LargerLosesForeign(s: seq<Item>, l: seq<Item>, key: string)
    requires Included(s, l) && key !in Keys(s)
    ensures Included(s, Keep(l, Keys(l) - {key}))
  {
    KeepTwice(l, Keys(l) - {key}, Keys(s));
    KeepRelevant(l, (Keys(l) - {key}) * Keys(s), Keys(s));
  }

  lemma SmallerLoses(s: seq<Item>, l: seq<Item>, key: string)
    requires Included(s, l)
    ensures Included(Keep(s, Keys(s) - {key}), l)
  {
    KeysOfKeep(s, Keys(s) - {key});
    KeepTwice(l, Keys(s), Keys(s) - {key});
    assert Keys(s) * (Keys(s) - {key}) == Keys(Keep(s, Keys(s) - {key}));
  }

  lemma ForeignInFront(s: seq<Item>, l: seq<Item>, item: Item)
    requires Included(s, l) && item.key !in Keys(s)
    ensures Included(s, [item] + l)
  {
    KeepConcat([item], l, Keys(s));
    KeepNone([item], Keys(s));
  }

  lemma IncludedHas(s: seq<Item>, l: seq<Item>, key: string)
    requires Included(s, l) && DistinctKeys(s) && DistinctKeys(l) && Has(s, key)
    ensures Has(l, key) && l[IndexOf(l, key)] == s[IndexOf(s, key)]
  {
    KeepIsSubset(l, Keys(s));
    var item := s[IndexOf(s, key)];
    assert item in l;
    var j :| 0 <= j < |l| && l[j] == item;
    assert IndexOf(l, key) == j;
  }

  lemma RemoveKeepsShape(items: seq<Item>, i: nat)
    requires DistinctKeys(items) && i < |items|
    ensures DistinctKeys(Remove(items, i))
    ensures PlainItems(items) ==> PlainItems(Remove(items, i))
    ensures Keys(Remove(items, i)) == Keys(items) - {items[i].key}
  {
    RemoveKeepsKeys(items, i);
  }

  // The list after the item of `key` was put in front, whether or not the key was there.
  function Front(items: seq<Item>, item: Item): seq<Item> {
    [item] + if Has(items, item.key) then Remove(items, IndexOf(items, item.key)) else items
  }

  lemma FrontKeepsShape(items: seq<Item>, item: Item)
    requires DistinctKeys(items) && PlainItems(items) && PlainItems([item])
    ensures DistinctKeys(Front(items, item)) && PlainItems(Front(items, item))
    ensures |Front(items, item)| == |items| + if Has(items, item.key) then 0 else 1
  {
    if Has(items, item.key) {
      RemoveKeepsShape(items, IndexOf(items, item.key));
    }
    var rest := Front(items, item)[1..];
    assert [item][0] == item;
    forall i | 0 <= i < |rest| ensures rest[i].key != item.key {
      HasIsInKeys(items, item.key);
      assert rest[i].key in Keys(rest);
    }
  }

  lemma FrontKeepsIncluded(s: seq<Item>, l: seq<Item>, item: Item)
    requires Included(s, l) && DistinctKeys(s) && DistinctKeys(l)
    ensures Included(Front(s, item), Front(l, item))
  {
    var key := item.key;
    HasIsInKeys(s, key);
    HasIsInKeys(l, key);
    if Has(s, key) {
      IncludedHas(s, l, key);
      TouchKeepsIncluded(s, l, key, item);
    } else if Has(l, key) {
      var j := IndexOf(l, key);
      RemoveIsKeep(l, j);
      RemoveKeepsShape(l, j);
      LargerLosesForeign(s, l, key);
      GrowKeepsIncluded(s, Remove(l, j), item);
    } else {
      GrowKeepsIncluded(s, l, item);
    }
  }

  // What a put that finds the cache full does after it put the new item in front.
  function Trim(items: seq<Item>, maxSize: int): seq<Item> {
    if |items| == maxSize && maxSize > 0 then items[..|items| - 1] else items
  }

  lemma TrimKeepsShape(items: seq<Item>, maxSize: int)
    requires DistinctKeys(items) && PlainItems(items)
    ensures DistinctKeys(Trim(items, maxSize)) && PlainItems(Trim(items, maxSize))
  {}

  lemma TrimKeepsIncluded(s: seq<Item>, l: seq<Item>, m: int, n: int)
    requires Included(s, l) && DistinctKeys(s) && DistinctKeys(l)
    requires 1 <= m <= n && |s| <= m && |l| <= n && |l| - |s| <= n - m
    ensures Included(Trim(s, m), Trim(l, n))
  {
    TrimSmaller(s, l, m);
    if |l| == n {
      var last, s1 := l[n - 1].key, Trim(s, m);
      if last in Keys(s) {
        KeepLast(l, Keys(s));
        DropLastIsKeep(s);
        KeysOfKeep(s, Keys(s) - {last});
      } else {
        TrimmedKeys(s, m);
      }
      DropLastIsKeep(l);
      LargerLosesForeign(s1, l, last);
    }
  }

  lemma TrimmedKeys(items: seq<Item>, maxSize: int)
    ensures Keys(Trim(items, maxSize)) <= Keys(items)
  {
    var trimmed := Trim(items, maxSize);
    assert forall i | 0 <= i < |trimmed| :: trimmed[i] == items[i];
  }

  lemma TrimSmaller(s: seq<Item>, l: seq<Item>, m: int)
    requires Included(s, l) && DistinctKeys(s) && 1 <= m
    ensures Included(Trim(s, m), l)
  {
    if |s| == m {
      DropLastIsKeep(s);
      SmallerLoses(s, l, s[m - 1].key);
    }
  }

  lemma PutIsFrontAndTrim(m: int, items: seq<Item>, key: string, value: Value, now: int)
    requires DistinctKeys(items) && PlainItems(items) && |items| < m
    ensures Put(Plain(m), items, key, value, now).items == Trim(Front(items, Item(key, value, None, 0)), m)
  {
    if Has(items, key) {
      assert Refreshed(Plain(m), items[IndexOf(items, key)], value, now, true) == Item(key, value, None, 0);
    } else if |items| + 1 == m {
      var grown := [Item(key, value, None, 0)] + items;
      assert grown[|grown| - 1].refs == 0;
    }
  }

  lemma PutStep(m: int, n: int, s: seq<Item>, l: seq<Item>, key: string, value: Value, now: int)
    requires 1 <= m <= n && Related(m, n, s, l)
    ensures Related(m, n, Put(Plain(m), s, key, value, now).items, Put(Plain(n), l, key, value, now).items)
  {
    var item := Item(key, value, None, 0);
    PutIsFrontAndTrim(m, s, key, value, now);
    PutIsFrontAndTrim(n, l, key, value, now);
    FrontKeepsShape(s, item);
    FrontKeepsShape(l, item);
    FrontKeepsIncluded(s, l, item);
    if Has(s, key) { IncludedHas(s, l, key); }
    TrimKeepsShape(Front(s, item), m);
    TrimKeepsShape(Front(l, item), n);
    TrimKeepsIncluded(Front(s, item), Front(l, item), m, n);
  }

  lemma GetStep(m: int, n: int, s: seq<Item>, l: seq<Item>, key: string, now: int)
    requires 1 <= m <= n && Related(m, n, s, l)
    ensures Related(m, n, Get(Plain(m), s, key, now).items, Get(Plain(n), l, key, now).items)
  {
    if Has(l, key) {
      var item := l[IndexOf(l, key)];
      FrontKeepsShape(l, item);
      if Has(s, key) {
        IncludedHas(s, l, key);
        FrontKeepsShape(s, item);
        FrontKeepsIncluded(s, l, item);
      } else {
        HasIsInKeys(s, key);
        RemoveIsKeep(l, IndexOf(l, key));
        LargerLosesForeign(s, l, key);
        ForeignInFront(s, Remove(l, IndexOf(l, key)), item);
      }
    } else if Has(s, key) {
      IncludedHas(s, l, key);
    }
  }

  lemma DeleteStep(m: int, n: int, s: seq<Item>, l: seq<Item>, key: string)
    requires 1 <= m <= n && Related(m, n, s, l)
    ensures Related(m, n, Delete(s, key).items, Delete(l, key).items)
  {
    if Has(l, key) {
      RemoveIsKeep(l, IndexOf(l, key));
      RemoveKeepsShape(l, IndexOf(l, key));
      if Has(s, key) {
        RemoveIsKeep(s, IndexOf(s, key));
        RemoveKeepsShape(s, IndexOf(s, key));
        WithoutKeepsIncluded(s, l, key);
      } else {
        HasIsInKeys(s, key);
        LargerLosesForeign(s, l, key);
      }
    } else if Has(s, key) {
      IncludedHas(s, l, key);
    }
  }

  lemma {:induction false} HistoryKeepsRelated(m: int, n: int, history: seq<Op>)
    requires 1 <= m <= n && forall i | 0 <= i < |history| :: Simple(history[i])
    ensures Related(m, n, Contents(Plain(m), history), Contents(Plain(n), history))
    decreases |history|
  {
    if history != [] {
      var last := |history| - 1;
      HistoryKeepsRelated(m, n, history[..last]);
      var s, l := Contents(Plain(m), history[..last]), Contents(Plain(n), history[..last]);
      match history[last]
      case GetOp(key, now) => GetStep(m, n, s, l, key, now);
      case PutOp(key, value, now) => PutStep(m, n, s, l, key, value, now);
      case DeleteOp(key) => DeleteStep(m, n, s, l, key);
    }
  }

  /**
   After any history of gets, puts and deletes, the smaller cache is the larger one without the items of
   other keys: same values, same order. So a get that hits the smaller cache hits the larger one, too.
   */
  lemma Inclusion(m: int, n: int, history: seq<Op>, key: string)
    requires 1 <= m <= n && forall i | 0 <= i < |history| :: Simple(history[i])
    ensures var s, l := Contents(Plain(m), history), Contents(Plain(n), history);
      && s == Keep(l, Keys(s))
      && (Has(s, key) ==> Has(l, key) && l[IndexOf(l, key)] == s[IndexOf(s, key)])
  {
    HistoryKeepsRelated(m, n, history);
    var s, l := Contents(Plain(m), history), Contents(Plain(n), history);
    if Has(s, key) {
      IncludedHas(s, l, key);
    }
  }
}
