/**
 PutIfNotExist and the inclusion property of the cache: it keeps the old value of a key that only the larger
 cache still holds. The exact condition under which the values stay the same, and what is kept in any case:
 the keys of the smaller cache and their order.
 */
module LruKeyInclusion {
  import opened Wrappers
  import opened LruSpec
  import opened LruKeep
  import opened LruInclusion

  // ---------- One step ----------

  lemma PutIfNotExistIsFrontAndTrim(m: int, items: seq<Item>, key: string, value: Value, now: int)
    requires DistinctKeys(items) && PlainItems(items) && |items| < m
    ensures var kept := if Has(items, key) then items[IndexOf(items, key)].value else value;
      PutIfNotExist(Plain(m), items, key, value, now).items == Trim(Front(items, Item(key, kept, None, 0)), m)
  {
    if Has(items, key) {
      PutIsFrontAndTrim(m, items, key, items[IndexOf(items, key)].value, now);
    } else {
      PutIsFrontAndTrim(m, items, key, value, now);
    }
  }

  lemma FrontItemDecides(s: seq<Item>, l: seq<Item>)
    requires Included(s, l) && DistinctKeys(l) && s != [] && l != [] && s[0].key == l[0].key
    ensures s[0] == l[0]
  {
    KeepIsSubset(l, Keys(s));
    assert s[0] in s;
  }

  /**
   After PutIfNotExist on both caches the smaller one is still included in the larger one exactly when it
   holds the key itself, or the larger one does not hold it, or holds the same value anyway; or when it has no
   room for any entry.
   */
  lemma PutIfNotExistStep(m: int, n: int, s: seq<Item>, l: seq<Item>, key: string, value: Value, now: int)
    requires 1 <= m <= n && Related(m, n, s, l)
    ensures Included(PutIfNotExist(Plain(m), s, key, value, now).items, PutIfNotExist(Plain(n), l, key, value, now).items)
       <==> m == 1 || Has(s, key) || !Has(l, key) || l[IndexOf(l, key)].value == value
  {
    PutIfNotExistIsFrontAndTrim(m, s, key, value, now);
    PutIfNotExistIsFrontAndTrim(n, l, key, value, now);
    if Has(s, key) {
      IncludedHas(s, l, key);
      PutStepIsIncluded(m, n, s, l, key, s[IndexOf(s, key)].value, now);
    } else if !Has(l, key) || l[IndexOf(l, key)].value == value {
      PutStepIsIncluded(m, n, s, l, key, value, now);
    } else if m == 1 {
      assert PutIfNotExist(Plain(m), s, key, value, now).items == [] && Keys([]) == {};
      KeepNone(PutIfNotExist(Plain(n), l, key, value, now).items, {});
    } else {
      DifferentValues(m, n, s, l, key, value, now);
    }
  }

  lemma PutStepIsIncluded(m: int, n: int, s: seq<Item>, l: seq<Item>, key: string, value: Value, now: int)
    requires 1 <= m <= n && Related(m, n, s, l)
    ensures var item := Item(key, value, None, 0); Included(Trim(Front(s, item), m), Trim(Front(l, item), n))
  {
    PutStep(m, n, s, l, key, value, now);
    PutIsFrontAndTrim(m, s, key, value, now);
    PutIsFrontAndTrim(n, l, key, value, now);
  }

  lemma DifferentValues(m: int, n: int, s: seq<Item>, l: seq<Item>, key: string, value: Value, now: int)
    requires 2 <= m <= n && Related(m, n, s, l)
    requires !Has(s, key) && Has(l, key) && l[IndexOf(l, key)].value != value
    ensures !Included(PutIfNotExist(Plain(m), s, key, value, now).items, PutIfNotExist(Plain(n), l, key, value, now).items)
  {
    var stored, kept := Item(key, value, None, 0), Item(key, l[IndexOf(l, key)].value, None, 0);
    PutIfNotExistIsFrontAndTrim(m, s, key, value, now);
    PutIfNotExistIsFrontAndTrim(n, l, key, value, now);
    FrontKeepsShape(l, kept);
    var s1, l1 := Trim(Front(s, stored), m), Trim(Front(l, kept), n);
    TrimKeepsShape(Front(l, kept), n);
    assert s1[0] == stored && l1[0] == kept;
    if Included(s1, l1) {
      FrontItemDecides(s1, l1);
    }
  }

  // ---------- All histories ----------

  // The keys of a cache, with everything else left out.
  function Blank(items: seq<Item>): (r: seq<Item>)
    ensures |r| == |items|
  {
    seq(|items|, i requires 0 <= i < |items| => Item(items[i].key, Nil, None, 0))
  }

  // A history of gets, puts and deletes that does the same to the keys.
  function Simplified(history: seq<Op>): (r: seq<Op>)
    ensures forall i | 0 <= i < |r| :: Simple(r[i])
  {
    if history == [] then []
    else
      var before := Simplified(history[..|history| - 1]);
      match history[|history| - 1]
      case GetOp(key, now) => before + [GetOp(key, now)]
      case PutOp(key, _, now) => before + [PutOp(key, Nil, now)]
      case PutIfNotExistOp(key, _, now) => before + [PutOp(key, Nil, now)]
      case DeleteOp(key) => before + [DeleteOp(key)]
      case ReleaseOp(_) => before
  }

  // No entry expires or is held; releases may have made counts negative.
  predicate Unheld(items: seq<Item>) {
    forall i | 0 <= i < |items| :: items[i].expiration == None && items[i].refs <= 0
  }

  lemma BlankHas(items: seq<Item>, key: string)
    ensures Has(Blank(items), key) <==> Has(items, key)
    ensures Has(items, key) ==> IndexOf(Blank(items), key) == IndexOf(items, key)
  {
    if Has(items, key) {
      var i := IndexOf(items, key);
      assert Blank(items)[i].key == key;
      var j := IndexOf(Blank(items), key);
      assert items[j].key == key;
    }
    if Has(Blank(items), key) {
      var i := IndexOf(Blank(items), key);
      assert items[i].key == key;
    }
  }

  lemma BlankOfFront(items: seq<Item>, rest: seq<Item>, item: Item)
    requires items == [item] + rest
    ensures Blank(items) == [Item(item.key, Nil, None, 0)] + Blank(rest)
  {}

  lemma BlankOfRemove(items: seq<Item>, i: nat)
    requires i < |items|
    ensures Blank(Remove(items, i)) == Remove(Blank(items), i)
  {}

  lemma BlankOfRelease(items: seq<Item>, key: string)
    requires Unheld(items)
    ensures var after := Release(items, key).items; Unheld(after) && Blank(after) == Blank(items)
  {}

  lemma BlankOfGet(m: int, items: seq<Item>, key: string, now: int)
    requires Unheld(items)
    ensures var after := Get(Plain(m), items, key, now).items;
      Unheld(after) && Blank(after) == Get(Plain(m), Blank(items), key, now).items
  {
    BlankHas(items, key);
    if Has(items, key) {
      var i := IndexOf(items, key);
      BlankOfRemove(items, i);
      BlankOfFront([items[i]] + Remove(items, i), Remove(items, i), items[i]);
    }
  }

  lemma BlankOfDelete(items: seq<Item>, key: string)
    requires Unheld(items)
    ensures var after := Delete(items, key).items; Unheld(after) && Blank(after) == Delete(Blank(items), key).items
  {
    BlankHas(items, key);
    if Has(items, key) {
      BlankOfRemove(items, IndexOf(items, key));
    }
  }

  lemma BlankOfPut(m: int, items: seq<Item>, key: string, value: Value, now: int, allowUpdate: bool)
    requires Unheld(items)
    ensures var after := PutInternal(Plain(m), items, key, value, now, allowUpdate).items;
      Unheld(after) && Blank(after) == PutInternal(Plain(m), Blank(items), key, Nil, now, true).items
  {
    BlankHas(items, key);
    var after := PutInternal(Plain(m), items, key, value, now, allowUpdate).items;
    if Has(items, key) {
      var i := IndexOf(items, key);
      BlankOfRemove(items, i);
      BlankOfFront(after, Remove(items, i), after[0]);
    } else {
      var grown := [Item(key, value, None, 0)] + items;
      BlankOfFront(grown, items, grown[0]);
      if |grown| == m {
        assert grown[m - 1].refs <= 0;
        assert Blank(grown)[m - 1].refs == 0;
        assert Blank(grown[..m - 1]) == Blank(grown)[..m - 1];
      }
    }
  }

  lemma {:induction false} BlankOfContents(m: int, history: seq<Op>)
    ensures Unheld(Contents(Plain(m), history))
    ensures Blank(Contents(Plain(m), history)) == Contents(Plain(m), Simplified(history))
    decreases |history|
  {
    if history != [] {
      var before := history[..|history| - 1];
      var items := Contents(Plain(m), before);
      BlankOfContents(m, before);
      match history[|history| - 1]
      case GetOp(key, now) =>
        BlankOfGet(m, items, key, now);
        ContentsOfAppend(m, Simplified(before), GetOp(key, now));
      case PutOp(key, value, now) =>
        BlankOfPut(m, items, key, value, now, true);
        ContentsOfAppend(m, Simplified(before), PutOp(key, Nil, now));
      case PutIfNotExistOp(key, value, now) =>
        BlankOfPut(m, items, key, value, now, false);
        ContentsOfAppend(m, Simplified(before), PutOp(key, Nil, now));
      case DeleteOp(key) =>
        BlankOfDelete(items, key);
        ContentsOfAppend(m, Simplified(before), DeleteOp(key));
      case ReleaseOp(key) =>
        BlankOfRelease(items, key);
    }
  }

  lemma ContentsOfAppend(m: int, history: seq<Op>, op: Op)
    ensures Contents(Plain(m), history + [op]) == Perform(Plain(m), Contents(Plain(m), history), op).items
  {
    assert (history + [op])[..|history|] == history;
  }

  /**
   After any history of operations, PutIfNotExist and Release included, the keys of the smaller cache are
   keys of the larger one and in the same order there.
   */
  lemma KeysAreIncluded(m: int, n: int, history: seq<Op>, key: string)
    requires 1 <= m <= n
    ensures var s, l := Contents(Plain(m), history), Contents(Plain(n), history);
      Blank(s) == Keep(Blank(l), Keys(s)) && (Has(s, key) ==> Has(l, key))
  {
    var s, l := Contents(Plain(m), history), Contents(Plain(n), history);
    BlankOfContents(m, history);
    BlankOfContents(n, history);
    Inclusion(m, n, Simplified(history), key);
    BlankHas(s, key);
    BlankHas(l, key);
    assert Keys(Blank(s)) == Keys(s) by {
      forall k ensures k in Keys(Blank(s)) <==> k in Keys(s) {
        BlankHas(s, k);
        HasIsInKeys(s, k);
        HasIsInKeys(Blank(s), k);
      }
    }
  }
}
