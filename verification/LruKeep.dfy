/** Keeping the items of some keys, in order: every removal of the cache is of this form. */
module LruKeep {
  import opened LruSpec

  function Keys(items: seq<Item>): set<string> {
    set i | 0 <= i < |items| :: items[i].key
  }

  function Keep(items: seq<Item>, keys: set<string>): seq<Item> {
    if items == [] then []
    else (if items[0].key in keys then [items[0]] else []) + Keep(items[1..], keys)
  }

  lemma {:induction false} KeepConcat(xs: seq<Item>, ys: seq<Item>, keys: set<string>)
    ensures Keep(xs + ys, keys) == Keep(xs, keys) + Keep(ys, keys)
    decreases |xs|
  {
    if xs == [] {
      assert xs + ys == ys;
    } else {
      assert (xs + ys)[1..] == xs[1..] + ys;
      KeepConcat(xs[1..], ys, keys);
    }
  }

  lemma {:induction false} KeepTwice(items: seq<Item>, a: set<string>, b: set<string>)
    ensures Keep(Keep(items, a), b) == Keep(items, a * b)
    decreases |items|
  {
    if items != [] {
      KeepTwice(items[1..], a, b);
      var head := if items[0].key in a then [items[0]] else [];
      KeepConcat(head, Keep(items[1..], a), b);
    }
  }

  // Only the keys that occur matter.
  lemma {:induction false} KeepRelevant(items: seq<Item>, a: set<string>, b: set<string>)
    requires forall i | 0 <= i < |items| :: items[i].key in a <==> items[i].key in b
    ensures Keep(items, a) == Keep(items, b)
    decreases |items|
  {
    if items != [] {
      KeepRelevant(items[1..], a, b);
    }
  }

  lemma {:induction false} KeepAll(items: seq<Item>, keys: set<string>)
    requires forall i | 0 <= i < |items| :: items[i].key in keys
    ensures Keep(items, keys) == items
    decreases |items|
  {
    if items != [] {
      KeepAll(items[1..], keys);
    }
  }

  lemma {:induction false} KeepNone(items: seq<Item>, keys: set<string>)
    requires forall i | 0 <= i < |items| :: items[i].key !in keys
    ensures Keep(items, keys) == []
    decreases |items|
  {
    if items != [] {
      KeepNone(items[1..], keys);
    }
  }

  lemma {:induction false} KeepIsSubset(items: seq<Item>, keys: set<string>)
    ensures |Keep(items, keys)| <= |items|
    ensures forall x :: x in Keep(items, keys) <==> x in items && x.key in keys
    ensures DistinctKeys(items) ==> DistinctKeys(Keep(items, keys))
    decreases |items|
  {
    if items != [] {
      KeepIsSubset(items[1..], keys);
      var rest := Keep(items[1..], keys);
      assert forall x :: x in items <==> x == items[0] || x in items[1..];
      if DistinctKeys(items) {
        forall i | 0 <= i < |rest| ensures rest[i].key != items[0].key {
          assert rest[i] in items[1..];
        }
      }
    }
  }

  lemma {:induction false} KeepLast(items: seq<Item>, keys: set<string>)
    requires items != [] && items[|items| - 1].key in keys
    ensures var kept := Keep(items, keys); kept != [] && kept[|kept| - 1] == items[|items| - 1]
  {
    var n := |items| - 1;
    assert items == items[..n] + [items[n]];
    KeepConcat(items[..n], [items[n]], keys);
    KeepAll([items[n]], keys);
  }

  lemma {:induction false} RemoveKeepsOthers(items: seq<Item>, i: nat, keys: set<string>)
    requires i < |items| && forall j | 0 <= j < |items| :: items[j].key in keys <==> j != i
    ensures Remove(items, i) == Keep(items, keys)
    decreases |items|
  {
    if i == 0 {
      KeepAll(items[1..], keys);
    } else {
      RemoveKeepsOthers(items[1..], i - 1, keys);
      assert Remove(items, i) == [items[0]] + Remove(items[1..], i - 1);
    }
  }

  lemma RemoveIsKeep(items: seq<Item>, i: nat)
    requires DistinctKeys(items) && i < |items|
    ensures Remove(items, i) == Keep(items, Keys(items) - {items[i].key})
  {
    RemoveKeepsOthers(items, i, Keys(items) - {items[i].key});
  }

  lemma DropLastIsKeep(items: seq<Item>)
    requires DistinctKeys(items) && items != []
    ensures items[..|items| - 1] == Keep(items, Keys(items) - {items[|items| - 1].key})
  {
    RemoveIsKeep(items, |items| - 1);
    assert items[|items| - 1 + 1..] == [];
  }

  lemma HasIsInKeys(items: seq<Item>, key: string)
    ensures Has(items, key) <==> key in Keys(items)
  {}

  lemma {:induction false} KeysOfKeep(items: seq<Item>, keys: set<string>)
    ensures Keys(Keep(items, keys)) == Keys(items) * keys
  {
    KeepIsSubset(items, keys);
    var kept := Keep(items, keys);
    forall k | k in Keys(items) * keys ensures k in Keys(kept) {
      var i :| 0 <= i < |items| && items[i].key == k;
      assert items[i] in kept;
    }
    forall k | k in Keys(kept) ensures k in Keys(items) * keys {
      var i :| 0 <= i < |kept| && kept[i].key == k;
      assert kept[i] in items;
    }
  }

  lemma RemoveKeepsKeys(items: seq<Item>, i: nat)
    requires DistinctKeys(items) && i < |items|
    ensures DistinctKeys(Remove(items, i))
    ensures Keys(Remove(items, i)) == Keys(items) - {items[i].key}
    ensures forall j | 0 <= j < |Remove(items, i)| :: Remove(items, i)[j].key != items[i].key
  {
    RemoveIsKeep(items, i);
    KeepIsSubset(items, Keys(items) - {items[i].key});
    KeysOfKeep(items, Keys(items) - {items[i].key});
    var rest := Remove(items, i);
    forall j | 0 <= j < |rest| ensures rest[j].key != items[i].key {
      assert rest[j].key in Keys(rest);
    }
  }
}
