/**
 The cache of recovery/cache/lru.go in its own form: a circular doubly linked list of elements behind a
 sentinel, most recently used first, and a map from keys to elements. Every operation is proved to change
 the contents as the functions of LruSpec say.

 A list.Element and the cacheEntry it holds are one object here. The mutex makes every operation one
 atomic step. The values handed to the removal callback are collected in a ghost field.
 */
module LruCache {
  import opened Wrappers
  import opened LruSpec

  class Element {
    var prev: Element?
    var next: Element?
    const key: string
    var value: Value
    var expiration: Option<int>
    var refCount: int

    constructor (key: string, value: Value)
      ensures this.key == key && this.value == value && expiration == None && refCount == 0
      ensures prev == null && next == null
    {
      this.key, this.value, expiration, refCount := key, value, None, 0;
      prev, next := null, null;
    }

    function ToItem(): Item
      reads this`value, this`expiration, this`refCount
    {
      Item(key, value, expiration, refCount)
    }
  }

  // Names an index, so that what holds at every index of a list is used only at the indices that are named.
  ghost predicate Slot(i: int) { true }

  ghost predicate Distinct<T>(s: seq<T>) {
    forall i, j {:trigger Slot(i), Slot(j)} | Slot(i) && Slot(j) && 0 <= i < j < |s| :: s[i] != s[j]
  }

  // container/list: the root element is both ends of the ring.
  class AccessList {
    const root: Element
    ghost var Elements: seq<Element>

    ghost predicate Valid()
      reads this, root, Elements
    {
      && root !in Elements
      && Distinct(Elements)
      && root.next == After(-1)
      && root.prev == Before(|Elements|)
      && (forall i {:trigger Slot(i)} | Slot(i) && 0 <= i < |Elements| ::
            Elements[i].next == After(i) && Elements[i].prev == Before(i))
    }

    ghost function After(i: int): Element
      requires -1 <= i < |Elements|
      reads this
    {
      if i + 1 < |Elements| then Elements[i + 1] else root
    }

    ghost function Before(i: int): Element
      requires 0 <= i <= |Elements|
      reads this
    {
      if i > 0 then Elements[i - 1] else root
    }

    constructor ()
      ensures Valid() && Elements == [] && fresh(root)
    {
      var sentinel := new Element("", Nil);
      root := sentinel;
      Elements := [];
      new;
      root.next := root;
      root.prev := root;
    }

    // Links an element in front.
    method PushFront(e: Element)
      requires Valid() && e != root && e !in Elements
      modifies this`Elements, root`next, root`prev, Elements`prev, Elements`next, e`prev, e`next
      ensures Valid() && Elements == [e] + old(Elements)
    {
      e.prev := root;
      e.next := root.next;
      e.prev.next := e;
      e.next.prev := e;
      Elements := [e] + Elements;
      forall i {:trigger Slot(i)} | Slot(i) && 0 <= i < |Elements|
        ensures Elements[i].next == After(i) && Elements[i].prev == Before(i)
      {
        assert Slot(i - 1);
        assert Slot(0);
      }
      forall i, j {:trigger Slot(i), Slot(j)} | Slot(i) && Slot(j) && 0 <= i < j < |Elements| ensures Elements[i] != Elements[j] {
        assert Slot(i - 1) && Slot(j - 1);
      }
    }

    // Unlinks element k.
    method Remove(e: Element, ghost k: nat)
      requires Valid() && k < |Elements| && Elements[k] == e
      modifies this`Elements, root`next, root`prev, Elements`prev, Elements`next
      ensures Valid() && Elements == LruSpec.Remove(old(Elements), k)
    {
      assert Slot(k - 1) && Slot(k) && Slot(k + 1);
      DistinctWithout(Elements, k);
      e.prev.next := e.next;
      e.next.prev := e.prev;
      Elements := LruSpec.Remove(Elements, k);
      forall i {:trigger Slot(i)} | Slot(i) && 0 <= i < |Elements|
        ensures Elements[i].next == After(i) && Elements[i].prev == Before(i)
      {
        assert Slot(i + 1);
      }
    }

    method MoveToFront(e: Element, ghost k: nat)
      requires Valid() && k < |Elements| && Elements[k] == e
      modifies this`Elements, root`next, root`prev, Elements`prev, Elements`next
      ensures Valid() && Elements == [e] + LruSpec.Remove(old(Elements), k)
    {
      MembersOfRemove(Elements, k);
      if root.next == e {
        assert Slot(0) && Slot(k);
        assert Elements == [e] + LruSpec.Remove(Elements, k);
        return;
      }
      Remove(e, k);
      PushFront(e);
    }

    // The least recently used element; nil when there is none.
    method Back() returns (e: Element?)
      requires Valid()
      ensures e == if Elements == [] then null else Elements[|Elements| - 1]
    {
      if root.prev == root { return null; }
      return root.prev;
    }

    method Front() returns (e: Element?)
      requires Valid()
      ensures e == if Elements == [] then null else Elements[0]
    {
      if root.next == root { return null; }
      return root.next;
    }
  }

  // The elements hold the items, in order.
  ghost predicate Hold(es: seq<Element>, items: seq<Item>)
    reads es`value, es`expiration, es`refCount
  {
    |es| == |items| && forall i {:trigger Slot(i)} | Slot(i) && 0 <= i < |es| :: es[i].ToItem() == items[i]
  }

  class Lru {
    const byAccess: AccessList
    var byKey: map<string, Element>
    const cfg: Config
    ghost var Contents: seq<Item>
    ghost var Removed: seq<Value>

    ghost predicate Valid()
      reads this, byAccess, byAccess.root, byAccess.Elements
    {
      && byAccess.Valid()
      && Indexed(byAccess.Elements, byKey)
      && Hold(byAccess.Elements, Contents)
    }

    constructor (cfg: Config)
      ensures Valid() && fresh(byAccess) && fresh(byAccess.root) && byAccess.Elements == []
      ensures this.cfg == cfg && Contents == [] && Removed == []
    {
      this.cfg := cfg;
      byKey := map[];
      byAccess := new AccessList();
      Contents := [];
      Removed := [];
    }

    // Unlinks element k and forgets its key.
    method Unlink(elt: Element, ghost k: nat)
      requires Valid() && k < |Contents| && byAccess.Elements[k] == elt
      modifies this`byKey, this`Contents, byAccess`Elements, byAccess.root`prev, byAccess.root`next,
               byAccess.Elements`prev, byAccess.Elements`next
      ensures Valid() && Contents == LruSpec.Remove(old(Contents), k)
      ensures byAccess.Elements == LruSpec.Remove(old(byAccess.Elements), k)
    {
      IndexedWithout(byAccess.Elements, byKey, k);
      HoldWithout(byAccess.Elements, Contents, k);
      byKey := byKey - {elt.key};
      Contents := LruSpec.Remove(Contents, k);
      byAccess.Remove(elt, k);
    }

    // Makes element k the most recently used.
    method Touch(elt: Element, ghost k: nat)
      requires Valid() && k < |Contents| && byAccess.Elements[k] == elt
      modifies this`Contents, byAccess`Elements, byAccess.root`prev, byAccess.root`next,
               byAccess.Elements`prev, byAccess.Elements`next
      ensures Valid() && Contents == [old(Contents)[k]] + LruSpec.Remove(old(Contents), k)
      ensures byAccess.Elements == [elt] + LruSpec.Remove(old(byAccess.Elements), k)
    {
      IndexedWithout(byAccess.Elements, byKey, k);
      HoldWithout(byAccess.Elements, Contents, k);
      Contents := [Contents[k]] + LruSpec.Remove(Contents, k);
      byAccess.MoveToFront(elt, k);
    }

    // Records in Contents a change that was made to the entry of element k.
    ghost method Record(elt: Element, k: nat)
      requires byAccess.Valid() && Indexed(byAccess.Elements, byKey) && k < |Contents| == |byAccess.Elements|
      requires byAccess.Elements[k] == elt
      requires forall i {:trigger Slot(i)} | Slot(i) && 0 <= i < |Contents| && i != k ::
                 byAccess.Elements[i].ToItem() == Contents[i]
      modifies this`Contents
      ensures Valid() && Contents == old(Contents)[k := elt.ToItem()]
    {
      Contents := Contents[k := elt.ToItem()];
    }

    // Counts one more user of element k when entries are pinned.
    method Pin(elt: Element, ghost k: nat)
      requires Valid() && k < |Contents| && byAccess.Elements[k] == elt
      modifies this`Contents, elt`refCount
      ensures Valid() && Contents == old(Contents)[k := old(Contents)[k].(refs := old(Contents)[k].refs + Pinned(cfg))]
      ensures elt.ToItem() == Contents[k]
    {
      assert Slot(k);
      if cfg.pin {
        elt.refCount := elt.refCount + 1;
      }
      assert elt.ToItem() == Contents[k].(refs := Contents[k].refs + Pinned(cfg));
      Record(elt, k);
    }

    // Elements are only ever linked when they are new.
    twostate predicate OnlyNew()
      reads this, byAccess
    {
      forall e | e in byAccess.Elements :: e in old(byAccess.Elements) || fresh(e)
    }

    method Get(key: string, now: int) returns (value: Value)
      requires Valid()
      modifies this, byAccess, byAccess.root, byAccess.Elements
      ensures Valid() && OnlyNew()
      ensures var a := LruSpec.Get(cfg, old(Contents), key, now);
        Contents == a.items && Returned(value) == a.outcome && Removed == old(Removed) + a.removed
    {
      IndexFindsKeys(byAccess.Elements, byKey, Contents, key);
      if key !in byKey {
        return Nil;
      }
      var elt := byKey[key];
      ghost var k := IndexOf(Contents, key);
      RemoveIgnoresUpdate(Contents, k, Contents[k].(refs := Contents[k].refs + Pinned(cfg)));
      Pin(elt, k);
      value := elt.value;
      if elt.refCount == 0 && elt.expiration.Some? && now > elt.expiration.value {
        Removed := Removed + [value];
        Unlink(elt, k);
        return Nil;
      }
      Touch(elt, k);
    }

    method Delete(key: string)
      requires Valid()
      modifies this, byAccess, byAccess.root, byAccess.Elements
      ensures Valid() && OnlyNew()
      ensures var a := LruSpec.Delete(old(Contents), key);
        Contents == a.items && Removed == old(Removed) + a.removed
    {
      IndexFindsKeys(byAccess.Elements, byKey, Contents, key);
      if key in byKey {
        var elt := byKey[key];
        ghost var k := IndexOf(Contents, key);
        assert Slot(k);
        Removed := Removed + [elt.value];
        Unlink(elt, k);
      }
    }

    // `ok` is false where the source panics.
    method Release(key: string) returns (ok: bool)
      requires Valid()
      modifies this, byAccess, byAccess.root, byAccess.Elements
      ensures Valid() && byAccess.Elements == old(byAccess.Elements)
      ensures var a := LruSpec.Release(old(Contents), key);
        Contents == a.items && (ok <==> a.outcome != Panic) && Removed == old(Removed)
    {
      IndexFindsKeys(byAccess.Elements, byKey, Contents, key);
      if key !in byKey {
        return false;
      }
      var elt := byKey[key];
      ghost var k := IndexOf(Contents, key);
      assert Slot(k);
      elt.refCount := elt.refCount - 1;
      Record(elt, k);
      return true;
    }

    method Size() returns (size: nat)
      requires Valid()
      ensures size == |Contents|
    {
      MapSize(byAccess.Elements, byKey);
      return |byKey|;
    }

    // Overwrites the entry of element k as a put of its key does.
    method Refresh(elt: Element, ghost k: nat, value: Value, now: int, allowUpdate: bool)
      requires Valid() && k < |Contents| && byAccess.Elements[k] == elt
      modifies this`Contents, elt`value, elt`expiration, elt`refCount
      ensures Valid()
      ensures Contents == old(Contents)[k := Refreshed(cfg, old(Contents)[k], value, now, allowUpdate)]
    {
      assert Slot(k);
      if allowUpdate {
        elt.value := value;
      }
      if cfg.ttl != 0 {
        elt.expiration := Some(now + cfg.ttl);
      }
      if cfg.pin {
        elt.refCount := elt.refCount + 1;
      }
      Record(elt, k);
    }

    method NewEntry(key: string, value: Value, now: int) returns (entry: Element)
      ensures fresh(entry) && entry.key == key
      ensures entry.ToItem() == Item(key, value, Expiry(cfg, now), Pinned(cfg))
    {
      entry := new Element(key, value);
      if cfg.pin {
        entry.refCount := entry.refCount + 1;
      }
      if cfg.ttl != 0 {
        entry.expiration := Some(now + cfg.ttl);
      }
    }

    // Links a new entry in front and indexes it.
    method Insert(entry: Element)
      requires Valid() && entry.key !in byKey && entry != byAccess.root && entry !in byAccess.Elements
      modifies this`byKey, this`Contents, byAccess`Elements, byAccess.root`prev, byAccess.root`next,
               byAccess.Elements`prev, byAccess.Elements`next, entry`prev, entry`next
      ensures Valid() && byAccess.Elements == [entry] + old(byAccess.Elements)
      ensures Contents == [old(entry.ToItem())] + old(Contents)
    {
      HoldWith(byAccess.Elements, Contents, entry);
      Contents := [entry.ToItem()] + Contents;
      byKey := byKey[entry.key := entry];
      byAccess.PushFront(entry);
    }

    // Drops the least recently used entry, or the new one when the least recently used is pinned.
    method Evict(entry: Element) returns (outcome: Outcome)
      requires Valid() && byAccess.Elements != [] && byAccess.Elements[0] == entry
      modifies this, byAccess, byAccess.root, byAccess.Elements
      ensures Valid() && forall e | e in byAccess.Elements :: e in old(byAccess.Elements)
      ensures var last := |old(Contents)| - 1;
        if old(Contents)[last].refs > 0 then
          outcome == CacheFull && Contents == old(Contents)[1..] && Removed == old(Removed)
        else
          outcome == Returned(Nil) && Contents == old(Contents)[..last]
          && Removed == old(Removed) + [old(Contents)[last].value]
    {
      ghost var last := |Contents| - 1;
      assert Slot(last);
      var oldest := byAccess.Back();
      if oldest.refCount > 0 {
        var front := byAccess.Front();
        Unlink(front, 0);
        return CacheFull;
      }
      Removed := Removed + [oldest.value];
      Unlink(oldest, last);
      return Returned(Nil);
    }

    method PutExisting(key: string, value: Value, now: int, allowUpdate: bool) returns (outcome: Outcome)
      requires Valid() && key in byKey
      modifies this, byAccess, byAccess.root, byAccess.Elements
      ensures Valid() && forall e | e in byAccess.Elements :: e in old(byAccess.Elements)
      ensures Has(old(Contents), key)
      ensures var a := LruSpec.PutInternal(cfg, old(Contents), key, value, now, allowUpdate);
        Contents == a.items && outcome == a.outcome && Removed == old(Removed)
    {
      IndexFindsKeys(byAccess.Elements, byKey, Contents, key);
      var elt := byKey[key];
      ghost var k := IndexOf(Contents, key);
      assert Slot(k);
      outcome := Returned(elt.value);
      RemoveIgnoresUpdate(Contents, k, Refreshed(cfg, Contents[k], value, now, allowUpdate));
      Refresh(elt, k, value, now, allowUpdate);
      Touch(elt, k);
    }

    method PutNew(key: string, value: Value, now: int) returns (outcome: Outcome)
      requires Valid() && key !in byKey
      modifies this, byAccess, byAccess.root, byAccess.Elements
      ensures Valid() && OnlyNew()
      ensures var grown := [Item(key, value, Expiry(cfg, now), Pinned(cfg))] + old(Contents);
        var oldest := grown[|grown| - 1];
        if |grown| != cfg.maxSize then
          outcome == Returned(Nil) && Contents == grown && Removed == old(Removed)
        else if oldest.refs > 0 then
          outcome == CacheFull && Contents == grown[1..] && Removed == old(Removed)
        else
          outcome == Returned(Nil) && Contents == grown[..|grown| - 1] && Removed == old(Removed) + [oldest.value]
    {
      var entry := NewEntry(key, value, now);
      Insert(entry);
      MapSize(byAccess.Elements, byKey);
      if |byKey| == cfg.maxSize {
        outcome := Evict(entry);
      } else {
        outcome := Returned(Nil);
      }
    }

    method PutInternal(key: string, value: Value, now: int, allowUpdate: bool) returns (outcome: Outcome)
      requires Valid()
      modifies this, byAccess, byAccess.root, byAccess.Elements
      ensures Valid() && OnlyNew()
      ensures var a := LruSpec.PutInternal(cfg, old(Contents), key, value, now, allowUpdate);
        Contents == a.items && outcome == a.outcome && Removed == old(Removed) + a.removed
    {
      if key in byKey {
        outcome := PutExisting(key, value, now, allowUpdate);
      } else {
        IndexFindsKeys(byAccess.Elements, byKey, Contents, key);
        outcome := PutNew(key, value, now);
        assert ([Item(key, value, Expiry(cfg, now), Pinned(cfg))] + old(Contents))[1..] == old(Contents);
      }
    }

    // `outcome` is Panic in pin mode, where Put is not available.
    method Put(key: string, value: Value, now: int) returns (outcome: Outcome)
      requires Valid()
      modifies this, byAccess, byAccess.root, byAccess.Elements
      ensures Valid() && OnlyNew()
      ensures var a := LruSpec.Put(cfg, old(Contents), key, value, now);
        Contents == a.items && outcome == a.outcome && Removed == old(Removed) + a.removed
    {
      if cfg.pin {
        return Panic;
      }
      outcome := PutInternal(key, value, now, true);
      if outcome == CacheFull {
        outcome := Returned(Nil);
      }
    }

    method PutIfNotExist(key: string, value: Value, now: int) returns (outcome: Outcome)
      requires Valid()
      modifies this, byAccess, byAccess.root, byAccess.Elements
      ensures Valid() && OnlyNew()
      ensures var a := LruSpec.PutIfNotExist(cfg, old(Contents), key, value, now);
        Contents == a.items && outcome == a.outcome && Removed == old(Removed) + a.removed
    {
      outcome := PutInternal(key, value, now, false);
      if outcome == Returned(Nil) {
        outcome := Returned(value);
      }
    }
  }

  // The map finds exactly the elements of the list, each under its own key.
  ghost predicate Indexed(es: seq<Element>, byKey: map<string, Element>) {
    && (forall key | key in byKey :: byKey[key] in es && byKey[key].key == key)
    && (forall e | e in es :: e.key in byKey && byKey[e.key] == e)
  }

  lemma DistinctWithout<T>(s: seq<T>, k: nat)
    requires Distinct(s) && k < |s|
    ensures Distinct(LruSpec.Remove(s, k))
  {
    var r := LruSpec.Remove(s, k);
    forall i, j {:trigger Slot(i), Slot(j)} | Slot(i) && Slot(j) && 0 <= i < j < |r| ensures r[i] != r[j] {
      assert Slot(i + 1) && Slot(j + 1);
    }
  }

  lemma MembersOfRemove<T>(s: seq<T>, k: nat)
    requires Distinct(s) && k < |s|
    ensures forall x :: x in LruSpec.Remove(s, k) <==> x in s && x != s[k]
  {
    var r := LruSpec.Remove(s, k);
    forall x | x in s && x != s[k] ensures x in r {
      var i :| 0 <= i < |s| && s[i] == x;
      assert r[if i < k then i else i - 1] == x;
    }
    forall x | x in r ensures x in s && x != s[k] {
      var i :| 0 <= i < |r| && r[i] == x;
      assert Slot(i) && Slot(k) && Slot(i + 1);
    }
  }

  lemma IndexedWithout(es: seq<Element>, byKey: map<string, Element>, k: nat)
    requires Distinct(es) && Indexed(es, byKey) && k < |es|
    ensures Indexed(LruSpec.Remove(es, k), byKey - {es[k].key})
    ensures Indexed([es[k]] + LruSpec.Remove(es, k), byKey)
  {
    MembersOfRemove(es, k);
  }

  lemma HoldWithout(es: seq<Element>, items: seq<Item>, k: nat)
    requires Hold(es, items) && k < |es|
    ensures Hold(LruSpec.Remove(es, k), LruSpec.Remove(items, k))
    ensures Hold([es[k]] + LruSpec.Remove(es, k), [items[k]] + LruSpec.Remove(items, k))
  {
    var es1, items1 := LruSpec.Remove(es, k), LruSpec.Remove(items, k);
    forall i {:trigger Slot(i)} | Slot(i) && 0 <= i < |es1| ensures es1[i].ToItem() == items1[i] {
      assert Slot(i) && Slot(i + 1);
    }
    forall i {:trigger Slot(i)} | Slot(i) && 0 <= i < |es| ensures ([es[k]] + es1)[i].ToItem() == ([items[k]] + items1)[i] {
      assert Slot(i - 1) && Slot(i) && Slot(k);
    }
  }

  lemma IndexFindsKeys(es: seq<Element>, byKey: map<string, Element>, items: seq<Item>, key: string)
    requires Indexed(es, byKey) && Hold(es, items)
    ensures key in byKey <==> Has(items, key)
    ensures key in byKey ==> es[IndexOf(items, key)] == byKey[key]
  {
    if key in byKey {
      var k :| 0 <= k < |es| && es[k] == byKey[key];
      assert Slot(k);
      assert items[k].key == key;
      var i := IndexOf(items, key);
      assert Slot(i);
      assert es[i].key == key;
    }
    if Has(items, key) {
      var k :| 0 <= k < |items| && items[k].key == key;
      assert Slot(k);
      assert es[k].key == key;
    }
  }

  lemma RemoveIgnoresUpdate<T>(s: seq<T>, k: nat, x: T)
    requires k < |s|
    ensures LruSpec.Remove(s[k := x], k) == LruSpec.Remove(s, k)
  {}

  lemma MapSize(es: seq<Element>, byKey: map<string, Element>)
    requires Distinct(es) && Indexed(es, byKey)
    ensures |byKey| == |es|
    decreases |es|
  {
    if es == [] {
      if key :| key in byKey { assert byKey[key] in es; }
    } else {
      IndexedWithout(es, byKey, 0);
      var rest := LruSpec.Remove(es, 0);
      DistinctWithout(es, 0);
      MapSize(rest, byKey - {es[0].key});
      assert byKey.Keys == (byKey - {es[0].key}).Keys + {es[0].key};
    }
  }

  lemma HoldWith(es: seq<Element>, items: seq<Item>, e: Element)
    requires Hold(es, items)
    ensures Hold([e] + es, [e.ToItem()] + items)
  {
    forall i {:trigger Slot(i)} | Slot(i) && 0 <= i < |es| + 1
      ensures ([e] + es)[i].ToItem() == ([e.ToItem()] + items)[i]
    {
      assert Slot(i - 1);
    }
  }
}
