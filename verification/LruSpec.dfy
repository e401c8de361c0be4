/**
 The cache of recovery/cache/lru.go on values: a sequence of entries, the most recently used first.
 The class LruCache.Lru is proved to behave like these functions; the modules LruInclusion,
 LruHistory, LruLifetime and LruOutcome prove what the functions promise.
 */
module LruSpec {
  import opened Wrappers

  // interface{}: a cached value may itself be nil.
  datatype Value = Nil | Boxed(content: int)

  // A zero expiration time is None.
  datatype Item = Item(key: string, value: Value, expiration: Option<int>, refs: int)

  // The options of New; a zero ttl means that entries do not expire.
  datatype Config = Config(maxSize: int, ttl: int, pin: bool)

  datatype Outcome = Returned(value: Value) | CacheFull | Panic

  // The state after an operation, what it returned, and the values handed to the removal callback.
  datatype Answer = Answer(items: seq<Item>, outcome: Outcome, removed: seq<Value>)

  predicate Has(items: seq<Item>, key: string) {
    exists i | 0 <= i < |items| :: items[i].key == key
  }

  predicate DistinctKeys(items: seq<Item>) {
    forall i, j | 0 <= i < j < |items| :: items[i].key != items[j].key
  }

  function IndexOf(items: seq<Item>, key: string): (i: nat)
    requires Has(items, key)
    ensures i < |items| && items[i].key == key
    ensures forall j | 0 <= j < i :: items[j].key != key
  {
    if items[0].key == key then 0 else 1 + IndexOf(items[1..], key)
  }

  function Remove<T>(s: seq<T>, i: nat): (r: seq<T>)
    requires i < |s|
    ensures |r| == |s| - 1
    ensures forall x | x in r :: x in s
  {
    s[..i] + s[i + 1..]
  }

  function Expiry(cfg: Config, now: int): Option<int> {
    if cfg.ttl != 0 then Some(now + cfg.ttl) else None
  }

  function Pinned(cfg: Config): int {
    if cfg.pin then 1 else 0
  }

  function Get(cfg: Config, items: seq<Item>, key: string, now: int): Answer {
    if !Has(items, key) then Answer(items, Returned(Nil), [])
    else
      var i := IndexOf(items, key);
      var item := items[i].(refs := items[i].refs + Pinned(cfg));
      if item.refs == 0 && item.expiration.Some? && now > item.expiration.value then
        Answer(Remove(items, i), Returned(Nil), [item.value])
      else
        Answer([item] + Remove(items, i), Returned(item.value), [])
  }

  // The entry of an existing key after a put.
  function Refreshed(cfg: Config, item: Item, value: Value, now: int, allowUpdate: bool): Item {
    Item(item.key, if allowUpdate then value else item.value,
         if cfg.ttl != 0 then Expiry(cfg, now) else item.expiration,
         item.refs + Pinned(cfg))
  }

  function PutInternal(cfg: Config, items: seq<Item>, key: string, value: Value, now: int, allowUpdate: bool): Answer {
    if Has(items, key) then
      var i := IndexOf(items, key);
      Answer([Refreshed(cfg, items[i], value, now, allowUpdate)] + Remove(items, i), Returned(items[i].value), [])
    else
      var grown := [Item(key, value, Expiry(cfg, now), Pinned(cfg))] + items;
      if |grown| != cfg.maxSize then Answer(grown, Returned(Nil), [])
      else
        var oldest := grown[|grown| - 1];
        if oldest.refs > 0 then Answer(items, CacheFull, [])
        else Answer(grown[..|grown| - 1], Returned(Nil), [oldest.value])
  }

  // Put does not report a full cache.
  function Put(cfg: Config, items: seq<Item>, key: string, value: Value, now: int): Answer {
    if cfg.pin then Answer(items, Panic, [])
    else
      var a := PutInternal(cfg, items, key, value, now, true);
      if a.outcome == CacheFull then a.(outcome := Returned(Nil)) else a
  }

  // A nil existing value is taken for an absent one.
  function PutIfNotExist(cfg: Config, items: seq<Item>, key: string, value: Value, now: int): Answer {
    var a := PutInternal(cfg, items, key, value, now, false);
    if a.outcome == Returned(Nil) then a.(outcome := Returned(value)) else a
  }

  function Delete(items: seq<Item>, key: string): Answer {
    if !Has(items, key) then Answer(items, Returned(Nil), [])
    else
      var i := IndexOf(items, key);
      Answer(Remove(items, i), Returned(Nil), [items[i].value])
  }

  // Releasing an absent key dereferences a nil element.
  function Release(items: seq<Item>, key: string): Answer {
    if !Has(items, key) then Answer(items, Panic, [])
    else
      var i := IndexOf(items, key);
      Answer(items[i := items[i].(refs := items[i].refs - 1)], Returned(Nil), [])
  }

  datatype Op =
    | GetOp(key: string, now: int)
    | PutOp(key: string, value: Value, now: int)
    | PutIfNotExistOp(key: string, value: Value, now: int)
    | DeleteOp(key: string)
    | ReleaseOp(key: string)

  function Perform(cfg: Config, items: seq<Item>, op: Op): Answer {
    match op
    case GetOp(key, now) => Get(cfg, items, key, now)
    case PutOp(key, value, now) => Put(cfg, items, key, value, now)
    case PutIfNotExistOp(key, value, now) => PutIfNotExist(cfg, items, key, value, now)
    case DeleteOp(key) => Delete(items, key)
    case ReleaseOp(key) => Release(items, key)
  }

  // The contents after a history of operations on a new cache.
  function Contents(cfg: Config, history: seq<Op>): seq<Item> {
    if history == [] then []
    else
      var last := |history| - 1;
      Perform(cfg, Contents(cfg, history[..last]), history[last]).items
  }
}
