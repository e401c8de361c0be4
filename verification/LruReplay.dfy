/** The cache in its own form behaves as the histories of LruSpec say, so what is proved of them holds of it. */
module LruReplay {
  import opened Wrappers
  import LruSpec
  import opened LruCache
  import opened LruHistory

  // Performs one operation; a panic leaves the contents as they were.
  method Apply(c: Lru, op: LruSpec.Op)
    requires c.Valid()
    modifies c, c.byAccess, c.byAccess.root, c.byAccess.Elements
    ensures c.Valid() && forall e | e in c.byAccess.Elements :: e in old(c.byAccess.Elements) || fresh(e)
    ensures c.Contents == LruSpec.Perform(c.cfg, old(c.Contents), op).items
  {
    match op {
      case GetOp(key, now) =>
        var value := c.Get(key, now);
      case PutOp(key, value, now) =>
        var outcome := c.Put(key, value, now);
      case PutIfNotExistOp(key, value, now) =>
        var outcome := c.PutIfNotExist(key, value, now);
      case DeleteOp(key) =>
        c.Delete(key);
      case ReleaseOp(key) =>
        var ok := c.Release(key);
    }
  }

  /** A new cache that is taken through a history holds exactly the contents of that history. */
  method Replay(cfg: LruSpec.Config, history: seq<LruSpec.Op>) returns (c: Lru)
    ensures fresh(c) && c.Valid() && c.cfg == cfg
    ensures c.Contents == LruSpec.Contents(cfg, history)
    ensures cfg.maxSize >= 1 ==> |c.byKey| < cfg.maxSize
  {
    c := new Lru(cfg);
    for i := 0 to |history|
      invariant c.Valid() && c.cfg == cfg && fresh(c) && fresh(c.byAccess) && fresh(c.byAccess.root)
      invariant forall k | 0 <= k < |c.byAccess.Elements| :: fresh(c.byAccess.Elements[k])
      invariant c.Contents == LruSpec.Contents(cfg, history[..i])
    {
      assert history[..i + 1][..i] == history[..i];
      ghost var before := c.byAccess.Elements;
      Apply(c, history[i]);
      forall k | 0 <= k < |c.byAccess.Elements| ensures fresh(c.byAccess.Elements[k]) {
        var e := c.byAccess.Elements[k];
        assert e in c.byAccess.Elements;
        if e in before {
          var j :| 0 <= j < |before| && before[j] == e;
        }
      }
    }
    assert history[..|history|] == history;
    if cfg.maxSize >= 1 {
      SizeStaysBelowMax(cfg, history);
      MapSize(c.byAccess.Elements, c.byKey);
    }
  }
}
