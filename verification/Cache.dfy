/** The result cache (engine/cache.go): a store map and an insertion queue that are
    updated in separate critical sections around an unlocked engine run. */
module Cache {
  import opened Common

  type Key = string

  datatype Entry = Entry(result: string, createdAt: int)

  /** The two guarded structures. */
  datatype Shelf = Shelf(store: map<Key, Entry>, order: seq<Key>)

  // ---------- the three stages of evictLocked ----------

  predicate Fresh(e: Entry, now: int, ttl: int) {
    now - e.createdAt < ttl
  }

  function Unexpired(store: map<Key, Entry>, now: int, ttl: int): map<Key, Entry> {
    map k | k in store && Fresh(store[k], now, ttl) :: store[k]
  }

  /** The keys of a queue that are still stored. */
  function StillStored(order: seq<Key>, store: map<Key, Entry>): seq<Key> {
    if order == [] then []
    else
      StillStored(order[..|order| - 1], store)
      + if order[|order| - 1] in store then [order[|order| - 1]] else []
  }

  /** The rebuild, skipped unless the store is smaller than the queue. */
  function Rebuilt(s: Shelf): Shelf {
    if |s.store| < |s.order| then s.(order := StillStored(s.order, s.store)) else s
  }

  function PopOldest(s: Shelf, max: nat): Shelf
    decreases |s.order|
  {
    if |s.store| >= max && |s.order| > 0
    then PopOldest(Shelf(s.store - {s.order[0]}, s.order[1..]), max)
    else s
  }

  function Evicted(s: Shelf, now: int, ttl: int, max: nat): Shelf {
    PopOldest(Rebuilt(s.(store := Unexpired(s.store, now, ttl))), max)
  }

  /** Eviction, then the new entry at the end of the queue. */
  function Inserted(s: Shelf, k: Key, result: string, evictAt: int, createdAt: int, ttl: int, max: nat): Shelf {
    var t := Evicted(s, evictAt, ttl, max);
    Shelf(t.store[k := Entry(result, createdAt)], t.order + [k])
  }

  function Lookup(s: Shelf, k: Key, now: int, ttl: int): Option<string> {
    if k in s.store && Fresh(s.store[k], now, ttl) then Some(s.store[k].result) else None
  }

  // ---------- what holds under any interleaving ----------

  ghost predicate Queued(s: Shelf) {
    forall k :: k in s.store ==> k in s.order
  }

  function Elements(order: seq<Key>): set<Key> {
    set k | k in order
  }

  lemma {:induction false} StillStoredMembers(order: seq<Key>, store: map<Key, Entry>)
    ensures forall k :: k in StillStored(order, store) <==> k in order && k in store
    ensures |StillStored(order, store)| <= |order|
  {
    if order != [] {
      StillStoredMembers(order[..|order| - 1], store);
      assert order == order[..|order| - 1] + [order[|order| - 1]];
    }
  }

  lemma {:induction false} ElementsBounded(order: seq<Key>)
    ensures |Elements(order)| <= |order|
    ensures |Elements(order)| == |order| <==> Distinct(order)
  {
    if order != [] {
      var front, last := order[..|order| - 1], order[|order| - 1];
      ElementsBounded(front);
      assert order == front + [last];
      assert Elements(order) == Elements(front) + {last};
      if Distinct(order) {
        assert Distinct(front) && last !in front;
      } else if last in front {
        var i :| 0 <= i < |front| && front[i] == last;
      }
    }
  }

  lemma {:induction false} SubsetSize(a: set<Key>, b: set<Key>)
    requires a <= b
    ensures |a| <= |b|
    ensures |a| == |b| ==> a == b
  {
    assert b == a + (b - a);
  }

  /** After the rebuild step the queue holds exactly the stored keys, also when the length
      test skips the rebuild: then the queue has no duplicates and nothing stale in it. */
  lemma {:induction false} RebuiltIsExact(s: Shelf)
    requires Queued(s)
    ensures Queued(Rebuilt(s)) && Rebuilt(s).store == s.store
    ensures Elements(Rebuilt(s).order) == s.store.Keys
    ensures |s.store| >= |s.order| ==> Distinct(s.order)
  {
    StillStoredMembers(s.order, s.store);
    if |s.store| >= |s.order| {
      ElementsBounded(s.order);
      assert s.store.Keys <= Elements(s.order);
      SubsetSize(s.store.Keys, Elements(s.order));
    }
  }

  lemma {:induction false} PopOldestBounds(s: Shelf, max: nat)
    requires Queued(s) && max >= 1
    ensures Queued(PopOldest(s, max)) && |PopOldest(s, max).store| < max
    decreases |s.order|
  {
    if |s.store| >= max && |s.order| > 0 {
      var t := Shelf(s.store - {s.order[0]}, s.order[1..]);
      assert forall k :: k in t.store ==> k in t.order by {
        assert s.order == [s.order[0]] + s.order[1..];
      }
      PopOldestBounds(t, max);
    } else if |s.order| == 0 {
      assert s.store.Keys == {};
      assert |s.store| == |s.store.Keys| == 0;
    }
  }

  /** Whatever went on before, an insertion leaves every stored key in the queue and at
      most `max` keys in the store. */
  lemma {:induction false} InsertedBounds(s: Shelf, k: Key, result: string, evictAt: int, createdAt: int, ttl: int, max: nat)
    requires Queued(s) && max >= 1
    ensures var t := Inserted(s, k, result, evictAt, createdAt, ttl, max);
            Queued(t) && |t.store| <= max
  {
    var u := s.(store := Unexpired(s.store, evictAt, ttl));
    RebuiltIsExact(u);
    PopOldestBounds(Rebuilt(u), max);
    var v := Evicted(s, evictAt, ttl, max);
    var t := Inserted(s, k, result, evictAt, createdAt, ttl, max);
    assert t.store.Keys == v.store.Keys + {k};
    assert |t.store| == |t.store.Keys| && |v.store| == |v.store.Keys|;
  }

  // ---------- the cache object ----------

  const DEFAULT_SIZE := 100
  const DEFAULT_TTL: int := 600_000_000_000

  class ResultCache {
    var store: map<Key, Entry>
    var order: seq<Key>
    const ttl: int
    const maxSize: nat

    ghost function Contents(): Shelf
      reads this
    {
      Shelf(store, order)
    }

    constructor (ttl: int, maxSize: int)
      ensures this.maxSize == if maxSize <= 0 then DEFAULT_SIZE else maxSize
      ensures this.ttl == if ttl <= 0 then DEFAULT_TTL else ttl
      ensures Contents() == Shelf(map[], [])
    {
      this.maxSize := if maxSize <= 0 then DEFAULT_SIZE else maxSize;
      this.ttl := if ttl <= 0 then DEFAULT_TTL else ttl;
      store := map[];
      order := [];
    }

    /** The first critical section of `Execute`. */
    method Check(k: Key, now: int) returns (hit: Option<string>)
      ensures hit == Lookup(Contents(), k, now, ttl)
    {
      hit := None;
      if k in store && now - store[k].createdAt < ttl {
        hit := Some(store[k].result);
      }
    }

    /** `evictLocked`. */
    method EvictLocked(now: int)
      modifies this
      ensures Contents() == Evicted(old(Contents()), now, ttl, maxSize)
    {
      DropExpired(now);
      Rebuild();
      assert Contents() == Rebuilt(old(Contents()).(store := Unexpired(old(store), now, ttl)));
      while |store| >= maxSize && |order| > 0
        invariant PopOldest(Contents(), maxSize) == Evicted(old(Contents()), now, ttl, maxSize)
        decreases |order|
      {
        var oldest := order[0];
        order := order[1..];
        store := store - {oldest};
      }
    }

    /** The loop that deletes expired entries, in any order. */
    method DropExpired(now: int)
      modifies this`store
      ensures store == Unexpired(old(store), now, ttl)
    {
      var todo := store.Keys;
      ghost var was := store;
      while todo != {}
        invariant todo <= was.Keys
        invariant store == map k | k in was && (k in todo || Fresh(was[k], now, ttl)) :: was[k]
      {
        var k :| k in todo;
        if now - store[k].createdAt >= ttl {
          store := store - {k};
        }
        todo := todo - {k};
      }
    }

    method Rebuild()
      modifies this`order
      ensures Contents() == Rebuilt(old(Contents()))
    {
      if |store| < |order| {
        var filtered: seq<Key> := [];
        for i := 0 to |order|
          invariant order == old(order)
          invariant filtered == StillStored(order[..i], store)
        {
          assert order[..i + 1][..i] == order[..i];
          if order[i] in store {
            filtered := filtered + [order[i]];
          }
        }
        assert order[..|order|] == order;
        order := filtered;
      }
    }

    /** The second critical section of `Execute`, after a successful engine run. */
    method Insert(k: Key, result: string, evictAt: int, createdAt: int)
      modifies this
      ensures Contents() == Inserted(old(Contents()), k, result, evictAt, createdAt, ttl, maxSize)
    {
      EvictLocked(evictAt);
      store := store[k := Entry(result, createdAt)];
      order := order + [k];
    }

    method Len() returns (n: nat)
      ensures n == |Contents().store|
    {
      n := |store|;
    }

    method Clear()
      modifies this
      ensures Contents() == Shelf(map[], [])
    {
      store := map[];
      order := [];
    }
  }
}
