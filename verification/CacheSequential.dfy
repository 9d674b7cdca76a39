/** The result cache used by one caller at a time (engine/cache.go): it refines a bounded
    list that forgets its oldest insertions, and overlapping callers break exactly that. */
module CacheSequential {
  import opened Common
  import opened Cache

  // ---------- the abstract cache ----------

  datatype Item = Item(k: Key, result: string, createdAt: int)

  function FreshItems(items: seq<Item>, now: int, ttl: int): seq<Item> {
    if items == [] then []
    else
      FreshItems(items[..|items| - 1], now, ttl)
      + if now - items[|items| - 1].createdAt < ttl then [items[|items| - 1]] else []
  }

  /** The youngest `n` items. */
  function Youngest(items: seq<Item>, n: nat): seq<Item> {
    if |items| <= n then items else items[|items| - n..]
  }

  function Remember(items: seq<Item>, x: Item, evictAt: int, ttl: int, max: nat): seq<Item>
    requires max >= 1
  {
    Youngest(FreshItems(items, evictAt, ttl), max - 1) + [x]
  }

  function Recall(items: seq<Item>, k: Key, now: int, ttl: int): Option<string> {
    if items == [] then None
    else
      var x := items[|items| - 1];
      if x.k == k then (if now - x.createdAt < ttl then Some(x.result) else None)
      else Recall(items[..|items| - 1], k, now, ttl)
  }

  // ---------- calls that do not overlap ----------

  /** One `Execute`: the clock readings it takes and what the engine does if it is asked. */
  datatype Call = Call(k: Key, checkAt: int, ran: Option<string>, evictAt: int, createdAt: int)

  ghost predicate Clocked(calls: seq<Call>) {
    && (forall i :: 0 <= i < |calls| ==> calls[i].checkAt <= calls[i].evictAt <= calls[i].createdAt)
    && (forall i, j :: 0 <= i < j < |calls| ==> calls[i].createdAt <= calls[j].checkAt)
  }

  /** The answer of one call; `None` is the engine's error. */
  function AnswerOf(s: Shelf, c: Call, ttl: int): Option<string> {
    match Lookup(s, c.k, c.checkAt, ttl)
    case Some(r) => Some(r)
    case None => c.ran
  }

  function After(s: Shelf, c: Call, ttl: int, max: nat): Shelf {
    if Lookup(s, c.k, c.checkAt, ttl).Some? || c.ran.None? then s
    else Inserted(s, c.k, c.ran.value, c.evictAt, c.createdAt, ttl, max)
  }

  function Played(calls: seq<Call>, ttl: int, max: nat): Shelf {
    if calls == [] then Shelf(map[], [])
    else After(Played(calls[..|calls| - 1], ttl, max), calls[|calls| - 1], ttl, max)
  }

  function AbstractAnswer(items: seq<Item>, c: Call, ttl: int): Option<string> {
    match Recall(items, c.k, c.checkAt, ttl)
    case Some(r) => Some(r)
    case None => c.ran
  }

  function AbstractAfter(items: seq<Item>, c: Call, ttl: int, max: nat): seq<Item>
    requires max >= 1
  {
    if Recall(items, c.k, c.checkAt, ttl).Some? || c.ran.None? then items
    else Remember(items, Item(c.k, c.ran.value, c.createdAt), c.evictAt, ttl, max)
  }

  function AbstractPlayed(calls: seq<Call>, ttl: int, max: nat): seq<Item>
    requires max >= 1
  {
    if calls == [] then []
    else AbstractAfter(AbstractPlayed(calls[..|calls| - 1], ttl, max), calls[|calls| - 1], ttl, max)
  }

  // ---------- the abstraction ----------

  ghost predicate AllStored(order: seq<Key>, store: map<Key, Entry>) {
    forall k :: k in order ==> k in store
  }

  /** The queue is the key set, each key once. */
  ghost predicate Exact(s: Shelf) {
    Distinct(s.order) && AllStored(s.order, s.store) && Queued(s)
  }

  function Items(order: seq<Key>, store: map<Key, Entry>): seq<Item>
    requires AllStored(order, store)
  {
    seq(|order|, i requires 0 <= i < |order| =>
      Item(order[i], store[order[i]].result, store[order[i]].createdAt))
  }

  ghost predicate Aged(items: seq<Item>, now: int) {
    && (forall i, j :: 0 <= i < j < |items| ==> items[i].createdAt <= items[j].createdAt)
    && (forall i :: 0 <= i < |items| ==> items[i].createdAt <= now)
  }

  // ---------- eviction refines forgetting ----------

  lemma {:induction false} StillStoredAll(order: seq<Key>, store: map<Key, Entry>)
    requires AllStored(order, store)
    ensures StillStored(order, store) == order
  {
    if order != [] {
      assert AllStored(order[..|order| - 1], store);
      StillStoredAll(order[..|order| - 1], store);
    }
  }

  lemma {:induction false} StillStoredExact(order: seq<Key>, store: map<Key, Entry>)
    requires Distinct(order)
    ensures Distinct(StillStored(order, store)) && AllStored(StillStored(order, store), store)
  {
    StillStoredMembers(order, store);
    if order != [] {
      var n := |order| - 1;
      StillStoredExact(order[..n], store);
      StillStoredMembers(order[..n], store);
      var kept := StillStored(order[..n], store);
      forall i | 0 <= i < |kept|
        ensures kept[i] != order[n]
      {
        assert kept[i] in kept;
      }
    }
  }

  /** On an exact shelf the length test never changes the outcome of the rebuild. */
  lemma {:induction false} RebuildAlways(s: Shelf)
    requires Distinct(s.order) && Queued(s)
    ensures Rebuilt(s).order == StillStored(s.order, s.store)
    ensures Exact(Rebuilt(s))
  {
    RebuiltIsExact(s);
    StillStoredExact(s.order, s.store);
    if |s.store| >= |s.order| {
      assert AllStored(s.order, s.store) by {
        forall k | k in s.order
          ensures k in s.store
        {
          assert k in Elements(s.order);
        }
      }
      StillStoredAll(s.order, s.store);
    }
  }

  lemma {:induction false} FreshItemsOfQueue(order: seq<Key>, store: map<Key, Entry>, now: int, ttl: int)
    requires AllStored(order, store)
    ensures var kept := StillStored(order, Unexpired(store, now, ttl));
            && AllStored(kept, Unexpired(store, now, ttl))
            && Items(kept, Unexpired(store, now, ttl)) == FreshItems(Items(order, store), now, ttl)
  {
    var young := Unexpired(store, now, ttl);
    StillStoredMembers(order, young);
    if order != [] {
      var front, last := order[..|order| - 1], order[|order| - 1];
      assert AllStored(front, store);
      FreshItemsOfQueue(front, store, now, ttl);
      StillStoredMembers(front, young);
      assert Items(order, store)[..|order| - 1] == Items(front, store);
      assert last in young <==> now - store[last].createdAt < ttl;
    }
  }

  lemma {:induction false} ExactSize(s: Shelf)
    requires Exact(s)
    ensures |s.store| == |s.order|
  {
    ElementsBounded(s.order);
    assert Elements(s.order) == s.store.Keys;
  }

  lemma {:induction false} PopFrontExact(s: Shelf, t: Shelf)
    requires Exact(s) && s.order != [] && t == Shelf(s.store - {s.order[0]}, s.order[1..])
    ensures Exact(t)
  {
    forall k
      ensures k in t.order <==> k in s.order && k != s.order[0]
    {
      TailMembers(s.order, k);
    }
  }

  /** Popping the front removes the first item. */
  lemma {:induction false} PopFront(s: Shelf, t: Shelf)
    requires Exact(s) && s.order != [] && t == Shelf(s.store - {s.order[0]}, s.order[1..])
    ensures Exact(t) && Items(t.order, t.store) == Items(s.order, s.store)[1..]
  {
    PopFrontExact(s, t);
    forall i | 0 <= i < |t.order|
      ensures Items(t.order, t.store)[i] == Items(s.order, s.store)[i + 1]
    {
      assert t.order[i] in t.order;
    }
  }

  lemma {:induction false} YoungestOfTail(items: seq<Item>, n: nat)
    requires |items| > n
    ensures Youngest(items[1..], n) == Youngest(items, n)
  {
  }

  lemma {:induction false} PopOldestRefines(s: Shelf, max: nat)
    requires Exact(s) && max >= 1
    ensures Exact(PopOldest(s, max))
    ensures Items(PopOldest(s, max).order, PopOldest(s, max).store) == Youngest(Items(s.order, s.store), max - 1)
    decreases |s.order|
  {
    ExactSize(s);
    if |s.store| >= max && |s.order| > 0 {
      var t := Shelf(s.store - {s.order[0]}, s.order[1..]);
      PopFront(s, t);
      assert |Items(s.order, s.store)| > max - 1;
      YoungestOfTail(Items(s.order, s.store), max - 1);
      PopOldestRefines(t, max);
      assert PopOldest(s, max) == PopOldest(t, max);
    } else {
      assert PopOldest(s, max) == s;
      assert |Items(s.order, s.store)| <= max - 1;
    }
  }

  lemma {:induction false} EvictionRefines(s: Shelf, now: int, ttl: int, max: nat)
    requires Exact(s) && max >= 1
    ensures Exact(Evicted(s, now, ttl, max))
    ensures Items(Evicted(s, now, ttl, max).order, Evicted(s, now, ttl, max).store)
         == Youngest(FreshItems(Items(s.order, s.store), now, ttl), max - 1)
  {
    var u := s.(store := Unexpired(s.store, now, ttl));
    RebuildAlways(u);
    FreshItemsOfQueue(s.order, s.store, now, ttl);
    PopOldestRefines(Rebuilt(u), max);
  }

  /** The keys that are left after an eviction were fresh before it. */
  lemma {:induction false} EvictedKeysFresh(s: Shelf, max: nat)
    ensures forall k :: k in PopOldest(s, max).store ==> k in s.store
    decreases |s.order|
  {
    if |s.store| >= max && |s.order| > 0 {
      EvictedKeysFresh(Shelf(s.store - {s.order[0]}, s.order[1..]), max);
    }
  }

  lemma {:induction false} LookupRefines(order: seq<Key>, store: map<Key, Entry>, k: Key, now: int, ttl: int)
    requires AllStored(order, store) && Distinct(order)
    ensures Recall(Items(order, store), k, now, ttl)
         == if k in order && Fresh(store[k], now, ttl) then Some(store[k].result) else None
  {
    if order != [] {
      var front, last := order[..|order| - 1], order[|order| - 1];
      assert AllStored(front, store) && Distinct(front);
      assert Items(order, store)[..|order| - 1] == Items(front, store);
      assert order == front + [last];
      if last != k {
        LookupRefines(front, store, k, now, ttl);
      }
    }
  }

  lemma {:induction false} AppendNew(s: Shelf, k: Key, e: Entry)
    requires Exact(s) && k !in s.store
    ensures var t := Shelf(s.store[k := e], s.order + [k]);
            Exact(t) && Items(t.order, t.store) == Items(s.order, s.store) + [Item(k, e.result, e.createdAt)]
  {
  }

  /** Inserting a key that was not a hit keeps the queue exact and refines remembering. */
  lemma {:induction false} InsertionRefines(s: Shelf, c: Call, ttl: int, max: nat)
    requires Exact(s) && max >= 1
    requires Lookup(s, c.k, c.checkAt, ttl).None? && c.ran.Some? && c.checkAt <= c.evictAt
    ensures Exact(After(s, c, ttl, max))
    ensures Items(After(s, c, ttl, max).order, After(s, c, ttl, max).store)
         == Remember(Items(s.order, s.store), Item(c.k, c.ran.value, c.createdAt), c.evictAt, ttl, max)
  {
    var e := Evicted(s, c.evictAt, ttl, max);
    var t := After(s, c, ttl, max);
    EvictionRefines(s, c.evictAt, ttl, max);
    EvictedKeysFresh(Rebuilt(s.(store := Unexpired(s.store, c.evictAt, ttl))), max);
    assert c.k !in e.store;
    AppendNew(e, c.k, Entry(c.ran.value, c.createdAt));
    assert t == Shelf(e.store[c.k := Entry(c.ran.value, c.createdAt)], e.order + [c.k]);
  }

  lemma {:induction false} FreshItemsAged(items: seq<Item>, now: int, ttl: int, at: int)
    requires Aged(items, at)
    ensures Aged(FreshItems(items, now, ttl), at)
    ensures forall x :: x in FreshItems(items, now, ttl) ==> x in items
  {
    if items != [] {
      var n := |items| - 1;
      assert Aged(items[..n], at);
      FreshItemsAged(items[..n], now, ttl, at);
      var kept := FreshItems(items[..n], now, ttl);
      forall i | 0 <= i < |kept|
        ensures kept[i].createdAt <= items[n].createdAt
      {
        assert kept[i] in items[..n];
      }
    }
  }

  /** The last clock reading of a run, as a bound for everything stored. */
  function LastTime(calls: seq<Call>): int {
    if calls == [] then 0 else calls[|calls| - 1].createdAt
  }

  /** The shelf holds exactly these items: the queue is the stored keys, each once, in this
      order. */
  ghost predicate Refines(s: Shelf, items: seq<Item>) {
    Exact(s) && Items(s.order, s.store) == items
  }

  lemma {:induction false} RememberAged(items: seq<Item>, x: Item, evictAt: int, ttl: int, max: nat)
    requires max >= 1 && Aged(items, x.createdAt)
    ensures Aged(Remember(items, x, evictAt, ttl, max), x.createdAt)
  {
    FreshItemsAged(items, evictAt, ttl, x.createdAt);
  }

  /** One call on an exact shelf answers as the abstract list does and leaves what it leaves. */
  lemma {:induction false} CallRefines(s: Shelf, items: seq<Item>, c: Call, ttl: int, max: nat)
    requires max >= 1 && Refines(s, items) && Aged(items, c.checkAt)
    requires c.checkAt <= c.evictAt <= c.createdAt
    ensures Lookup(s, c.k, c.checkAt, ttl) == Recall(items, c.k, c.checkAt, ttl)
    ensures Refines(After(s, c, ttl, max), AbstractAfter(items, c, ttl, max))
    ensures Aged(AbstractAfter(items, c, ttl, max), c.createdAt)
  {
    LookupRefines(s.order, s.store, c.k, c.checkAt, ttl);
    if Lookup(s, c.k, c.checkAt, ttl).None? && c.ran.Some? {
      InsertionRefines(s, c, ttl, max);
      RememberAged(items, Item(c.k, c.ran.value, c.createdAt), c.evictAt, ttl, max);
    }
  }

  /** Calls that do not overlap, on a clock that does not run back: the queue is exactly the
      stored keys, each once, oldest first; and cache and answers are those of the abstract
      list that keeps the youngest fresh insertions. */
  lemma {:induction false} SequentialRefines(calls: seq<Call>, ttl: int, max: nat)
    requires max >= 1 && Clocked(calls)
    ensures Refines(Played(calls, ttl, max), AbstractPlayed(calls, ttl, max))
    ensures calls != [] ==> Aged(AbstractPlayed(calls, ttl, max), LastTime(calls))
  {
    if calls != [] {
      var front, c := calls[..|calls| - 1], calls[|calls| - 1];
      SequentialRefines(front, ttl, max);
      var items := AbstractPlayed(front, ttl, max);
      assert front != [] ==> LastTime(front) == calls[|calls| - 2].createdAt <= c.checkAt;
      assert Aged(items, c.checkAt);
      CallRefines(Played(front, ttl, max), items, c, ttl, max);
    }
  }

  /** Every answer is the abstract one. */
  lemma {:induction false} AnswersRefine(calls: seq<Call>, ttl: int, max: nat, n: nat)
    requires max >= 1 && Clocked(calls) && n < |calls|
    ensures AnswerOf(Played(calls[..n], ttl, max), calls[n], ttl)
         == AbstractAnswer(AbstractPlayed(calls[..n], ttl, max), calls[n], ttl)
  {
    SequentialRefines(calls[..n], ttl, max);
    var s := Played(calls[..n], ttl, max);
    LookupRefines(s.order, s.store, calls[n].k, calls[n].checkAt, ttl);
  }

  /** An insertion leaves the queue exact if and only if its key is not stored any more once
      the eviction is done. */
  lemma {:induction false} ExactInsertionIff(s: Shelf, k: Key, result: string, evictAt: int, createdAt: int,
                                             ttl: int, max: nat)
    requires Exact(s) && max >= 1
    ensures Exact(Inserted(s, k, result, evictAt, createdAt, ttl, max)) <==> k !in Evicted(s, evictAt, ttl, max).store
  {
    EvictionRefines(s, evictAt, ttl, max);
    var e := Evicted(s, evictAt, ttl, max);
    if k !in e.store {
      AppendNew(e, k, Entry(result, createdAt));
    } else {
      var i :| 0 <= i < |e.order| && e.order[i] == k;
      var order := e.order + [k];
      assert order[i] == order[|e.order|] == k;
    }
  }
}
