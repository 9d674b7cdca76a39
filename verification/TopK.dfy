/** Bounded top-k selection (material/local/local.go, `topK` and `Search`): the heap-based
    selection agrees with sorting everything and taking the first k. */
module TopK {
  import opened Common
  import opened Heap

  type Similarity = (seq<real>, seq<real>) -> real

  // ---------- the simple form ----------

  method ContainsMediaType(types: seq<string>, mt: string) returns (found: bool)
    ensures found <==> exists i :: 0 <= i < |types| && types[i] == mt
  {
    for i := 0 to |types|
      invariant forall j :: 0 <= j < i ==> types[j] != mt
    {
      if types[i] == mt {
        return true;
      }
    }
    found := false;
  }

  predicate Matches(types: seq<string>, e: IndexEntry) {
    types == [] || e.mediaType in types
  }

  /** The matching entries, scored, in index order. */
  function Candidates(entries: seq<IndexEntry>, query: seq<real>, types: seq<string>, sim: Similarity): seq<Scored> {
    if entries == [] then []
    else
      var e := entries[|entries| - 1];
      Candidates(entries[..|entries| - 1], query, types, sim)
      + if Matches(types, e) then [Scored(e, sim(query, e.vector))] else []
  }

  function Scores(s: seq<Scored>): seq<real> {
    seq(|s|, i requires 0 <= i < |s| => s[i].score)
  }

  function InsertDescending(x: real, s: seq<real>): seq<real> {
    if s == [] || x >= s[0] then [x] + s else [s[0]] + InsertDescending(x, s[1..])
  }

  /** All scores, greatest first. */
  function SortDescending(s: seq<real>): seq<real> {
    if s == [] then [] else InsertDescending(s[0], SortDescending(s[1..]))
  }

  ghost predicate Descending(s: seq<real>) {
    forall i, j :: 0 <= i < j < |s| ==> s[i] >= s[j]
  }

  // ---------- sorting facts ----------

  lemma {:induction false} InsertBag(x: real, s: seq<real>)
    ensures multiset(InsertDescending(x, s)) == multiset(s) + multiset{x}
  {
    if s != [] && x < s[0] {
      InsertBag(x, s[1..]);
      assert s == [s[0]] + s[1..];
    }
  }

  ghost predicate AtMost(s: seq<real>, top: real) {
    forall i :: 0 <= i < |s| ==> s[i] <= top
  }

  /** A bound of `x` and of all of `s` bounds the result of inserting `x` in `s`. */
  lemma {:induction false} InsertBounded(x: real, s: seq<real>, top: real)
    requires x <= top && AtMost(s, top)
    ensures AtMost(InsertDescending(x, s), top)
  {
    var t := InsertDescending(x, s);
    InsertBag(x, s);
    forall j | 0 <= j < |t|
      ensures t[j] <= top
    {
      assert t[j] in multiset(t);
    }
  }

  lemma {:induction false} InsertDescends(x: real, s: seq<real>)
    requires Descending(s)
    ensures Descending(InsertDescending(x, s))
  {
    if s != [] && x < s[0] {
      InsertDescends(x, s[1..]);
      InsertBounded(x, s[1..], s[0]);
      var t := InsertDescending(x, s[1..]);
      assert AtMost(t, s[0]);
      assert Descending([s[0]] + t);
    }
  }

  lemma {:induction false} SortFacts(s: seq<real>)
    ensures Descending(SortDescending(s))
    ensures multiset(SortDescending(s)) == multiset(s)
  {
    if s != [] {
      SortFacts(s[1..]);
      InsertBag(s[0], SortDescending(s[1..]));
      InsertDescends(s[0], SortDescending(s[1..]));
      assert s == [s[0]] + s[1..];
    }
  }

  /** A descending sequence is determined by its multiset. */
  lemma {:induction false} FirstIsTop(a: seq<real>, x: real)
    requires Descending(a) && x in a
    ensures x <= a[0]
  {
    var i :| 0 <= i < |a| && a[i] == x;
    assert i > 0 ==> a[0] >= a[i];
  }

  lemma {:induction false} DescendingUnique(a: seq<real>, b: seq<real>)
    requires Descending(a) && Descending(b) && multiset(a) == multiset(b)
    ensures a == b
  {
    assert |a| == |multiset(a)| == |b|;
    if a != [] {
      assert a[0] in multiset(b) && b[0] in multiset(a);
      FirstIsTop(a, b[0]);
      FirstIsTop(b, a[0]);
      TailBag(a, b);
      DescendingUnique(a[1..], b[1..]);
      assert a == [a[0]] + a[1..] && b == [b[0]] + b[1..];
    }
  }

  lemma {:induction false} ScoresWithout(a: seq<Scored>, i: nat)
    requires i < |a|
    ensures multiset(Scores(a)) == multiset(Scores(Without(a, i))) + multiset{a[i].score}
  {
    WithoutBag(Scores(a), i);
    assert Scores(Without(a, i)) == Without(Scores(a), i);
  }

  /** Equal bags of scored entries have equal bags of scores. */
  lemma {:induction false} BagOfScores(a: seq<Scored>, b: seq<Scored>)
    requires multiset(a) == multiset(b)
    ensures multiset(Scores(a)) == multiset(Scores(b))
    decreases |a|
  {
    if a == [] {
      assert |b| == |multiset(b)| == 0;
    } else {
      var j := SameBag(a, b);
      ScoresWithout(a, 0);
      ScoresWithout(b, j);
      BagOfScores(Without(a, 0), Without(b, j));
    }
  }

  lemma {:induction false} BestThenRest(best: seq<Scored>, rest: seq<Scored>)
    requires Descending(Scores(best))
    requires forall x, y :: x in best && y in rest ==> y.score <= x.score
    ensures Descending(Scores(best) + SortDescending(Scores(rest)))
  {
    var tail := SortDescending(Scores(rest));
    SortFacts(Scores(rest));
    forall i, j | 0 <= i < |best| && 0 <= j < |tail|
      ensures Scores(best)[i] >= tail[j]
    {
      assert tail[j] in multiset(tail);
      assert tail[j] in Scores(rest);
      var k :| 0 <= k < |rest| && Scores(rest)[k] == tail[j];
      assert best[i] in best && rest[k] in rest;
    }
  }

  lemma {:induction false} ScoresOfParts(best: seq<Scored>, rest: seq<Scored>, all: seq<Scored>)
    requires multiset(best) + multiset(rest) == multiset(all)
    ensures multiset(Scores(best) + SortDescending(Scores(rest))) == multiset(Scores(all))
  {
    assert multiset(best + rest) == multiset(all);
    BagOfScores(best + rest, all);
    assert Scores(best + rest) == Scores(best) + Scores(rest);
    SortFacts(Scores(rest));
  }

  /** Splitting off some best elements, in order, is sorting everything and taking that many. */
  lemma {:induction false} BestAreFirst(best: seq<Scored>, rest: seq<Scored>, all: seq<Scored>)
    requires multiset(best) + multiset(rest) == multiset(all)
    requires Descending(Scores(best))
    requires forall x, y :: x in best && y in rest ==> y.score <= x.score
    ensures |best| <= |all| == |SortDescending(Scores(all))|
    ensures Scores(best) == SortDescending(Scores(all))[..|best|]
  {
    SortFacts(Scores(all));
    BestThenRest(best, rest);
    ScoresOfParts(best, rest, all);
    var t := Scores(best) + SortDescending(Scores(rest));
    DescendingUnique(t, SortDescending(Scores(all)));
    assert t[..|best|] == Scores(best);
    assert |all| == |multiset(all)| == |best| + |rest|;
    assert |t| == |multiset(t)| == |multiset(Scores(all))| == |all|;
  }

  // ---------- the fast form ----------

  const BLANK := Scored(IndexEntry("", "", 0, 0, [], map[]), 0.0)

  /** What the heap and the discarded candidates are after some entries. */
  ghost predicate Split(kept: seq<Scored>, dropped: seq<Scored>, seen: seq<Scored>, k: int) {
    && multiset(kept) + multiset(dropped) == multiset(seen)
    && |kept| == Min(k, |seen|)
    && (forall x, y :: x in kept && y in dropped ==> y.score <= x.score)
  }

  /** The first of the heap is no better than any of it. */
  ghost predicate RootLeast(items: seq<Scored>) {
    items != [] && forall y :: y in items ==> items[0].score <= y.score
  }

  lemma {:induction false} OrderedRootLeast(items: seq<Scored>)
    requires items != [] && Ordered(items, |items|)
    ensures RootLeast(items)
  {
    forall y | y in items
      ensures items[0].score <= y.score
    {
      var j :| 0 <= j < |items| && items[j] == y;
      RootIsLeast(items, j);
    }
  }

  /** A better candidate takes the place of the root, which is dropped. */
  lemma {:induction false} ReplaceSplits(before: seq<Scored>, x: Scored, after: seq<Scored>,
                                         dropped: seq<Scored>, seen: seq<Scored>, k: int)
    requires Split(before, dropped, seen, k) && RootLeast(before) && |before| == |after| == k
    requires before[0].score < x.score && multiset(after) == multiset(before[0 := x])
    ensures Split(after, dropped + [before[0]], seen + [x], k)
  {
    assert before == [before[0]] + before[1..] && before[0 := x] == [x] + before[1..];
    forall a, b | a in after && b in dropped + [before[0]]
      ensures b.score <= a.score
    {
      assert a in multiset(after);
      assert a == x || a in before;
      assert b == before[0] || b in dropped;
    }
  }

  /** Offering one candidate to a heap bounded by `k`. */
  method Offer(h: MinHeap, x: Scored, k: int, ghost dropped: seq<Scored>, ghost seen: seq<Scored>)
      returns (ghost dropped': seq<Scored>)
    requires k >= 1 && Ordered(h.items, |h.items|) && Split(h.items, dropped, seen, k)
    modifies h
    ensures Ordered(h.items, |h.items|) && Split(h.items, dropped', seen + [x], k)
  {
    ghost var before := h.items;
    assert |seen| == |multiset(seen)| == |before| + |dropped|;
    if |h.items| < k {
      assert dropped == [];
      h.Push(x);
      dropped' := dropped;
    } else {
      OrderedRootLeast(before);
      if x.score > h.items[0].score {
        h.items := h.items[0 := x];
        h.FixRoot();
        dropped' := dropped + [before[0]];
        ReplaceSplits(before, x, h.items, dropped, seen, k);
      } else {
        dropped' := dropped + [x];
      }
    }
  }

  /** Part of the heap is moved to a descending list of scores that are no better than the rest. */
  ghost predicate Drained(items: seq<Scored>, done: seq<Scored>, all: seq<Scored>) {
    && multiset(items) + multiset(done) == multiset(all)
    && Descending(Scores(done))
    && forall x, y :: x in items && y in done ==> y.score <= x.score
  }

  lemma {:induction false} DrainStep(before: seq<Scored>, x: Scored, after: seq<Scored>, done: seq<Scored>, all: seq<Scored>)
    requires Drained(before, done, all)
    requires multiset(before) == multiset(after) + multiset{x}
    requires forall y :: y in after ==> x.score <= y.score
    ensures Drained(after, [x] + done, all)
  {
    assert x in multiset(before);
    assert Scores([x] + done) == [x.score] + Scores(done);
    forall j | 0 <= j < |done|
      ensures Scores(done)[j] <= x.score
    {
      assert done[j] in done;
    }
    forall a, b | a in after && b in [x] + done
      ensures b.score <= a.score
    {
      assert a in multiset(before);
      assert b == x || b in done;
    }
  }

  lemma {:induction false} DrainEnd(items: seq<Scored>, done: seq<Scored>, all: seq<Scored>)
    requires items == [] && Drained(items, done, all)
    ensures multiset(done) == multiset(all) && |done| == |all| && Descending(Scores(done))
  {
    assert |done| == |multiset(done)| && |all| == |multiset(all)|;
  }

  method DrainOne(h: MinHeap, ghost done: seq<Scored>, ghost all: seq<Scored>) returns (x: Scored)
    requires |h.items| > 0 && Ordered(h.items, |h.items|) && Drained(h.items, done, all)
    modifies h
    ensures Ordered(h.items, |h.items|) && |h.items| == |old(h.items)| - 1
    ensures Drained(h.items, [x] + done, all)
  {
    ghost var before := h.items;
    x := h.Pop();
    DrainStep(before, x, h.items, done, all);
  }

  /** Emptying the heap from the back of the result: descending order. */
  method Drain(h: MinHeap) returns (r: seq<Scored>)
    requires Ordered(h.items, |h.items|)
    modifies h
    ensures multiset(r) == multiset(old(h.items)) && |r| == |old(h.items)|
    ensures Descending(Scores(r))
  {
    var n := |h.items|;
    var result := new Scored[n](_ => BLANK);
    var i := n;
    ghost var done: seq<Scored> := [];
    while i > 0
      invariant 0 <= i <= n && |h.items| == i && result.Length == n
      invariant Ordered(h.items, |h.items|)
      invariant result[i..] == done
      invariant Drained(h.items, done, old(h.items))
    {
      i := i - 1;
      var x := DrainOne(h, done, old(h.items));
      result[i] := x;
      assert result[i + 1..] == done;
      done := [x] + done;
      assert result[i..] == done;
    }
    r := result[..];
    assert r == done;
    DrainEnd(h.items, r, old(h.items));
  }

  // ---------- what was selected, entry by entry ----------

  /** Where the candidates stand among the entries. */
  function Places(entries: seq<IndexEntry>, types: seq<string>): (at: seq<nat>)
    ensures forall i :: 0 <= i < |at| ==> at[i] < |entries|
  {
    if entries == [] then []
    else Places(entries[..|entries| - 1], types) + if Matches(types, entries[|entries| - 1]) then [|entries| - 1] else []
  }

  /** The places stand for the candidates, one for one. */
  ghost predicate StandsFor(entries: seq<IndexEntry>, query: seq<real>, sim: Similarity, at: seq<nat>, all: seq<Scored>) {
    && |at| == |all|
    && forall i :: 0 <= i < |at| ==>
         at[i] < |entries| && all[i] == Scored(entries[at[i]], sim(query, entries[at[i]].vector))
  }

  lemma {:induction false} PlacesStand(entries: seq<IndexEntry>, query: seq<real>, types: seq<string>, sim: Similarity)
    ensures StandsFor(entries, query, sim, Places(entries, types), Candidates(entries, query, types, sim))
  {
    if entries != [] {
      var n := |entries| - 1;
      PlacesStand(entries[..n], query, types, sim);
      var at, all := Places(entries[..n], types), Candidates(entries[..n], query, types, sim);
      assert StandsFor(entries, query, sim, at, all);
      if Matches(types, entries[n]) {
        StandsNext(entries, query, sim, at, all, n);
      }
    }
  }

  lemma {:induction false} StandsNext(entries: seq<IndexEntry>, query: seq<real>, sim: Similarity, at: seq<nat>,
                                      all: seq<Scored>, n: nat)
    requires StandsFor(entries, query, sim, at, all) && n < |entries|
    ensures StandsFor(entries, query, sim, at + [n], all + [Scored(entries[n], sim(query, entries[n].vector))])
  {
  }

  lemma {:induction false} PlacesMembers(entries: seq<IndexEntry>, types: seq<string>)
    ensures Distinct(Places(entries, types))
    ensures forall j :: j in Places(entries, types) <==> 0 <= j < |entries| && Matches(types, entries[j])
  {
    if entries != [] {
      var n := |entries| - 1;
      PlacesMembers(entries[..n], types);
      assert forall j :: 0 <= j < n ==> entries[..n][j] == entries[j];
    }
  }

  lemma {:induction false} PlacesFacts(entries: seq<IndexEntry>, query: seq<real>, types: seq<string>, sim: Similarity)
    ensures var at, all := Places(entries, types), Candidates(entries, query, types, sim);
            && Distinct(at) && |at| == |all|
            && (forall j :: j in at <==> 0 <= j < |entries| && Matches(types, entries[j]))
            && forall i :: 0 <= i < |at| ==> all[i] == Scored(entries[at[i]], sim(query, entries[at[i]].vector))
  {
    PlacesStand(entries, query, types, sim);
    PlacesMembers(entries, types);
  }

  /** A position in a list without its element at `j`, as a position in the list. */
  function Around(k: nat, j: nat): nat {
    if k < j then k else k + 1
  }

  function AroundAll(q: seq<nat>, j: nat): (p: seq<nat>)
    ensures |p| == |q| + 1 && p[0] == j && forall i :: 0 <= i < |q| ==> p[i + 1] == Around(q[i], j)
  {
    [j] + seq(|q|, i requires 0 <= i < |q| => Around(q[i], j))
  }

  lemma {:induction false} AroundPlaces(a: seq<Scored>, b: seq<Scored>, q: seq<nat>, j: nat)
    requires a != [] && j < |b| && b[j] == a[0] && |q| == |a| - 1 && Distinct(q)
    requires forall i :: 0 <= i < |q| ==> q[i] < |b| - 1 && Without(b, j)[q[i]] == a[i + 1]
    ensures var p := AroundAll(q, j); Distinct(p) && forall i :: 0 <= i < |a| ==> p[i] < |b| && b[p[i]] == a[i]
  {
    var p := AroundAll(q, j);
    forall i | 0 <= i < |a|
      ensures p[i] < |b| && b[p[i]] == a[i]
    {
      if i > 0 {
        assert p[i] == Around(q[i - 1], j) && Without(b, j)[q[i - 1]] == a[i];
      }
    }
    forall i, k | 0 <= i < k < |p|
      ensures p[i] != p[k]
    {
      assert p[k] == Around(q[k - 1], j);
      assert i > 0 ==> p[i] == Around(q[i - 1], j);
    }
  }

  lemma {:induction false} AroundCovers(q: seq<nat>, j: nat, m: nat)
    requires m != j ==> (if m < j then m else m - 1) in q
    ensures m in AroundAll(q, j)
  {
    var p := AroundAll(q, j);
    if m == j {
      assert p[0] == m;
    } else {
      var i :| 0 <= i < |q| && q[i] == if m < j then m else m - 1;
      assert p[i + 1] == m;
    }
  }

  /** Two arrangements of one bag: where the elements of the first stand in the second. */
  lemma {:induction false} Arrangement(a: seq<Scored>, b: seq<Scored>) returns (p: seq<nat>)
    requires multiset(a) == multiset(b)
    ensures |p| == |a| == |b| && Distinct(p) && forall i :: 0 <= i < |p| ==> p[i] < |b| && b[p[i]] == a[i]
    ensures forall m: nat :: m < |b| ==> m in p
    decreases |a|
  {
    if a == [] {
      p := [];
      assert |b| == |multiset(b)| == 0;
    } else {
      var j := SameBag(a, b);
      var q := Arrangement(Without(a, 0), Without(b, j));
      assert forall i :: 0 <= i < |q| ==> Without(a, 0)[i] == a[i + 1];
      AroundPlaces(a, b, q, j);
      p := AroundAll(q, j);
      forall m: nat | m < |b|
        ensures m in p
      {
        AroundCovers(q, j, m);
      }
    }
  }

  /** The entry passes the filter: it is empty, or names its media type. */
  ghost predicate Passes(types: seq<string>, e: IndexEntry) {
    types == [] || exists i :: 0 <= i < |types| && types[i] == e.mediaType
  }

  /** The result holds the entries at these places, each once and with its score, all of them
      passing, greatest first; fewer than `k` only if all that pass are there; and no passing
      entry elsewhere scores higher than one that is there. */
  ghost predicate Chosen(entries: seq<IndexEntry>, query: seq<real>, types: seq<string>, k: int, sim: Similarity,
                         r: seq<Scored>, at: seq<nat>) {
    && |at| == |r| <= k && Distinct(at)
    && (forall i :: 0 <= i < |r| ==>
          && at[i] < |entries| && Passes(types, entries[at[i]])
          && r[i].entry == entries[at[i]] && r[i].score == sim(query, entries[at[i]].vector))
    && (forall i, j :: 0 <= i < j < |r| ==> r[i].score >= r[j].score)
    && (|r| < k ==> forall j: nat :: j < |entries| && Passes(types, entries[j]) ==> j in at)
    && (forall j: nat, i :: j < |entries| && Passes(types, entries[j]) && j !in at && 0 <= i < |r| ==>
          sim(query, entries[j].vector) <= r[i].score)
  }

  /** The places of the first `n` elements of an arrangement of the candidates. */
  function PlacesOf(places: seq<nat>, p: seq<nat>, n: nat): seq<nat>
    requires n <= |p| && forall i :: 0 <= i < |p| ==> p[i] < |places|
  {
    seq(n, i requires 0 <= i < n => places[p[i]])
  }

  lemma {:induction false} PlacesOfDistinct(places: seq<nat>, p: seq<nat>, n: nat)
    requires n <= |p| && Distinct(places) && Distinct(p) && forall i :: 0 <= i < |p| ==> p[i] < |places|
    ensures Distinct(PlacesOf(places, p, n))
  {
  }

  /** A place that is not among the first `n` is that of a later element. */
  lemma {:induction false} LeftOut(places: seq<nat>, p: seq<nat>, n: nat, j: nat) returns (m: nat)
    requires n <= |p| && (forall i :: 0 <= i < |p| ==> p[i] < |places|)
    requires forall k: nat :: k < |places| ==> k in p
    requires j in places && j !in PlacesOf(places, p, n)
    ensures n <= m < |p| && places[p[m]] == j
  {
    var k :| 0 <= k < |places| && places[k] == j;
    assert k in p;
    m :| 0 <= m < |p| && p[m] == k;
    forall i | 0 <= i < n
      ensures places[p[i]] != j
    {
      assert PlacesOf(places, p, n)[i] == places[p[i]];
    }
  }

  /** What is left out scores no more than what is returned. */
  lemma {:induction false} LeftOutLower(r: seq<Scored>, dropped: seq<Scored>, m: nat, x: Scored, i: nat)
    requires |r| <= m < |r + dropped| && (r + dropped)[m] == x && i < |r|
    requires forall a, b :: a in r && b in dropped ==> b.score <= a.score
    ensures x.score <= r[i].score
  {
    assert dropped[m - |r|] == x && r[i] in r;
  }

  lemma {:induction false} SelectedIsChosen(entries: seq<IndexEntry>, query: seq<real>, types: seq<string>, k: int,
                                            sim: Similarity, r: seq<Scored>, dropped: seq<Scored>) returns (at: seq<nat>)
    requires k >= 1 && Split(r, dropped, Candidates(entries, query, types, sim), k) && Descending(Scores(r))
    ensures Chosen(entries, query, types, k, sim, r, at)
  {
    var all, places := Candidates(entries, query, types, sim), Places(entries, types);
    PlacesFacts(entries, query, types, sim);
    assert multiset(r + dropped) == multiset(all);
    var p := Arrangement(r + dropped, all);
    at := PlacesOf(places, p, |r|);
    PlacesOfDistinct(places, p, |r|);
    forall i | 0 <= i < |r|
      ensures at[i] < |entries| && Passes(types, entries[at[i]])
      ensures r[i] == Scored(entries[at[i]], sim(query, entries[at[i]].vector))
    {
      assert (r + dropped)[i] == r[i] && at[i] == places[p[i]] && places[p[i]] in places;
    }
    forall i, j | 0 <= i < j < |r|
      ensures r[i].score >= r[j].score
    {
      assert Scores(r)[i] >= Scores(r)[j];
    }
    forall j: nat, i: nat | j < |entries| && Passes(types, entries[j]) && j !in at && i < |r|
      ensures sim(query, entries[j].vector) <= r[i].score
    {
      var m := LeftOut(places, p, |r|, j);
      LeftOutLower(r, dropped, m, all[p[m]], i);
    }
    if |r| < k {
      forall j: nat | j < |entries| && Passes(types, entries[j])
        ensures j in at
      {
        if j !in at {
          var m := LeftOut(places, p, |r|, j);
        }
      }
    }
  }

  /** How many entries pass the filter. */
  ghost function Passing(entries: seq<IndexEntry>, types: seq<string>): set<nat> {
    set j: nat | j < |entries| && Passes(types, entries[j])
  }

  lemma {:induction false} SizeOfElements(at: seq<nat>, places: set<nat>)
    requires Distinct(at) && forall j: nat :: j in places <==> j in at
    ensures |places| == |at|
  {
    if at == [] {
      assert places == {};
    } else {
      var front, last := at[..|at| - 1], at[|at| - 1];
      assert at == front + [last] && last !in front;
      SizeOfElements(front, places - {last});
    }
  }

  lemma {:induction false} PassingCount(entries: seq<IndexEntry>, query: seq<real>, types: seq<string>, sim: Similarity)
    ensures |Passing(entries, types)| == |Candidates(entries, query, types, sim)|
  {
    PlacesFacts(entries, query, types, sim);
    SizeOfElements(Places(entries, types), Passing(entries, types));
  }

  /** `topK`: for every list, filter and `k >= 1` the result is a choice of the `k` best entries
      that pass the filter, or of all of them if there are fewer, each once and in descending
      order; its scores are the first of all the candidates' scores sorted. */
  method Select(entries: seq<IndexEntry>, query: seq<real>, types: seq<string>, k: int, sim: Similarity)
      returns (r: seq<Scored>)
    requires k >= 1
    ensures exists at :: Chosen(entries, query, types, k, sim, r, at)
    ensures |r| == Min(k, |Passing(entries, types)|)
    ensures var all := Candidates(entries, query, types, sim);
            && |r| == Min(k, |all|)
            && multiset(r) <= multiset(all)
            && |SortDescending(Scores(all))| == |all|
            && Scores(r) == SortDescending(Scores(all))[..|r|]
  {
    var h := new MinHeap();
    ghost var dropped: seq<Scored> := [];
    for i := 0 to |entries|
      invariant fresh(h) && Ordered(h.items, |h.items|)
      invariant Split(h.items, dropped, Candidates(entries[..i], query, types, sim), k)
    {
      var e := entries[i];
      ghost var seen := Candidates(entries[..i], query, types, sim);
      assert entries[..i + 1][..i] == entries[..i];
      if |types| > 0 {
        var found := ContainsMediaType(types, e.mediaType);
        if !found {
          continue;
        }
      }
      var x := Scored(e, sim(query, e.vector));
      dropped := Offer(h, x, k, dropped, seen);
    }
    assert entries[..|entries|] == entries;
    ghost var all := Candidates(entries, query, types, sim);
    ghost var kept := h.items;
    r := Drain(h);
    DrainedSplit(kept, r, dropped, all, k);
    BestAreFirst(r, dropped, all);
    ghost var at := SelectedIsChosen(entries, query, types, k, sim, r, dropped);
    PassingCount(entries, query, types, sim);
  }

  lemma {:induction false} DrainedSplit(kept: seq<Scored>, r: seq<Scored>, dropped: seq<Scored>, all: seq<Scored>, k: int)
    requires Split(kept, dropped, all, k) && multiset(r) == multiset(kept) && |r| == |kept|
    ensures Split(r, dropped, all, k)
  {
    forall x, y | x in r && y in dropped
      ensures y.score <= x.score
    {
      assert x in multiset(r) && x in multiset(kept);
    }
  }

  // ---------- Search ----------

  datatype Found = Found(items: seq<Scored>, total: nat)

  const DEFAULT_RESULTS := 20

  /** `Search` on a snapshot of the index: an empty index needs no embedding, and a
      non-positive limit means twenty. */
  method Search(entries: seq<IndexEntry>, embedded: Result<seq<real>, string>, types: seq<string>,
                maxResults: int, sim: Similarity)
      returns (r: Result<Found, string>)
    ensures entries == [] ==> r == Ok(Found([], 0))
    ensures entries != [] && embedded.Err? ==> r == Err(embedded.error)
    ensures entries != [] && embedded.Ok? ==>
              var all := Candidates(entries, embedded.value, types, sim);
              var k := if maxResults <= 0 then DEFAULT_RESULTS else maxResults;
              && r.Ok? && r.value.total == |entries|
              && (exists at :: Chosen(entries, embedded.value, types, k, sim, r.value.items, at))
              && |r.value.items| == Min(k, |Passing(entries, types)|)
              && multiset(r.value.items) <= multiset(all)
              && |SortDescending(Scores(all))| == |all|
              && Scores(r.value.items) == SortDescending(Scores(all))[..Min(k, |all|)]
  {
    if |entries| == 0 {
      return Ok(Found([], 0));
    }
    if embedded.Err? {
      return Err(embedded.error);
    }
    var k := maxResults;
    if k <= 0 {
      k := DEFAULT_RESULTS;
    }
    var items := Select(entries, embedded.value, types, k, sim);
    r := Ok(Found(items, |entries|));
  }
}
