/** The min-heap behind the local search (material/local/local.go, `minHeap`), driven by the
    algorithms of Go's container/heap over its `Less`, `Swap`, `Push` and `Pop`. */
module Heap {
  datatype IndexEntry = IndexEntry(
    path: string,
    mediaType: string,
    size: int,
    modTime: int,
    vector: seq<real>,
    metadata: map<string, string>
  )

  /** An entry with its similarity score; scores are totally ordered numbers. */
  datatype Scored = Scored(entry: IndexEntry, score: real)

  // ---------- heap order ----------

  function Parent(j: nat): nat
    requires j > 0
  {
    (j - 1) / 2
  }

  /** Every element of the first `n` is at least its parent. */
  ghost predicate Ordered(h: seq<Scored>, n: nat)
    requires n <= |h|
  {
    forall j {:trigger Parent(j)} :: 0 < j < n ==> h[Parent(j)].score <= h[j].score
  }

  /** Heap order of the first `n` except below `i`, where the parent of `i` still bounds
      the children of `i`. */
  ghost predicate OrderedBut(h: seq<Scored>, n: nat, i: nat)
    requires n <= |h|
  {
    && (forall j {:trigger Parent(j)} :: 0 < j < n && Parent(j) != i ==> h[Parent(j)].score <= h[j].score)
    && (forall j {:trigger Parent(j)} :: 0 < j < n && Parent(j) == i && i > 0 ==> h[Parent(i)].score <= h[j].score)
  }

  /** Heap order except between `j` and its parent, which still bounds the children of `j`. */
  ghost predicate OrderedAbove(h: seq<Scored>, j: nat) {
    && (forall k {:trigger Parent(k)} :: 0 < k < |h| && k != j ==> h[Parent(k)].score <= h[k].score)
    && (forall k {:trigger Parent(k)} :: 0 < k < |h| && Parent(k) == j && j > 0 ==> h[Parent(j)].score <= h[k].score)
  }

  lemma {:induction false} RootIsLeast(h: seq<Scored>, j: nat)
    requires j < |h| && Ordered(h, |h|)
    ensures h[0].score <= h[j].score
    decreases j
  {
    if j > 0 {
      RootIsLeast(h, Parent(j));
    }
  }

  lemma {:induction false} RootBelowRest(h: seq<Scored>, x: Scored, rest: seq<Scored>)
    requires h != [] && Ordered(h, |h|) && x == h[0]
    requires multiset(h) == multiset(rest) + multiset{x}
    ensures forall y :: y in rest ==> x.score <= y.score
  {
    forall y | y in rest
      ensures x.score <= y.score
    {
      assert y in multiset(rest) && y in multiset(h);
      var k :| 0 <= k < |h| && h[k] == y;
      RootIsLeast(h, k);
    }
  }

  function Swapped(h: seq<Scored>, i: nat, j: nat): seq<Scored>
    requires i < |h| && j < |h|
  {
    h[i := h[j]][j := h[i]]
  }

  lemma {:induction false} SwapKeepsBag(h: seq<Scored>, i: nat, j: nat)
    requires i < |h| && j < |h|
    ensures multiset(Swapped(h, i, j)) == multiset(h)
  {
  }

  lemma {:induction false} SwapKeepsTail(h: seq<Scored>, n: nat, i: nat, j: nat)
    requires i < n && j < n && n <= |h|
    ensures Swapped(h, i, j)[n..] == h[n..]
  {
  }

  /** One turn of `down`: swapping with the smaller child moves the hole down. */
  lemma {:induction false} DownSwap(h: seq<Scored>, n: nat, i: nat, c: nat)
    requires n <= |h| && OrderedBut(h, n, i)
    requires 0 < c < n && Parent(c) == i && h[c].score < h[i].score
    requires forall j :: 0 < j < n && Parent(j) == i ==> h[c].score <= h[j].score
    ensures OrderedBut(Swapped(h, i, c), n, c)
  {
    var g := Swapped(h, i, c);
    forall j | 0 < j < n && Parent(j) != c
      ensures g[Parent(j)].score <= g[j].score
    {
    }
  }

  lemma {:induction false} ChildrenOf(n: nat, i: nat)
    ensures forall k :: 0 < k < n && Parent(k) == i ==> k == 2 * i + 1 || k == 2 * i + 2
  {
  }

  /** The child `down` picks is the smallest; if it is not below `i` the order is whole. */
  lemma {:induction false} SmallerChild(h: seq<Scored>, n: nat, i: nat, c: nat)
    requires n <= |h| && OrderedBut(h, n, i) && 2 * i + 1 < n
    requires c == if 2 * i + 2 < n && h[2 * i + 2].score < h[2 * i + 1].score then 2 * i + 2 else 2 * i + 1
    ensures Parent(c) == i
    ensures forall j :: 0 < j < n && Parent(j) == i ==> h[c].score <= h[j].score
    ensures h[i].score <= h[c].score ==> Ordered(h, n)
  {
    ChildrenOf(n, i);
  }

  /** One turn of `up`: swapping with a larger parent moves the violation up. */
  lemma {:induction false} UpSwap(h: seq<Scored>, j: nat)
    requires 0 < j < |h| && OrderedAbove(h, j) && h[j].score < h[Parent(j)].score
    ensures OrderedAbove(Swapped(h, Parent(j), j), Parent(j))
  {
    var i := Parent(j);
    var g := Swapped(h, i, j);
    forall k | 0 < k < |h| && k != i
      ensures g[Parent(k)].score <= g[k].score
    {
    }
  }

  // ---------- the heap object ----------

  class MinHeap {
    var items: seq<Scored>

    constructor ()
      ensures items == []
    {
      items := [];
    }

    predicate Less(i: nat, j: nat)
      requires i < |items| && j < |items|
      reads this
    {
      items[i].score < items[j].score
    }

    method Swap(i: nat, j: nat)
      requires i < |items| && j < |items|
      modifies this
      ensures items == Swapped(old(items), i, j)
      ensures multiset(items) == multiset(old(items))
    {
      SwapKeepsBag(items, i, j);
      items := items[i := items[j]][j := items[i]];
    }

    /** `heap.up`. In Go the root is its own parent, since division truncates; that ends the loop. */
    method Up(start: nat)
      requires start < |items| && OrderedAbove(items, start)
      modifies this
      ensures Ordered(items, |items|)
      ensures multiset(items) == multiset(old(items)) && |items| == |old(items)|
    {
      var j: nat := start;
      while j > 0 && Less(j, Parent(j))
        invariant j < |items| && OrderedAbove(items, j)
        invariant multiset(items) == multiset(old(items)) && |items| == |old(items)|
      {
        UpSwap(items, j);
        Swap(Parent(j), j);
        j := Parent(j);
      }
    }

    /** `heap.down` on the first `n` elements; reports whether anything moved. */
    method Down(start: nat, n: nat) returns (moved: bool)
      requires n <= |items| && start <= n && OrderedBut(items, n, start)
      modifies this
      ensures multiset(items) == multiset(old(items)) && |items| == |old(items)|
      ensures Ordered(items, n)
      ensures items[n..] == old(items)[n..]
      ensures !moved ==> items == old(items)
    {
      var i: nat := start;
      while true
        invariant start <= i <= n && |items| == |old(items)| && OrderedBut(items, n, i)
        invariant multiset(items) == multiset(old(items))
        invariant items[n..] == old(items)[n..]
        invariant i == start ==> items == old(items)
        decreases n - i
      {
        var j1 := 2 * i + 1;
        if j1 >= n {
          ChildrenOf(n, i);
          break;
        }
        var j := j1;
        if j1 + 1 < n && Less(j1 + 1, j1) {
          j := j1 + 1;
        }
        SmallerChild(items, n, i, j);
        if !Less(j, i) {
          break;
        }
        DownSwap(items, n, i, j);
        SwapKeepsTail(items, n, i, j);
        Swap(i, j);
        i := j;
      }
      moved := i > start;
    }

    /** `heap.Push`. */
    method Push(x: Scored)
      requires Ordered(items, |items|)
      modifies this
      ensures Ordered(items, |items|)
      ensures multiset(items) == multiset(old(items)) + multiset{x} && |items| == |old(items)| + 1
    {
      ghost var before := items;
      items := items + [x];
      Up(|items| - 1);
    }

    /** `heap.Fix(h, 0)` after the root was replaced. */
    method FixRoot()
      requires |items| > 0 && OrderedBut(items, |items|, 0)
      modifies this
      ensures Ordered(items, |items|)
      ensures multiset(items) == multiset(old(items)) && |items| == |old(items)|
    {
      var moved := Down(0, |items|);
      if !moved {
        Up(0);
      }
    }

    /** `heap.Pop`: move the root to the end, repair, cut it off. */
    method Pop() returns (x: Scored)
      requires |items| > 0 && Ordered(items, |items|)
      modifies this
      ensures Ordered(items, |items|)
      ensures multiset(old(items)) == multiset(items) + multiset{x} && |items| == |old(items)| - 1
      ensures x == old(items)[0]
      ensures forall y :: y in items ==> x.score <= y.score
    {
      ghost var before := items;
      var n := |items| - 1;
      Swap(0, n);
      assert items[n] == before[0];
      var _ := Down(0, n);
      x := items[n];
      assert items[n..][0] == before[0];
      assert items == items[..n] + [items[n]];
      items := items[..n];
      RootBelowRest(before, x, items);
    }
  }
}
