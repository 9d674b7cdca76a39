/** The order in which `FindByClassType` (workflow/types.go) returns the nodes of a graph
    numbered from 1: ids sort as strings, so the tenth node comes before the second. */
module LookupOrder {
  import opened Common
  import opened Text
  import opened WorkflowGraph
  import Lex

  // ---------- ids of references ----------

  function IdsOf(refs: seq<NodeRef>): seq<string> {
    seq(|refs|, i requires 0 <= i < |refs| => refs[i].id)
  }

  /** Every reference is to a node of the graph. */
  ghost predicate RefsInto(g: Graph, refs: seq<NodeRef>) {
    forall i :: 0 <= i < |refs| ==> refs[i].id in g && refs[i].node == g[refs[i].id]
  }

  /** References into one graph are determined by their ids. */
  lemma {:induction false} SameIdsSameRefs(g: Graph, a: seq<NodeRef>, b: seq<NodeRef>)
    requires RefsInto(g, a) && RefsInto(g, b) && IdsOf(a) == IdsOf(b)
    ensures a == b
  {
    assert |IdsOf(a)| == |a| && |IdsOf(b)| == |b|;
    forall i | 0 <= i < |a|
      ensures a[i] == b[i]
    {
      assert IdsOf(a)[i] == IdsOf(b)[i];
    }
  }

  /** What is found for a list of ids: their nodes of the class, in the order of the list. */
  lemma {:induction false} RefsFacts(g: Graph, ids: seq<string>, c: string)
    requires Distinct(ids)
    ensures RefsInto(g, RefsOf(g, ids, c)) && Distinct(IdsOf(RefsOf(g, ids, c)))
    ensures forall id :: id in IdsOf(RefsOf(g, ids, c)) <==> id in ids && id in g && g[id].classType == c
  {
    if ids != [] {
      var front, last := ids[..|ids| - 1], ids[|ids| - 1];
      RefsFacts(g, front, c);
      IdsAppend(RefsOf(g, front, c), RefsAt(g, last, c));
      assert ids == front + [last] && last !in front;
      assert IdsOf(RefsAt(g, last, c)) == if last in g && g[last].classType == c then [last] else [];
    }
  }

  lemma {:induction false} IdsAppend(a: seq<NodeRef>, b: seq<NodeRef>)
    ensures IdsOf(a + b) == IdsOf(a) + IdsOf(b)
  {
  }

  lemma {:induction false} SortedAppend(ids: seq<string>, id: string)
    ensures Lex.Sorted(ids + [id]) <==> Lex.Sorted(ids) && forall k :: k in ids ==> Lex.Leq(k, id)
  {
    var all := ids + [id];
    if Lex.Sorted(all) {
      assert forall i, j :: 0 <= i < j < |ids| ==> all[i] == ids[i] && all[j] == ids[j];
      forall k | k in ids
        ensures Lex.Leq(k, id)
      {
        var i :| 0 <= i < |ids| && ids[i] == k;
        assert Lex.Leq(all[i], all[|ids|]);
      }
    }
    if Lex.Sorted(ids) && forall k :: k in ids ==> Lex.Leq(k, id) {
      forall i, j | 0 <= i < j < |all|
        ensures Lex.Leq(all[i], all[j])
      {
        assert ids[i] in ids && all[i] == ids[i];
        assert j < |ids| ==> all[j] == ids[j];
      }
    }
  }

  /** From a sorted list of ids the references come sorted. */
  lemma {:induction false} RefsSorted(g: Graph, ids: seq<string>, c: string)
    requires Lex.Sorted(ids) && Distinct(ids)
    ensures Lex.Sorted(IdsOf(RefsOf(g, ids, c)))
  {
    if ids != [] {
      var front, last := ids[..|ids| - 1], ids[|ids| - 1];
      RefsSorted(g, front, c);
      RefsFacts(g, front, c);
      assert ids == front + [last];
      SortedAppend(front, last);
      SortedAppend(IdsOf(RefsOf(g, front, c)), last);
      IdsAppend(RefsOf(g, front, c), RefsAt(g, last, c));
      assert IdsOf(RefsAt(g, last, c)) == if last in g && g[last].classType == c then [last] else [];
    }
  }

  // ---------- task order ----------

  /** The references of a class in the order the nodes were added. */
  function Added(nodes: seq<Node>, n: nat, c: string): seq<NodeRef> {
    RefsOf(Numbered(nodes), NumberIds(n), c)
  }

  /** Position `p` (from 1) holds a node of the class. */
  predicate Holds(nodes: seq<Node>, p: int, c: string) {
    1 <= p <= |nodes| && nodes[p - 1].classType == c
  }

  ghost predicate PairInOrder(nodes: seq<Node>, c: string, p: int, q: int) {
    1 <= p < q && Holds(nodes, p, c) && Holds(nodes, q, c) ==> Lex.Leq(Decimal(p), Decimal(q))
  }

  /** Among the first `n` positions that hold a node of the class, string order is number
      order. */
  ghost predicate InIdOrder(nodes: seq<Node>, n: nat, c: string) {
    forall p, q :: p < q <= n ==> PairInOrder(nodes, c, p, q)
  }

  /** The ids among the first `n` that hold a node of the class. */
  lemma {:induction false} AddedIds(nodes: seq<Node>, n: nat, c: string)
    requires n <= |nodes|
    ensures RefsInto(Numbered(nodes), Added(nodes, n, c)) && Distinct(IdsOf(Added(nodes, n, c)))
    ensures forall p :: 1 <= p <= n && Holds(nodes, p, c) ==> Decimal(p) in IdsOf(Added(nodes, n, c))
    ensures forall id :: id in IdsOf(Added(nodes, n, c)) ==>
              exists p :: 1 <= p <= n && Holds(nodes, p, c) && id == Decimal(p)
  {
    NumberIdsDistinct(n);
    RefsFacts(Numbered(nodes), NumberIds(n), c);
    forall p | 1 <= p <= n && Holds(nodes, p, c)
      ensures Decimal(p) in IdsOf(Added(nodes, n, c))
    {
      HeldId(nodes, n, p);
    }
    forall id | id in IdsOf(Added(nodes, n, c))
      ensures exists p :: 1 <= p <= n && Holds(nodes, p, c) && id == Decimal(p)
    {
      var p := IdNumber(nodes, n, id);
      assert Holds(nodes, p, c);
    }
  }

  lemma {:induction false} HeldId(nodes: seq<Node>, n: nat, p: nat)
    requires 1 <= p <= n <= |nodes|
    ensures Decimal(p) in NumberIds(n) && Decimal(p) in Numbered(nodes) && Numbered(nodes)[Decimal(p)] == nodes[p - 1]
  {
    NumberedAt(nodes, p);
    assert NumberIds(n)[p - 1] == Decimal(p);
  }

  lemma {:induction false} IdNumber(nodes: seq<Node>, n: nat, id: string) returns (p: nat)
    requires n <= |nodes| && id in NumberIds(n)
    ensures 1 <= p <= n && id == Decimal(p) && id in Numbered(nodes) && Numbered(nodes)[id] == nodes[p - 1]
  {
    var i :| 0 <= i < n && NumberIds(n)[i] == id;
    p := i + 1;
    NumberedAt(nodes, p);
  }

  lemma {:induction false} AddedNext(nodes: seq<Node>, n: nat, c: string)
    requires n < |nodes|
    ensures IdsOf(Added(nodes, n + 1, c))
         == IdsOf(Added(nodes, n, c)) + if Holds(nodes, n + 1, c) then [Decimal(n + 1)] else []
  {
    var g := Numbered(nodes);
    var last := RefsAt(g, Decimal(n + 1), c);
    NumberedAt(nodes, n + 1);
    NumberIdsAppend(n);
    RefsAppend(g, NumberIds(n), Decimal(n + 1), c);
    IdsAppend(Added(nodes, n, c), last);
    assert IdsOf(last) == if Holds(nodes, n + 1, c) then [Decimal(n + 1)] else [];
  }

  /** All positions before the next one are in order with it. */
  ghost predicate NextInOrder(nodes: seq<Node>, q: int, c: string) {
    forall p :: p < q ==> PairInOrder(nodes, c, p, q)
  }

  lemma {:induction false} InIdOrderSplit(nodes: seq<Node>, n: nat, c: string)
    requires n >= 1
    ensures InIdOrder(nodes, n, c) <==> InIdOrder(nodes, n - 1, c) && NextInOrder(nodes, n, c)
    ensures !Holds(nodes, n, c) ==> NextInOrder(nodes, n, c)
  {
  }

  lemma {:induction false} NextInOrderIff(nodes: seq<Node>, n: nat, c: string)
    requires n < |nodes| && Holds(nodes, n + 1, c)
    ensures NextInOrder(nodes, n + 1, c) <==> forall k :: k in IdsOf(Added(nodes, n, c)) ==> Lex.Leq(k, Decimal(n + 1))
  {
    AddedIds(nodes, n, c);
    if NextInOrder(nodes, n + 1, c) {
      forall k | k in IdsOf(Added(nodes, n, c))
        ensures Lex.Leq(k, Decimal(n + 1))
      {
        var p :| 1 <= p <= n && Holds(nodes, p, c) && k == Decimal(p);
        assert PairInOrder(nodes, c, p, n + 1);
      }
    }
  }

  lemma {:induction false} AddedSortedStep(nodes: seq<Node>, n: nat, c: string, before: seq<string>, after: seq<string>)
    requires n < |nodes| && before == IdsOf(Added(nodes, n, c)) && after == IdsOf(Added(nodes, n + 1, c))
    ensures Lex.Sorted(after) <==> Lex.Sorted(before) && NextInOrder(nodes, n + 1, c)
  {
    AddedNext(nodes, n, c);
    if Holds(nodes, n + 1, c) {
      NextInOrderIff(nodes, n, c);
      SortedAppend(before, Decimal(n + 1));
    } else {
      assert before + [] == before;
    }
  }

  ghost predicate AddedSorted(nodes: seq<Node>, n: nat, c: string) {
    Lex.Sorted(IdsOf(Added(nodes, n, c)))
  }

  /** In task order the ids are sorted exactly when string order is number order on them. */
  lemma {:induction false} AddedSortedIff(nodes: seq<Node>, n: nat, c: string)
    requires n <= |nodes|
    ensures AddedSorted(nodes, n, c) <==> InIdOrder(nodes, n, c)
  {
    if n == 0 {
      assert IdsOf(Added(nodes, 0, c)) == [];
    } else {
      AddedSortedIff(nodes, n - 1, c);
      AddedSortedStep(nodes, n - 1, c, IdsOf(Added(nodes, n - 1, c)), IdsOf(Added(nodes, n, c)));
      InIdOrderSplit(nodes, n, c);
    }
  }

  // ---------- lookup and task order ----------

  /** Lookup by class returns the references of the class, ids and nodes, in the order the
      nodes were added, if and only if string order is number order on their positions. */
  lemma {:induction false} FoundInOrderIff(nodes: seq<Node>, c: string)
    ensures Found(Numbered(nodes), c) == Added(nodes, |nodes|, c) <==> InIdOrder(nodes, |nodes|, c)
  {
    var g, n := Numbered(nodes), |nodes|;
    var sorted := Lex.SortedKeys(g.Keys);
    RefsSorted(g, sorted, c);
    AddedSortedIff(nodes, n, c);
    if InIdOrder(nodes, n, c) {
      RefsFacts(g, sorted, c);
      NumberIdsDistinct(n);
      RefsFacts(g, NumberIds(n), c);
      NumberIdsExact(nodes);
      SortedIdsSame(IdsOf(Found(g, c)), IdsOf(Added(nodes, n, c)));
      SameIdsSameRefs(g, Found(g, c), Added(nodes, n, c));
    }
  }

  lemma {:induction false} SortedIdsSame(a: seq<string>, b: seq<string>)
    requires Lex.Sorted(a) && Distinct(a) && Lex.Sorted(b) && Distinct(b)
    requires forall k :: k in a <==> k in b
    ensures a == b
  {
    var s := set k | k in a;
    SizeOfDistinct(a, s);
    SizeOfDistinct(b, s);
    Lex.SortedUnique(a, b);
  }

  lemma {:induction false} SizeOfDistinct(a: seq<string>, s: set<string>)
    requires Distinct(a) && forall k :: k in s <==> k in a
    ensures |a| == |s|
  {
    if a != [] {
      var front, last := a[..|a| - 1], a[|a| - 1];
      assert a == front + [last] && last !in front;
      SizeOfDistinct(front, s - {last});
    }
  }

  /** The nodes of the class are pairwise different. */
  ghost predicate DistinctOfClass(nodes: seq<Node>, c: string) {
    forall p, q :: p < q && Holds(nodes, p, c) && Holds(nodes, q, c) ==> nodes[p - 1] != nodes[q - 1]
  }

  /** Where the nodes of a class stand. */
  lemma {:induction false} OfClassPlaces(nodes: seq<Node>, c: string) returns (at: seq<nat>)
    ensures |at| == |OfClass(nodes, c)|
    ensures forall i :: 0 <= i < |at| ==> at[i] < |nodes| && nodes[at[i]] == OfClass(nodes, c)[i]
    ensures forall p: nat :: p < |nodes| && nodes[p].classType == c ==> p in at
  {
    if nodes == [] {
      at := [];
    } else {
      var n := |nodes| - 1;
      at := OfClassPlaces(nodes[..n], c);
      forall p: nat | p < n && nodes[p].classType == c
        ensures p in at
      {
        assert nodes[..n][p] == nodes[p];
      }
      if nodes[n].classType == c {
        at := at + [n];
      }
    }
  }

  lemma {:induction false} DistinctFound(nodes: seq<Node>, c: string)
    requires Distinct(OfClass(nodes, c))
    ensures DistinctOfClass(nodes, c)
  {
    var at := OfClassPlaces(nodes, c);
    forall p, q | p < q && Holds(nodes, p, c) && Holds(nodes, q, c)
      ensures nodes[p - 1] != nodes[q - 1]
    {
      assert (p - 1) in at && (q - 1) in at;
      var i :| 0 <= i < |at| && at[i] == p - 1;
      var j :| 0 <= j < |at| && at[j] == q - 1;
      assert OfClass(nodes, c)[i] != OfClass(nodes, c)[j];
    }
  }

  lemma {:induction false} SameNodesSameIds(nodes: seq<Node>, c: string, a: seq<NodeRef>, b: seq<NodeRef>)
    requires DistinctOfClass(nodes, c) && NodesOf(a) == NodesOf(b)
    requires RefsInto(Numbered(nodes), a) && RefsInto(Numbered(nodes), b)
    requires forall r :: r in a || r in b ==> r.node.classType == c
    ensures a == b
  {
    assert |NodesOf(a)| == |a| && |NodesOf(b)| == |b|;
    forall i | 0 <= i < |a|
      ensures a[i] == b[i]
    {
      assert NodesOf(a)[i] == NodesOf(b)[i];
      assert a[i] in a && b[i] in b;
      var p := NumberOf(nodes, a[i].id);
      var q := NumberOf(nodes, b[i].id);
      assert Holds(nodes, p, c) && Holds(nodes, q, c);
    }
  }

  lemma {:induction false} NumberOf(nodes: seq<Node>, id: string) returns (k: nat)
    requires id in Numbered(nodes)
    ensures 1 <= k <= |nodes| && id == Decimal(k) && Numbered(nodes)[id] == nodes[k - 1]
  {
    NumberedKeys(nodes);
    k :| 1 <= k <= |nodes| && id == Decimal(k);
    NumberedAt(nodes, k);
  }

  /** The same for the nodes alone, when those of the class are pairwise different. */
  lemma {:induction false} NodesInOrderIff(nodes: seq<Node>, c: string)
    requires DistinctOfClass(nodes, c)
    ensures NodesOf(Found(Numbered(nodes), c)) == OfClass(nodes, c) <==> InIdOrder(nodes, |nodes|, c)
  {
    var g, n := Numbered(nodes), |nodes|;
    FoundInOrderIff(nodes, c);
    RefsInOrder(nodes, n, c);
    assert nodes[..n] == nodes;
    if NodesOf(Found(g, c)) == OfClass(nodes, c) {
      var sorted := Lex.SortedKeys(g.Keys);
      RefsFacts(g, sorted, c);
      NumberIdsDistinct(n);
      RefsFacts(g, NumberIds(n), c);
      RefsHaveClass(g, sorted, c);
      RefsHaveClass(g, NumberIds(n), c);
      SameNodesSameIds(nodes, c, Found(g, c), Added(nodes, n, c));
    }
  }

  lemma {:induction false} RefsHaveClass(g: Graph, ids: seq<string>, c: string)
    ensures forall r :: r in RefsOf(g, ids, c) ==> r.node.classType == c
  {
    if ids != [] {
      RefsHaveClass(g, ids[..|ids| - 1], c);
    }
  }

  /** Positions up to nine are always in order; nine and ten never are. */
  lemma {:induction false} OneDigitInOrder(nodes: seq<Node>, c: string)
    requires forall p :: Holds(nodes, p, c) ==> p <= 9
    ensures InIdOrder(nodes, |nodes|, c)
  {
    forall p, q | p < q <= |nodes|
      ensures PairInOrder(nodes, c, p, q)
    {
      if 1 <= p && Holds(nodes, p, c) && Holds(nodes, q, c) {
        assert Decimal(p) == [Digit(p)] && Decimal(q) == [Digit(q)];
      }
    }
  }

  lemma {:induction false} NineAndTen(nodes: seq<Node>, c: string)
    requires Holds(nodes, 9, c) && Holds(nodes, 10, c)
    ensures !InIdOrder(nodes, |nodes|, c)
  {
    assert Decimal(10) == Decimal(1) + [Digit(0)] && Decimal(9) == [Digit(9)];
    assert !Lex.Leq(Decimal(9), Decimal(10));
    assert !PairInOrder(nodes, c, 9, 10);
  }

  /** A graph of one class only: lookup keeps the order of distinct nodes exactly up to nine
      of them. */
  lemma {:induction false} OneClassInOrderIff(nodes: seq<Node>, c: string)
    requires forall i :: 0 <= i < |nodes| ==> nodes[i].classType == c
    requires Distinct(nodes)
    ensures NodesOf(Found(Numbered(nodes), c)) == nodes <==> |nodes| <= 9
  {
    AllOfClass(nodes, c);
    NodesInOrderIff(nodes, c);
    if |nodes| <= 9 {
      OneDigitInOrder(nodes, c);
    } else {
      NineAndTen(nodes, c);
    }
  }

  lemma {:induction false} AllOfClass(nodes: seq<Node>, c: string)
    requires forall i :: 0 <= i < |nodes| ==> nodes[i].classType == c
    ensures OfClass(nodes, c) == nodes
  {
    if nodes != [] {
      AllOfClass(nodes[..|nodes| - 1], c);
    }
  }

  /** Not the size of the graph decides: a graph of ten nodes that holds only two of a class,
      as its ninth and tenth, gives them back reversed. */
  lemma {:induction false} TwoOfTenReversed(nodes: seq<Node>, c: string)
    requires |nodes| == 10 && nodes[8] != nodes[9]
    requires forall p :: Holds(nodes, p, c) <==> p == 9 || p == 10
    ensures NodesOf(Found(Numbered(nodes), c)) != OfClass(nodes, c)
  {
    NineAndTen(nodes, c);
    NodesInOrderIff(nodes, c);
  }
}
