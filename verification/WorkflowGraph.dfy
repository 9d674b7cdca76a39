/** Workflow graphs (workflow/types.go): nodes keyed by id, validation, and lookup by class
    in id order. */
module WorkflowGraph {
  import opened Common
  import opened Text
  import Lex

  datatype Value =
    | VString(s: string)
    | VInt(i: int)
    | VBool(b: bool)
    | VStrings(strings: seq<string>)
    | VReals(reals: seq<real>)
    | VInts(ints: seq<int>)

  datatype Node = Node(classType: string, inputs: map<string, Value>)

  type Graph = map<string, Node>

  datatype NodeRef = NodeRef(id: string, node: Node)

  // ---------- Validate ----------

  ghost predicate ValidGraph(g: Graph) {
    g != map[] && forall id :: id in g ==> !Blank(id) && !Blank(g[id].classType)
  }

  /** `Graph.Validate`, walking the map in any order. */
  method Validate(g: Graph) returns (ok: bool)
    ensures ok <==> ValidGraph(g)
  {
    if |g| == 0 {
      return false;
    }
    var todo := g.Keys;
    while todo != {}
      invariant todo <= g.Keys
      invariant forall id :: id in g && id !in todo ==> !Blank(id) && !Blank(g[id].classType)
    {
      var id :| id in todo;
      if Blank(id) || Blank(g[id].classType) {
        return false;
      }
      todo := todo - {id};
    }
    ok := true;
  }

  // ---------- FindByClassType ----------

  function RefsAt(g: Graph, id: string, classType: string): seq<NodeRef> {
    if id in g && g[id].classType == classType then [NodeRef(id, g[id])] else []
  }

  function RefsOf(g: Graph, ids: seq<string>, classType: string): seq<NodeRef> {
    if ids == [] then []
    else RefsOf(g, ids[..|ids| - 1], classType) + RefsAt(g, ids[|ids| - 1], classType)
  }

  /** The nodes of a class in the order of their ids as strings. */
  function Found(g: Graph, classType: string): seq<NodeRef> {
    RefsOf(g, Lex.SortedKeys(g.Keys), classType)
  }

  lemma {:induction false} RefsAppend(g: Graph, ids: seq<string>, id: string, classType: string)
    ensures RefsOf(g, ids + [id], classType) == RefsOf(g, ids, classType) + RefsAt(g, id, classType)
  {
    assert (ids + [id])[..|ids|] == ids;
  }

  lemma {:induction false} RefsNext(g: Graph, ids: seq<string>, i: nat, classType: string)
    requires i < |ids|
    ensures RefsOf(g, ids[..i + 1], classType) == RefsOf(g, ids[..i], classType) + RefsAt(g, ids[i], classType)
  {
    assert ids[..i + 1][..i] == ids[..i];
  }

  method FindByClassType(g: Graph, classType: string) returns (refs: seq<NodeRef>)
    ensures refs == Found(g, classType)
  {
    refs := [];
    var ids := Lex.SortedKeys(g.Keys);
    for i := 0 to |ids|
      invariant refs == RefsOf(g, ids[..i], classType)
    {
      assert ids[i] in ids;
      RefsNext(g, ids, i, classType);
      var node := g[ids[i]];
      if node.classType == classType {
        refs := refs + [NodeRef(ids[i], node)];
      } else {
        assert refs + RefsAt(g, ids[i], classType) == refs;
      }
    }
    assert ids[..|ids|] == ids;
  }

  /** Every node of the class is found exactly once, under its own id. */
  lemma {:induction false} RefsExact(g: Graph, ids: seq<string>, classType: string)
    requires (forall id :: id in ids ==> id in g) && Distinct(ids)
    ensures forall r :: r in RefsOf(g, ids, classType) <==>
                        r.id in ids && r.node == g[r.id] && r.node.classType == classType
    ensures forall i, j :: 0 <= i < j < |RefsOf(g, ids, classType)| ==>
              RefsOf(g, ids, classType)[i].id != RefsOf(g, ids, classType)[j].id
  {
    if ids != [] {
      var front, id := ids[..|ids| - 1], ids[|ids| - 1];
      RefsExact(g, front, classType);
      assert ids == front + [id];
      var refs := RefsOf(g, front, classType);
      assert forall i :: 0 <= i < |refs| ==> refs[i] in refs;
      assert id !in front;
    }
  }

  lemma {:induction false} FoundExact(g: Graph, classType: string, r: NodeRef)
    ensures r in Found(g, classType) <==> r.id in g && r.node == g[r.id] && r.node.classType == classType
  {
    RefsExact(g, Lex.SortedKeys(g.Keys), classType);
  }

  // ---------- graphs numbered from 1 ----------

  /** The graph of a node list with ids "1", "2", ... */
  function Numbered(nodes: seq<Node>): Graph {
    if nodes == [] then map[]
    else Numbered(nodes[..|nodes| - 1])[Decimal(|nodes|) := nodes[|nodes| - 1]]
  }

  ghost predicate IsNumber(id: string, n: nat) {
    exists k :: 1 <= k <= n && id == Decimal(k)
  }

  lemma {:induction false} NewNumber(n: nat)
    ensures !IsNumber(Decimal(n + 1), n)
    ensures forall id :: IsNumber(id, n + 1) <==> IsNumber(id, n) || id == Decimal(n + 1)
  {
    forall k | 1 <= k <= n
      ensures Decimal(k) != Decimal(n + 1)
    {
      if Decimal(k) == Decimal(n + 1) {
        DecimalInjective(k, n + 1);
      }
    }
  }

  lemma {:induction false} NumberedKeys(nodes: seq<Node>)
    ensures |Numbered(nodes)| == |nodes|
    ensures forall id :: id in Numbered(nodes) <==> IsNumber(id, |nodes|)
  {
    if nodes != [] {
      var front := nodes[..|nodes| - 1];
      NumberedKeys(front);
      NewNumber(|front|);
      assert Decimal(|nodes|) !in Numbered(front);
    }
  }

  lemma {:induction false} NumberedAt(nodes: seq<Node>, k: nat)
    requires 1 <= k <= |nodes|
    ensures Decimal(k) in Numbered(nodes) && Numbered(nodes)[Decimal(k)] == nodes[k - 1]
  {
    var n := |nodes|;
    if k < n {
      NumberedAt(nodes[..n - 1], k);
      if Decimal(k) == Decimal(n) {
        DecimalInjective(k, n);
      }
    }
  }

  /** Exactly the ids 1 to n, each with its own node: no node is overwritten. */
  lemma {:induction false} NumberedExact(nodes: seq<Node>)
    ensures |Numbered(nodes)| == |nodes|
    ensures forall id :: id in Numbered(nodes) <==> IsNumber(id, |nodes|)
    ensures forall k :: 1 <= k <= |nodes| ==>
              Decimal(k) in Numbered(nodes) && Numbered(nodes)[Decimal(k)] == nodes[k - 1]
  {
    NumberedKeys(nodes);
    forall k | 1 <= k <= |nodes|
      ensures Decimal(k) in Numbered(nodes) && Numbered(nodes)[Decimal(k)] == nodes[k - 1]
    {
      NumberedAt(nodes, k);
    }
  }

  /** The ids in number order. */
  function NumberIds(n: nat): seq<string> {
    seq(n, i requires 0 <= i < n => Decimal(i + 1))
  }

  /** Positions (from 1) hold their ids in string order as well. */
  ghost predicate IdsSorted(n: nat) {
    Lex.Sorted(NumberIds(n))
  }

  lemma {:induction false} NumberIdsDistinct(n: nat)
    ensures Distinct(NumberIds(n))
  {
    forall i, j | 0 <= i < j < n
      ensures NumberIds(n)[i] != NumberIds(n)[j]
    {
      if Decimal(i + 1) == Decimal(j + 1) {
        DecimalInjective(i + 1, j + 1);
      }
    }
  }

  lemma {:induction false} NumberIdsExact(nodes: seq<Node>)
    ensures forall id :: id in NumberIds(|nodes|) <==> id in Numbered(nodes)
  {
    NumberedExact(nodes);
    var ids := NumberIds(|nodes|);
    forall id
      ensures id in ids <==> id in Numbered(nodes)
    {
      if id in Numbered(nodes) {
        var k :| 1 <= k <= |nodes| && id == Decimal(k);
        assert ids[k - 1] == id;
      }
    }
  }

  /** String order is number order for up to nine nodes, and for no more. */
  lemma {:induction false} IdsSortedIff(n: nat)
    ensures IdsSorted(n) <==> n <= 9
  {
    var ids := NumberIds(n);
    if n <= 9 {
      forall i, j | 0 <= i < j < n
        ensures Lex.Leq(ids[i], ids[j])
      {
        assert Decimal(i + 1) == [Digit(i + 1)] && Decimal(j + 1) == [Digit(j + 1)];
      }
    } else {
      assert Decimal(10) == Decimal(1) + [Digit(0)];
      assert ids[1] == [Digit(2)] && ids[9] == [Digit(1), Digit(0)];
      assert !Lex.Leq(ids[1], ids[9]);
    }
  }

  lemma {:induction false} SortedIdsAreNumbers(nodes: seq<Node>)
    requires |nodes| <= 9
    ensures Lex.SortedKeys(Numbered(nodes).Keys) == NumberIds(|nodes|)
  {
    NumberedExact(nodes);
    NumberIdsDistinct(|nodes|);
    NumberIdsExact(nodes);
    IdsSortedIff(|nodes|);
    Lex.SortedUnique(Lex.SortedKeys(Numbered(nodes).Keys), NumberIds(|nodes|));
  }

  // ---------- lookup in a numbered graph ----------

  function OfClass(nodes: seq<Node>, classType: string): seq<Node> {
    if nodes == [] then []
    else
      OfClass(nodes[..|nodes| - 1], classType)
      + if nodes[|nodes| - 1].classType == classType then [nodes[|nodes| - 1]] else []
  }

  function NodesOf(refs: seq<NodeRef>): seq<Node> {
    seq(|refs|, i requires 0 <= i < |refs| => refs[i].node)
  }

  lemma {:induction false} NumberIdsAppend(n: nat)
    ensures NumberIds(n + 1) == NumberIds(n) + [Decimal(n + 1)]
  {
  }

  lemma {:induction false} RefsInOrder(nodes: seq<Node>, n: nat, classType: string)
    requires n <= |nodes|
    ensures NodesOf(RefsOf(Numbered(nodes), NumberIds(n), classType)) == OfClass(nodes[..n], classType)
  {
    if n > 0 {
      var g := Numbered(nodes);
      RefsInOrder(nodes, n - 1, classType);
      NumberIdsAppend(n - 1);
      RefsAppend(g, NumberIds(n - 1), Decimal(n), classType);
      NodesSplit(RefsOf(g, NumberIds(n - 1), classType), RefsAt(g, Decimal(n), classType));
      NodeAt(nodes, n, classType);
      OfClassNext(nodes, n, classType);
    }
  }

  function OneOf(n: Node, classType: string): seq<Node> {
    if n.classType == classType then [n] else []
  }

  lemma {:induction false} NodeAt(nodes: seq<Node>, n: nat, classType: string)
    requires 1 <= n <= |nodes|
    ensures NodesOf(RefsAt(Numbered(nodes), Decimal(n), classType)) == OneOf(nodes[n - 1], classType)
  {
    NumberedAt(nodes, n);
  }

  lemma {:induction false} OfClassNext(nodes: seq<Node>, n: nat, classType: string)
    requires 1 <= n <= |nodes|
    ensures OfClass(nodes[..n], classType) == OfClass(nodes[..n - 1], classType) + OneOf(nodes[n - 1], classType)
  {
    assert nodes[..n][..n - 1] == nodes[..n - 1];
  }

  /** With at most nine nodes, lookup by class returns the nodes in the order they were added. */
  lemma {:induction false} FoundInOrder(nodes: seq<Node>, classType: string)
    requires |nodes| <= 9
    ensures NodesOf(Found(Numbered(nodes), classType)) == OfClass(nodes, classType)
  {
    SortedIdsAreNumbers(nodes);
    RefsInOrder(nodes, |nodes|, classType);
    assert nodes[..|nodes|] == nodes;
  }

  // ---------- any number of nodes ----------

  lemma {:induction false} WithoutString(s: seq<string>, i: nat)
    requires i < |s| && Distinct(s)
    ensures Distinct(Without(s, i))
    ensures forall k :: k in Without(s, i) <==> k in s && k != s[i]
  {
    var r := Without(s, i);
    forall k | k in s && k != s[i]
      ensures k in r
    {
      var j :| 0 <= j < |s| && s[j] == k;
      if j < i {
        assert r[j] == k;
      } else {
        assert r[j - 1] == k;
      }
    }
  }

  lemma {:induction false} RefsSplit(g: Graph, a: seq<string>, b: seq<string>, c: string)
    ensures RefsOf(g, a + b, c) == RefsOf(g, a, c) + RefsOf(g, b, c)
    decreases |b|
  {
    if b == [] {
      assert a + b == a;
    } else {
      var n := |b| - 1;
      assert (a + b)[..|a + b| - 1] == a + b[..n];
      RefsSplit(g, a, b[..n], c);
    }
  }

  lemma {:induction false} RefsWithout(g: Graph, s: seq<string>, i: nat, c: string)
    requires i < |s|
    ensures multiset(RefsOf(g, s, c))
         == multiset(RefsOf(g, Without(s, i), c)) + multiset(RefsOf(g, [s[i]], c))
  {
    var x, y, z := s[..i], [s[i]], s[i + 1..];
    assert s == (x + y) + z;
    RefsSplit(g, x + y, z, c);
    RefsSplit(g, x, y, c);
    RefsSplit(g, x, z, c);
    MiddleBag(RefsOf(g, x, c), RefsOf(g, y, c), RefsOf(g, z, c));
  }

  /** The references found do not depend on the order of the ids, as a bag. */
  lemma {:induction false} RefsBag(g: Graph, a: seq<string>, b: seq<string>, c: string)
    requires Distinct(a) && Distinct(b) && |a| == |b|
    requires forall id :: id in a <==> id in b
    ensures multiset(RefsOf(g, a, c)) == multiset(RefsOf(g, b, c))
    decreases |a|
  {
    if a != [] {
      var x := a[0];
      assert x in b;
      var j :| 0 <= j < |b| && b[j] == x;
      var a', b' := Without(a, 0), Without(b, j);
      WithoutString(a, 0);
      WithoutString(b, j);
      RefsWithout(g, a, 0, c);
      RefsWithout(g, b, j, c);
      assert forall id :: id in a' <==> id in b';
      RefsBag(g, a', b', c);
    }
  }

  lemma {:induction false} NodesSplit(a: seq<NodeRef>, b: seq<NodeRef>)
    ensures NodesOf(a + b) == NodesOf(a) + NodesOf(b)
  {
  }

  lemma {:induction false} NodesWithout(s: seq<NodeRef>, i: nat)
    requires i < |s|
    ensures multiset(Without(s, i)) == multiset(s) - multiset{s[i]}
    ensures multiset(NodesOf(s)) == multiset(NodesOf(Without(s, i))) + multiset{s[i].node}
  {
    var x, y, z := s[..i], [s[i]], s[i + 1..];
    assert s == (x + y) + z;
    NodesSplit(x + y, z);
    NodesSplit(x, y);
    NodesSplit(x, z);
    assert NodesOf(y) == [s[i].node];
  }

  lemma {:induction false} NodesBag(a: seq<NodeRef>, b: seq<NodeRef>)
    requires multiset(a) == multiset(b)
    ensures multiset(NodesOf(a)) == multiset(NodesOf(b))
    decreases |a|
  {
    if a == [] {
      assert |b| == |multiset(b)| == 0;
    } else {
      var j := SameBag(a, b);
      NodesWithout(a, 0);
      NodesWithout(b, j);
      NodesBag(Without(a, 0), Without(b, j));
    }
  }

  /** With any number of nodes, lookup by class returns each node of the class, as often as
      it was added. */
  lemma {:induction false} FoundBag(nodes: seq<Node>, classType: string)
    ensures multiset(NodesOf(Found(Numbered(nodes), classType))) == multiset(OfClass(nodes, classType))
  {
    var g, ids, sorted := Numbered(nodes), NumberIds(|nodes|), Lex.SortedKeys(Numbered(nodes).Keys);
    NumberedExact(nodes);
    NumberIdsDistinct(|nodes|);
    NumberIdsExact(nodes);
    assert |g.Keys| == |g|;
    RefsBag(g, sorted, ids, classType);
    NodesBag(RefsOf(g, sorted, classType), RefsOf(g, ids, classType));
    RefsInOrder(nodes, |nodes|, classType);
    assert nodes[..|nodes|] == nodes;
  }
}
