/**
 Canonical membership: one node per identifier, in identifier order. The proofs hold for any strict
 total order on strings.
 */
module CanonicalMembership {
  import PartitionOrder
  import Keys

  datatype Node = Node(id: string, address: string)

  type Order = (string, string) -> bool

  ghost predicate IsStrictOrder(less: Order) {
    && (forall a :: !less(a, a))
    && (forall a, b :: less(a, b) || a == b || less(b, a))
    && (forall a, b, c | less(a, b) && less(b, c) :: less(a, c))
  }

  /** Byte-wise string order is such an order. */
  lemma {:induction false} StringOrderIsStrict()
    ensures IsStrictOrder(Keys.Less)
  {
    forall a, b
      ensures !Keys.Less(a, a) && (Keys.Less(a, b) || a == b || Keys.Less(b, a))
    {
      PartitionOrder.StringsTrichotomy(a, b);
    }
    forall a, b, c | Keys.Less(a, b) && Keys.Less(b, c)
      ensures Keys.Less(a, c)
    {
      PartitionOrder.StringsTransitive(a, b, c);
    }
  }

  /** By identifier, then by address. */
  predicate NodeLess(less: Order, a: Node, b: Node) {
    less(a.id, b.id) || (a.id == b.id && less(a.address, b.address))
  }

  predicate IsSorted(less: Order, nodes: seq<Node>) {
    forall i, j | 0 <= i < j < |nodes| :: !NodeLess(less, nodes[j], nodes[i])
  }

  function Insert(less: Order, nodes: seq<Node>, n: Node): seq<Node> {
    if nodes == [] || NodeLess(less, n, nodes[0]) then [n] + nodes else [nodes[0]] + Insert(less, nodes[1..], n)
  }

  lemma {:induction false} InsertKeeps(less: Order, nodes: seq<Node>, n: Node)
    requires IsStrictOrder(less) && IsSorted(less, nodes)
    ensures IsSorted(less, Insert(less, nodes, n))
    ensures forall m :: m in Insert(less, nodes, n) <==> m in nodes || m == n
    decreases |nodes|
  {
    if nodes == [] {
    } else if NodeLess(less, n, nodes[0]) {
      forall j | 0 <= j < |nodes|
        ensures !NodeLess(less, nodes[j], n)
      {
      }
    } else {
      InsertKeeps(less, nodes[1..], n);
      var rest := Insert(less, nodes[1..], n);
      forall j | 0 <= j < |rest|
        ensures !NodeLess(less, rest[j], nodes[0])
      {
        assert rest[j] in rest;
      }
    }
  }

  function Sorted(less: Order, nodes: seq<Node>): seq<Node> {
    if nodes == [] then [] else Insert(less, Sorted(less, nodes[..|nodes| - 1]), nodes[|nodes| - 1])
  }

  lemma {:induction false} SortedIs(less: Order, nodes: seq<Node>)
    requires IsStrictOrder(less)
    ensures IsSorted(less, Sorted(less, nodes))
    ensures forall m :: m in Sorted(less, nodes) <==> m in nodes
    decreases |nodes|
  {
    if nodes != [] {
      SortedIs(less, nodes[..|nodes| - 1]);
      InsertKeeps(less, Sorted(less, nodes[..|nodes| - 1]), nodes[|nodes| - 1]);
    }
  }

  /** Keeps the first node of each run with one identifier. */
  function Deduped(nodes: seq<Node>): seq<Node> {
    if nodes == [] then
      []
    else
      var rest := Deduped(nodes[..|nodes| - 1]);
      var last := nodes[|nodes| - 1];
      if rest != [] && rest[|rest| - 1].id == last.id then rest else rest + [last]
  }

  function Canonical(less: Order, nodes: seq<Node>): seq<Node> {
    Deduped(Sorted(less, nodes))
  }

  method CanonicalNodes(less: Order, nodes: seq<Node>) returns (r: seq<Node>)
    ensures r == Canonical(less, nodes)
  {
    var sorted := Sorted(less, nodes);
    r := [];
    for i := 0 to |sorted|
      invariant r == Deduped(sorted[..i])
    {
      assert sorted[..i + 1][..i] == sorted[..i];
      if r == [] || r[|r| - 1].id != sorted[i].id {
        r := r + [sorted[i]];
      }
    }
    assert sorted[..|sorted|] == sorted;
  }

  // ---------------------------------------------------------------------------------------------
  // What it is
  // ---------------------------------------------------------------------------------------------

  /** No listed node with this identifier has a smaller address. */
  predicate IsLeast(less: Order, nodes: seq<Node>, n: Node) {
    n in nodes && forall m | m in nodes && m.id == n.id :: !less(m.address, n.address)
  }

  predicate AscendsById(less: Order, nodes: seq<Node>) {
    forall i, j | 0 <= i < j < |nodes| :: less(nodes[i].id, nodes[j].id)
  }

  /** Deduplication keeps members only, and ends with the last identifier. */
  lemma {:induction false} DedupedEnds(nodes: seq<Node>)
    ensures forall n | n in Deduped(nodes) :: n in nodes
    ensures nodes != [] ==> Deduped(nodes) != [] && Deduped(nodes)[|Deduped(nodes)| - 1].id == nodes[|nodes| - 1].id
    decreases |nodes|
  {
    if nodes != [] {
      DedupedEnds(nodes[..|nodes| - 1]);
    }
  }

  lemma {:induction false} DedupedAscends(less: Order, nodes: seq<Node>)
    requires IsStrictOrder(less) && IsSorted(less, nodes)
    ensures AscendsById(less, Deduped(nodes))
    decreases |nodes|
  {
    if nodes != [] {
      var front, last := nodes[..|nodes| - 1], nodes[|nodes| - 1];
      DedupedAscends(less, front);
      DedupedEnds(front);
      assert nodes == front + [last];
      var rest := Deduped(front);
      if front != [] && rest[|rest| - 1].id != last.id {
        LaterRun(less, front, last);
        assert forall i | 0 <= i < |rest| :: rest[i] in rest;
        AppendAscends(less, rest, last);
      }
    }
  }

  lemma {:induction false} DedupedContents(less: Order, nodes: seq<Node>)
    requires IsStrictOrder(less) && IsSorted(less, nodes)
    ensures forall n :: n in Deduped(nodes) <==> IsLeast(less, nodes, n)
    decreases |nodes|
  {
    if nodes != [] {
      var front, last := nodes[..|nodes| - 1], nodes[|nodes| - 1];
      DedupedContents(less, front);
      DedupedEnds(front);
      assert nodes == front + [last];
      OpensRunIff(less, front, last);
      forall n
        ensures n in Deduped(nodes) <==> IsLeast(less, nodes, n)
      {
        LeastWithLast(less, front, last, n);
      }
    }
  }

  /** The last node opens a run exactly when no node before it shares its identifier. */
  lemma OpensRunIff(less: Order, front: seq<Node>, last: Node)
    requires IsStrictOrder(less) && IsSorted(less, front + [last])
    ensures front == [] || front[|front| - 1].id != last.id <==> forall m | m in front :: m.id != last.id
  {
    if front != [] {
      if front[|front| - 1].id != last.id {
        LaterRun(less, front, last);
      } else {
        assert front[|front| - 1] in front;
      }
    }
  }

  /** A node that opens a new run comes after every identifier before it. */
  lemma LaterRun(less: Order, front: seq<Node>, last: Node)
    requires IsStrictOrder(less) && IsSorted(less, front + [last]) && front != [] && front[|front| - 1].id != last.id
    ensures forall m | m in front :: less(m.id, last.id)
  {
    var nodes := front + [last];
    forall m | m in front
      ensures less(m.id, last.id)
    {
      var i :| 0 <= i < |front| && front[i] == m;
      assert nodes[i] == m && nodes[|front| - 1] == front[|front| - 1] && nodes[|front|] == last;
      assert !NodeLess(less, nodes[|front|], nodes[|front| - 1]) && (i < |front| - 1 ==> !NodeLess(less, nodes[|front| - 1], nodes[i]));
    }
  }

  lemma AppendAscends(less: Order, rest: seq<Node>, last: Node)
    requires AscendsById(less, rest) && forall i | 0 <= i < |rest| :: less(rest[i].id, last.id)
    ensures AscendsById(less, rest + [last])
  {
  }

  /** The last node of a sorted list is least exactly when it opens a run or repeats its opener. */
  lemma LeastWithLast(less: Order, front: seq<Node>, last: Node, n: Node)
    requires IsStrictOrder(less) && IsSorted(less, front + [last])
    ensures IsLeast(less, front + [last], n) <==> IsLeast(less, front, n) || (n == last && forall m | m in front :: m.id != last.id)
  {
    var nodes := front + [last];
    forall m | m in front
      ensures !NodeLess(less, last, m)
    {
      var i :| 0 <= i < |front| && front[i] == m;
      assert nodes[i] == m && nodes[|front|] == last;
    }
    assert forall m :: m in nodes <==> m in front || m == last;
  }

  /** An ascending list is determined by its elements. */
  lemma {:induction false} AscendingIsUnique(less: Order, a: seq<Node>, b: seq<Node>)
    requires IsStrictOrder(less) && AscendsById(less, a) && AscendsById(less, b) && forall n :: n in a <==> n in b
    ensures a == b
    decreases |a|
  {
    if a == [] {
      if b != [] {
        HasFirst(b);
      }
    } else {
      HasFirst(a);
      HasFirst(b);
      FirstIsLess(less, a, b[0]);
      FirstIsLess(less, b, a[0]);
      forall n
        ensures n in a[1..] <==> n in b[1..]
      {
        RestIsTheRest(less, a, n);
        RestIsTheRest(less, b, n);
      }
      AscendingIsUnique(less, a[1..], b[1..]);
      assert a == [a[0]] + a[1..] && b == [b[0]] + b[1..];
    }
  }

  lemma HasFirst(a: seq<Node>)
    requires a != []
    ensures a[0] in a
  {
  }

  lemma FirstIsLess(less: Order, a: seq<Node>, n: Node)
    requires AscendsById(less, a) && n in a
    ensures n == a[0] || less(a[0].id, n.id)
  {
  }

  lemma RestIsTheRest(less: Order, a: seq<Node>, n: Node)
    requires IsStrictOrder(less) && AscendsById(less, a) && a != []
    ensures n in a[1..] <==> n in a && n != a[0]
  {
  }

  lemma CanonicalIs(less: Order, nodes: seq<Node>)
    requires IsStrictOrder(less)
    ensures AscendsById(less, Canonical(less, nodes))
    ensures forall n :: n in Canonical(less, nodes) <==> IsLeast(less, nodes, n)
  {
    SortedIs(less, nodes);
    var sorted := Sorted(less, nodes);
    DedupedAscends(less, sorted);
    DedupedContents(less, sorted);
    forall n
      ensures IsLeast(less, sorted, n) <==> IsLeast(less, nodes, n)
    {
    }
  }

  /** Listing order and duplicates do not matter. */
  lemma CanonicalDependsOnSet(less: Order, a: seq<Node>, b: seq<Node>)
    requires IsStrictOrder(less) && forall n :: n in a <==> n in b
    ensures Canonical(less, a) == Canonical(less, b)
  {
    CanonicalIs(less, a);
    CanonicalIs(less, b);
    forall n
      ensures IsLeast(less, a, n) <==> IsLeast(less, b, n)
    {
    }
    AscendingIsUnique(less, Canonical(less, a), Canonical(less, b));
  }

  /** Every identifier of the membership keeps exactly one node. */
  lemma {:induction false} CanonicalCovers(less: Order, nodes: seq<Node>, n: Node) returns (m: Node)
    requires IsStrictOrder(less) && n in nodes
    ensures m in Canonical(less, nodes) && m.id == n.id
    ensures forall k | k in Canonical(less, nodes) && k.id == n.id :: k == m
  {
    m := LeastOf(less, nodes, n);
    CanonicalIs(less, nodes);
    forall k | k in Canonical(less, nodes) && k.id == n.id
      ensures k == m
    {
      assert IsLeast(less, nodes, k);
    }
  }

  lemma {:induction false} LeastOf(less: Order, nodes: seq<Node>, n: Node) returns (m: Node)
    requires IsStrictOrder(less) && n in nodes
    ensures IsLeast(less, nodes, m) && m.id == n.id
    decreases |nodes|
  {
    var front, last := nodes[..|nodes| - 1], nodes[|nodes| - 1];
    assert forall k :: k in nodes <==> k in front || k == last;
    if k :| k in front && k.id == n.id {
      m := LeastOf(less, front, k);
      if last.id == n.id && less(last.address, m.address) {
        m := last;
      }
    } else {
      m := last;
    }
  }
}
