/**
 Balanced broker assignment: every partition has one owner, loads differ by at most one, and the result
 depends only on which partitions and nodes there are, for any score function.
 */
module Assignment {
  import opened LeaseStore
  import opened CanonicalMembership
  import opened PartitionOrder

  type Score = (Key, string) -> nat

  // ---------------------------------------------------------------------------------------------
  // One owner
  // ---------------------------------------------------------------------------------------------

  /** `a` is preferred: a higher score, or the same score and the smaller identifier. */
  predicate Preferred(less: Order, score: Score, p: Key, a: Node, b: Node) {
    score(p, a.id) > score(p, b.id) || (score(p, a.id) == score(p, b.id) && less(a.id, b.id))
  }

  function LoadOf(loads: map<string, nat>, n: Node): nat {
    if n.id in loads then loads[n.id] else 0
  }

  /** The preferred node among the least loaded ones. */
  predicate IsOwner(less: Order, score: Score, nodes: seq<Node>, loads: map<string, nat>, p: Key, owner: Node) {
    && owner in nodes
    && (forall n | n in nodes :: LoadOf(loads, owner) <= LoadOf(loads, n))
    && (forall n | n in nodes && n != owner && LoadOf(loads, n) == LoadOf(loads, owner) :: Preferred(less, score, p, owner, n))
  }

  /** There is only one such node. */
  lemma OwnerIsUnique(less: Order, score: Score, nodes: seq<Node>, loads: map<string, nat>, p: Key, a: Node, b: Node)
    requires IsStrictOrder(less) && IsOwner(less, score, nodes, loads, p, a) && IsOwner(less, score, nodes, loads, p, b)
    ensures a == b
  {
  }

  /** The least load, then the best node that has it. */
  method ChooseOwner(less: Order, score: Score, nodes: seq<Node>, loads: map<string, nat>, p: Key) returns (owner: Node)
    requires IsStrictOrder(less) && nodes != [] && AscendsById(less, nodes)
    ensures IsOwner(less, score, nodes, loads, p, owner)
    ensures owner in nodes
    ensures forall n | n in nodes && n != owner ::
              var mine := if owner.id in loads then loads[owner.id] else 0;
              var theirs := if n.id in loads then loads[n.id] else 0;
              || mine < theirs
              || (mine == theirs && score(p, owner.id) > score(p, n.id))
              || (mine == theirs && score(p, owner.id) == score(p, n.id) && less(owner.id, n.id))
  {
    var minimum := LoadOf(loads, nodes[0]);
    ghost var at := 0;
    for i := 1 to |nodes|
      invariant at < i && minimum == LoadOf(loads, nodes[at])
      invariant forall j | 0 <= j < i :: minimum <= LoadOf(loads, nodes[j])
    {
      if LoadOf(loads, nodes[i]) < minimum {
        minimum, at := LoadOf(loads, nodes[i]), i;
      }
    }
    var best := -1;
    for i := 0 to |nodes|
      invariant -1 <= best < i
      invariant best < 0 ==> forall j | 0 <= j < i :: LoadOf(loads, nodes[j]) != minimum
      invariant best >= 0 ==> LoadOf(loads, nodes[best]) == minimum
      invariant best >= 0 ==> forall j | 0 <= j < i && j != best && LoadOf(loads, nodes[j]) == minimum ::
                  Preferred(less, score, p, nodes[best], nodes[j])
    {
      if LoadOf(loads, nodes[i]) == minimum && (best < 0 || Preferred(less, score, p, nodes[i], nodes[best])) {
        best := i;
      }
    }
    owner := nodes[best];
  }

  // ---------------------------------------------------------------------------------------------
  // All owners
  // ---------------------------------------------------------------------------------------------

  ghost function OwnedBy(owners: map<Key, Node>, id: string): set<Key> {
    set p | p in owners && owners[p].id == id
  }

  /** How many partitions each node owns. */
  ghost predicate Counts(nodes: seq<Node>, owners: map<Key, Node>, loads: map<string, nat>) {
    forall n | n in nodes :: n.id in loads && loads[n.id] == |OwnedBy(owners, n.id)|
  }

  /** Owners are members, and no node owns two partitions more than another. */
  ghost predicate Balanced(nodes: seq<Node>, owners: map<Key, Node>) {
    && (forall p | p in owners :: owners[p] in nodes)
    && (forall m, n | m in nodes && n in nodes :: |OwnedBy(owners, m.id)| <= |OwnedBy(owners, n.id)| + 1)
  }

  /** Each partition's owner is chosen on the loads that the partitions before it left. */
  ghost predicate ChosenInOrder(less: Order, score: Score, nodes: seq<Node>, partitions: seq<Key>, owners: map<Key, Node>)
    decreases |partitions|
  {
    if partitions == [] then
      owners == map[]
    else
      var p := partitions[|partitions| - 1];
      && p in owners
      && ChosenInOrder(less, score, nodes, partitions[..|partitions| - 1], owners - {p})
      && exists loads :: Counts(nodes, owners - {p}, loads) && IsOwner(less, score, nodes, loads, p, owners[p])
  }

  /** Equal counts choose alike. */
  lemma SameCountsSameOwner(less: Order, score: Score, nodes: seq<Node>, owners: map<Key, Node>, a: map<string, nat>,
                            b: map<string, nat>, p: Key, owner: Node)
    requires Counts(nodes, owners, a) && Counts(nodes, owners, b) && IsOwner(less, score, nodes, a, p, owner)
    ensures IsOwner(less, score, nodes, b, p, owner)
  {
  }

  lemma {:induction false} ChoiceIsDetermined(less: Order, score: Score, nodes: seq<Node>, partitions: seq<Key>,
                                              a: map<Key, Node>, b: map<Key, Node>)
    requires IsStrictOrder(less)
    requires ChosenInOrder(less, score, nodes, partitions, a) && ChosenInOrder(less, score, nodes, partitions, b)
    ensures a == b
    decreases |partitions|
  {
    if partitions != [] {
      var p := partitions[|partitions| - 1];
      ChoiceIsDetermined(less, score, nodes, partitions[..|partitions| - 1], a - {p}, b - {p});
      var x :| Counts(nodes, a - {p}, x) && IsOwner(less, score, nodes, x, p, a[p]);
      var y :| Counts(nodes, b - {p}, y) && IsOwner(less, score, nodes, y, p, b[p]);
      SameCountsSameOwner(less, score, nodes, b - {p}, y, x, p, b[p]);
      OwnerIsUnique(less, score, nodes, x, p, a[p], b[p]);
      assert a == (a - {p})[p := a[p]] && b == (b - {p})[p := b[p]];
    }
  }

  lemma OwnedAfter(owners: map<Key, Node>, p: Key, owner: Node, id: string)
    requires p !in owners
    ensures |OwnedBy(owners[p := owner], id)| == |OwnedBy(owners, id)| + if id == owner.id then 1 else 0
  {
    var before, after := OwnedBy(owners, id), OwnedBy(owners[p := owner], id);
    if id == owner.id {
      assert after == before + {p};
    } else {
      assert after == before;
    }
  }

  lemma CountOneMore(nodes: seq<Node>, owners: map<Key, Node>, loads: map<string, nat>, p: Key, owner: Node)
    requires Counts(nodes, owners, loads) && p !in owners && owner in nodes
    ensures Counts(nodes, owners[p := owner], loads[owner.id := LoadOf(loads, owner) + 1])
  {
    forall n | n in nodes
      ensures |OwnedBy(owners[p := owner], n.id)| == loads[owner.id := LoadOf(loads, owner) + 1][n.id]
    {
      OwnedAfter(owners, p, owner, n.id);
    }
  }

  /** One more partition goes to a least loaded node. */
  lemma BalanceOneMore(less: Order, score: Score, nodes: seq<Node>, owners: map<Key, Node>, loads: map<string, nat>, p: Key, owner: Node)
    requires Balanced(nodes, owners) && Counts(nodes, owners, loads) && p !in owners
    requires IsOwner(less, score, nodes, loads, p, owner)
    ensures Balanced(nodes, owners[p := owner])
  {
    var owners' := owners[p := owner];
    forall m, n | m in nodes && n in nodes
      ensures |OwnedBy(owners', m.id)| <= |OwnedBy(owners', n.id)| + 1
    {
      OwnedAfter(owners, p, owner, m.id);
      OwnedAfter(owners, p, owner, n.id);
      assert LoadOf(loads, owner) <= LoadOf(loads, n);
    }
  }

  lemma ChooseOneMore(less: Order, score: Score, nodes: seq<Node>, done: seq<Key>, p: Key, owners: map<Key, Node>,
                      loads: map<string, nat>, owner: Node)
    requires ChosenInOrder(less, score, nodes, done, owners) && p !in owners
    requires Counts(nodes, owners, loads) && IsOwner(less, score, nodes, loads, p, owner)
    ensures ChosenInOrder(less, score, nodes, done + [p], owners[p := owner])
  {
    assert (done + [p])[..|done|] == done;
    assert owners[p := owner] - {p} == owners;
  }

  /** The owned partitions are exactly the assigned ones. */
  lemma {:induction false} ChosenCovers(less: Order, score: Score, nodes: seq<Node>, done: seq<Key>, owners: map<Key, Node>)
    requires ChosenInOrder(less, score, nodes, done, owners)
    ensures forall p :: p in owners <==> p in done
    decreases |done|
  {
    if done != [] {
      var p := done[|done| - 1];
      ChosenCovers(less, score, nodes, done[..|done| - 1], owners - {p});
      assert done == done[..|done| - 1] + [p];
    }
  }

  /** The partitions in `done` are assigned and counted. */
  ghost predicate Assigned(less: Order, score: Score, nodes: seq<Node>, done: seq<Key>, owners: map<Key, Node>, loads: map<string, nat>) {
    Balanced(nodes, owners) && Counts(nodes, owners, loads) && ChosenInOrder(less, score, nodes, done, owners)
  }

  lemma StartAssigning(less: Order, score: Score, nodes: seq<Node>, loads: map<string, nat>)
    requires forall n | n in nodes :: n.id in loads && loads[n.id] == 0
    ensures Assigned(less, score, nodes, [], map[], loads)
  {
  }

  lemma AssignOneMore(less: Order, score: Score, nodes: seq<Node>, done: seq<Key>, p: Key, owners: map<Key, Node>,
                      loads: map<string, nat>, owner: Node)
    requires p !in done && Assigned(less, score, nodes, done, owners, loads) && IsOwner(less, score, nodes, loads, p, owner)
    ensures Assigned(less, score, nodes, done + [p], owners[p := owner], loads[owner.id := LoadOf(loads, owner) + 1])
  {
    ChosenCovers(less, score, nodes, done, owners);
    ChooseOneMore(less, score, nodes, done, p, owners, loads, owner);
    BalanceOneMore(less, score, nodes, owners, loads, p, owner);
    CountOneMore(nodes, owners, loads, p, owner);
  }

  lemma TakeOneMore(keys: seq<Key>, i: nat)
    requires i < |keys|
    ensures keys[..i + 1] == keys[..i] + [keys[i]]
  {
  }

  /** Assigns the partitions in order, keeping a running load per node. */
  method AssignAll(less: Order, score: Score, sorted: seq<Key>, nodes: seq<Node>) returns (owners: map<Key, Node>)
    requires IsStrictOrder(less) && KeysAscend(sorted) && nodes != [] && AscendsById(less, nodes)
    ensures forall p :: p in owners <==> p in sorted
    ensures Balanced(nodes, owners) && ChosenInOrder(less, score, nodes, sorted, owners)
  {
    owners := map[];
    var loads: map<string, nat> := map n | n in nodes :: n.id := 0;
    StartAssigning(less, score, nodes, loads);
    for i := 0 to |sorted|
      invariant Assigned(less, score, nodes, sorted[..i], owners, loads)
    {
      var owner := ChooseOwner(less, score, nodes, loads, sorted[i]);
      NotBefore(sorted, i);
      TakeOneMore(sorted, i);
      AssignOneMore(less, score, nodes, sorted[..i], sorted[i], owners, loads, owner);
      owners := owners[sorted[i] := owner];
      loads := loads[owner.id := LoadOf(loads, owner) + 1];
    }
    assert sorted[..|sorted|] == sorted;
    ChosenCovers(less, score, nodes, sorted, owners);
  }

  /**
   Every partition gets one owner, no owner when there is no node, loads within one, each choice made in
   partition order among the canonical nodes.
   */
  method BalancedAssignment(less: Order, score: Score, partitions: seq<Key>, members: seq<Node>) returns (owners: map<Key, Node>)
    requires IsStrictOrder(less)
    ensures Canonical(less, members) == [] ==> owners == map[]
    ensures Canonical(less, members) != [] ==>
              && (forall p :: p in owners <==> p in partitions)
              && Balanced(Canonical(less, members), owners)
              && ChosenInOrder(less, score, Canonical(less, members), SortedKeys(partitions), owners)
  {
    var nodes := CanonicalNodes(less, members);
    if nodes == [] {
      return map[];
    }
    SortedKeysAre(partitions);
    CanonicalIs(less, members);
    owners := AssignAll(less, score, SortedKeys(partitions), nodes);
  }

  lemma NotBefore(sorted: seq<Key>, i: nat)
    requires KeysAscend(sorted) && i < |sorted|
    ensures sorted[i] !in sorted[..i]
  {
    KeysTrichotomy(sorted[i], sorted[i]);
  }

  /** Listing order and duplicates, of partitions and of nodes, do not matter. */
  lemma AssignmentDependsOnSets(less: Order, score: Score, partitions: seq<Key>, members: seq<Node>, owners: map<Key, Node>,
                                partitions': seq<Key>, members': seq<Node>, owners': map<Key, Node>)
    requires IsStrictOrder(less)
    requires ChosenInOrder(less, score, Canonical(less, members), SortedKeys(partitions), owners)
    requires ChosenInOrder(less, score, Canonical(less, members'), SortedKeys(partitions'), owners')
    requires (forall p :: p in partitions <==> p in partitions') && (forall n :: n in members <==> n in members')
    ensures owners == owners'
  {
    CanonicalDependsOnSet(less, members, members');
    SortedKeysAre(partitions);
    SortedKeysAre(partitions');
    AscendingKeysAreUnique(SortedKeys(partitions), SortedKeys(partitions'));
    ChoiceIsDetermined(less, score, Canonical(less, members), SortedKeys(partitions), owners, owners');
  }
}
