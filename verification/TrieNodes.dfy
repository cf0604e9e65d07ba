/** Cached trie nodes and the references between them. */
module TrieNodes {
  import opened Types
  import opened Sums

  /** The empty hash: key of the meta-root, and end marker of the flush-list. */
  const ROOT: Hash
  const HASH_LENGTH: nat := 32

  type Blob = seq<int>

  /** `parents` counts live references to the node, `children` the references it records. */
  datatype Node = Node(blob: Blob, parents: int, children: map<Hash, int>)

  type Nodes = map<Hash, Node>
  type Rank = Hash -> nat

  // ---- reference counts ----

  function CountIn(n: Node, c: Hash): int {
    if c in n.children then n.children[c] else 0
  }

  ghost function Count(nodes: Nodes, c: Hash): Hash -> int {
    (h: Hash) => if h in nodes then CountIn(nodes[h], c) else 0
  }

  /** How many references to `c` the cached nodes record. */
  ghost function Refs(nodes: Nodes, c: Hash): int {
    Sum(nodes.Keys, Count(nodes, c))
  }

  lemma RefsUpdate(nodes: Nodes, h: Hash, n: Node, c: Hash)
    requires h in nodes
    ensures Refs(nodes[h := n], c) == Refs(nodes, c) - CountIn(nodes[h], c) + CountIn(n, c)
  {
    var nodes' := nodes[h := n];
    assert nodes'.Keys == nodes.Keys;
    SumRemove(nodes.Keys, Count(nodes, c), h);
    SumRemove(nodes.Keys, Count(nodes', c), h);
    SumEq(nodes.Keys - {h}, Count(nodes, c), Count(nodes', c));
  }

  lemma RefsInsert(nodes: Nodes, h: Hash, n: Node, c: Hash)
    requires h !in nodes
    ensures Refs(nodes[h := n], c) == Refs(nodes, c) + CountIn(n, c)
  {
    var nodes' := nodes[h := n];
    assert nodes'.Keys == nodes.Keys + {h};
    SumAdd(nodes.Keys, Count(nodes', c), h);
    SumEq(nodes.Keys, Count(nodes, c), Count(nodes', c));
  }

  lemma RefsDelete(nodes: Nodes, h: Hash, c: Hash)
    requires h in nodes
    ensures Refs(nodes - {h}, c) == Refs(nodes, c) - CountIn(nodes[h], c)
  {
    assert (nodes - {h}).Keys == nodes.Keys - {h};
    SumRemove(nodes.Keys, Count(nodes, c), h);
    SumEq(nodes.Keys - {h}, Count(nodes, c), Count(nodes - {h}, c));
  }

  // ---- shape ----

  /** One recorded reference: positive, single unless it comes from the meta-root, and downward. */
  ghost predicate EdgeOk(n: Node, h: Hash, c: Hash, rank: Rank) {
    c in n.children ==>
      && c != ROOT && n.children[c] >= 1
      && (h != ROOT ==> n.children[c] == 1 && rank(c) < rank(h))
  }

  ghost predicate Acyclic(nodes: Nodes, rank: Rank) {
    forall h, c {:trigger EdgeOk(nodes[h], h, c, rank)} :: h in nodes ==> EdgeOk(nodes[h], h, c, rank)
  }

  lemma RefsNatural(nodes: Nodes, rank: Rank, c: Hash)
    requires Acyclic(nodes, rank)
    ensures Refs(nodes, c) >= 0
  {
    forall k | k in nodes.Keys ensures Count(nodes, c)(k) >= 0 {
      assert EdgeOk(nodes[k], k, c, rank);
    }
    SumNonneg(nodes.Keys, Count(nodes, c));
  }

  lemma RefsPositive(nodes: Nodes, rank: Rank, h: Hash, c: Hash)
    requires Acyclic(nodes, rank) && h in nodes && c in nodes[h].children
    ensures Refs(nodes, c) >= 1
  {
    forall k | k in nodes.Keys ensures Count(nodes, c)(k) >= 0 {
      assert EdgeOk(nodes[k], k, c, rank);
    }
    assert EdgeOk(nodes[h], h, c, rank);
    SumMember(nodes.Keys, Count(nodes, c), h);
  }

  /** A positive count names a node that records the reference. */
  lemma Referrer(nodes: Nodes, c: Hash) returns (h: Hash)
    requires Refs(nodes, c) >= 1
    ensures h in nodes && c in nodes[h].children
  {
    if forall k :: k in nodes ==> c !in nodes[k].children {
      ZeroRefs(nodes, nodes.Keys, c);
    }
    h :| h in nodes && c in nodes[h].children;
  }

  lemma {:induction false} ZeroRefs(nodes: Nodes, s: set<Hash>, c: Hash)
    requires forall k :: k in nodes ==> c !in nodes[k].children
    ensures Sum(s, Count(nodes, c)) == 0
    decreases |s|
  {
    if s != {} {
      ZeroRefs(nodes, s - {Pick(s)}, c);
    }
  }

  // ---- safety ----

  ghost predicate ChildSafe(nodes: Nodes, disk: map<Hash, Blob>, h: Hash, c: Hash) {
    h in nodes && c in nodes[h].children ==> c in nodes || c in disk
  }

  ghost predicate CountSafe(nodes: Nodes, disk: map<Hash, Blob>, c: Hash) {
    c in nodes && c != ROOT && nodes[c].parents < Refs(nodes, c) ==> c in disk
  }

  /**
   * No recorded child is lost: it is cached or on disk. What makes this inductive is that a node
   * whose count falls short of its true references is on disk already.
   */
  ghost predicate Safe(nodes: Nodes, disk: map<Hash, Blob>) {
    && (forall h, c {:trigger ChildSafe(nodes, disk, h, c)} :: ChildSafe(nodes, disk, h, c))
    && (forall c {:trigger CountSafe(nodes, disk, c)} :: CountSafe(nodes, disk, c))
  }

  // ---- exact counting ----

  ghost predicate ExactAt(nodes: Nodes, c: Hash) {
    c in nodes && c != ROOT ==> nodes[c].parents == Refs(nodes, c)
  }

  ghost predicate ChildCached(nodes: Nodes, h: Hash, c: Hash) {
    h in nodes && c in nodes[h].children ==> c in nodes
  }

  /** Counts equal true references, and every recorded child is cached. */
  ghost predicate Exact(nodes: Nodes) {
    && (forall c {:trigger ExactAt(nodes, c)} :: ExactAt(nodes, c))
    && (forall h, c {:trigger ChildCached(nodes, h, c)} :: ChildCached(nodes, h, c))
  }

  /** A node that is not referenced yet, or is about to be deleted. */
  ghost predicate Idle(nodes: Nodes, h: Hash) {
    h in nodes && h != ROOT && nodes[h].parents == 0
  }

  ghost predicate SameIdle(a: Nodes, b: Nodes) {
    forall h {:trigger Idle(a, h)} {:trigger Idle(b, h)} :: Idle(a, h) <==> Idle(b, h)
  }

  // ---- dropping one reference ----

  function LessOne(m: map<Hash, int>, c: Hash): map<Hash, int>
    requires c in m
  {
    if m[c] == 1 then m - {c} else m[c := m[c] - 1]
  }

  function DropEdge(nodes: Nodes, parent: Hash, child: Hash): Nodes
    requires parent in nodes && child in nodes[parent].children
  {
    nodes[parent := nodes[parent].(children := LessOne(nodes[parent].children, child))]
  }

  /** The first half of dereference: the edge loses one reference, and so does the child's count. */
  function Drop(nodes: Nodes, parent: Hash, child: Hash): Nodes
    requires parent in nodes && child in nodes[parent].children
  {
    var nodes1 := DropEdge(nodes, parent, child);
    if child in nodes1 then nodes1[child := nodes1[child].(parents := nodes1[child].parents - 1)] else nodes1
  }

  lemma DropRefs(nodes: Nodes, parent: Hash, child: Hash, c: Hash)
    requires parent in nodes && child in nodes[parent].children
    ensures Refs(Drop(nodes, parent, child), c) == Refs(nodes, c) - if c == child then 1 else 0
  {
    hide Refs;
    var nodes1 := DropEdge(nodes, parent, child);
    RefsUpdate(nodes, parent, nodes1[parent], c);
    if child in nodes1 {
      RefsUpdate(nodes1, child, nodes1[child].(parents := nodes1[child].parents - 1), c);
    }
  }

  lemma DropAcyclic(nodes: Nodes, parent: Hash, child: Hash, rank: Rank)
    requires Acyclic(nodes, rank) && parent in nodes && child in nodes[parent].children
    ensures Acyclic(Drop(nodes, parent, child), rank)
  {
    var nodes' := Drop(nodes, parent, child);
    forall h, c | h in nodes' ensures EdgeOk(nodes'[h], h, c, rank) {
      assert EdgeOk(nodes[h], h, c, rank);
    }
  }

  lemma DropSafe(nodes: Nodes, parent: Hash, child: Hash, disk: map<Hash, Blob>)
    requires Safe(nodes, disk) && parent in nodes && child in nodes[parent].children
    ensures Safe(Drop(nodes, parent, child), disk)
  {
    var nodes' := Drop(nodes, parent, child);
    forall h, c ensures ChildSafe(nodes', disk, h, c) {
      assert ChildSafe(nodes, disk, h, c);
    }
    forall c ensures CountSafe(nodes', disk, c) {
      assert CountSafe(nodes, disk, c);
      DropRefs(nodes, parent, child, c);
    }
  }

  lemma DropExact(nodes: Nodes, parent: Hash, child: Hash)
    requires Exact(nodes) && parent in nodes && child in nodes[parent].children
    ensures Exact(Drop(nodes, parent, child))
  {
    var nodes' := Drop(nodes, parent, child);
    forall h, c ensures ChildCached(nodes', h, c) {
      assert ChildCached(nodes, h, c);
    }
    forall c ensures ExactAt(nodes', c) {
      assert ExactAt(nodes, c);
      assert ChildCached(nodes, parent, child);
      DropRefs(nodes, parent, child, c);
    }
  }

  // ---- deleting a node ----

  lemma DeleteAcyclic(nodes: Nodes, h: Hash, rank: Rank)
    requires Acyclic(nodes, rank)
    ensures Acyclic(nodes - {h}, rank)
  {
    forall k, c | k in nodes - {h} ensures EdgeOk((nodes - {h})[k], k, c, rank) {
      assert EdgeOk(nodes[k], k, c, rank);
    }
  }

  /** Deleting is safe when the count is zero or the node is on disk, whatever it still records. */
  lemma DeleteSafe(nodes: Nodes, h: Hash, rank: Rank, disk: map<Hash, Blob>)
    requires Safe(nodes, disk) && Acyclic(nodes, rank) && h in nodes && h != ROOT
    requires nodes[h].parents == 0 || h in disk
    ensures Safe(nodes - {h}, disk)
  {
    var nodes' := nodes - {h};
    forall k, c ensures ChildSafe(nodes', disk, k, c) {
      assert ChildSafe(nodes, disk, k, c);
      if k in nodes' && c in nodes'[k].children && c == h {
        RefsPositive(nodes, rank, k, h);
        assert CountSafe(nodes, disk, h);
      }
    }
    forall c ensures CountSafe(nodes', disk, c) {
      assert CountSafe(nodes, disk, c);
      RefsDelete(nodes, h, c);
      assert EdgeOk(nodes[h], h, c, rank);
    }
  }

  lemma DeleteExact(nodes: Nodes, h: Hash, rank: Rank)
    requires Exact(nodes) && Acyclic(nodes, rank) && h in nodes && h != ROOT
    requires nodes[h].parents == 0 && nodes[h].children == map[]
    ensures Exact(nodes - {h})
  {
    var nodes' := nodes - {h};
    forall k, c | k in nodes' && c in nodes'[k].children ensures ChildCached(nodes', k, c) {
      assert ChildCached(nodes, k, c);
      RefsPositive(nodes, rank, k, c);
      assert ExactAt(nodes, c);
    }
    forall c ensures ExactAt(nodes', c) {
      assert ExactAt(nodes, c);
      RefsDelete(nodes, h, c);
    }
  }

  // ---- sizes ----

  ghost function NodeSize(nodes: Nodes): Hash -> int {
    (h: Hash) => if h in nodes then HASH_LENGTH + |nodes[h].blob| else 0
  }

  /** The storage the cached nodes take, the meta-root excluded. */
  ghost function Weight(nodes: Nodes): int {
    Sum(nodes.Keys - {ROOT}, NodeSize(nodes))
  }

  lemma WeightInsert(nodes: Nodes, h: Hash, n: Node)
    requires h !in nodes && h != ROOT
    ensures Weight(nodes[h := n]) == Weight(nodes) + HASH_LENGTH + |n.blob|
  {
    var nodes', rest := nodes[h := n], nodes.Keys - {ROOT};
    assert nodes'.Keys - {ROOT} == rest + {h};
    SumAdd(rest, NodeSize(nodes'), h);
    SumEq(rest, NodeSize(nodes), NodeSize(nodes'));
  }

  lemma WeightDelete(nodes: Nodes, h: Hash)
    requires h in nodes && h != ROOT
    ensures Weight(nodes - {h}) == Weight(nodes) - HASH_LENGTH - |nodes[h].blob|
  {
    var nodes', rest := nodes - {h}, nodes.Keys - {ROOT};
    assert nodes'.Keys - {ROOT} == rest - {h};
    SumRemove(rest, NodeSize(nodes), h);
    SumEq(rest - {h}, NodeSize(nodes), NodeSize(nodes'));
  }

  ghost predicate SameBlobs(a: Nodes, b: Nodes) {
    a.Keys == b.Keys && forall h :: h in a ==> b[h].blob == a[h].blob
  }

  lemma WeightSame(a: Nodes, b: Nodes)
    requires SameBlobs(a, b)
    ensures Weight(a) == Weight(b)
  {
    SumEq(a.Keys - {ROOT}, NodeSize(a), NodeSize(b));
  }
}
