/** The write cache as a value: its shape, and what each operation makes of it. */
module TrieCache {
  import opened Types
  import opened TrieNodes
  import opened FlushLists

  /** `n` is as before; below `level` its count may have fallen, or it may be gone. */
  ghost predicate KeptAt(a: Nodes, b: Nodes, rank: Rank, level: nat, parent: Hash, n: Hash) {
    && (n in b ==> n in a && b[n].blob == a[n].blob && (n != parent ==> b[n].children == a[n].children))
    && (n in a && (n == ROOT || rank(n) >= level) ==> n in b && b[n].parents == a[n].parents)
  }

  /** What a cascade below `level` leaves alone. */
  ghost predicate Kept(a: Nodes, b: Nodes, rank: Rank, level: nat, parent: Hash) {
    forall n {:trigger KeptAt(a, b, rank, level, parent, n)} :: KeptAt(a, b, rank, level, parent, n)
  }

  /** Everything the cache holds in memory; `list` is the flush-list the links thread. */
  datatype Cache = Cache(nodes: Nodes, links: Links, oldest: Hash, newest: Hash, size: int, list: seq<Hash>)

  ghost predicate ListOk(c: Cache, listed: set<Hash>) {
    && Lists(c.list, listed)
    && Chain(c.links, c.list) && c.oldest == Head(c.list)
    && (c.list != [] ==> c.newest != ROOT && (c.newest in c.list ==> c.newest == c.list[|c.list| - 1]))
  }

  /** Well-formed but for the nodes in `dying`, which are off the flush-list and about to go. */
  ghost predicate Shape(c: Cache, dying: set<Hash>, rank: Rank) {
    && ROOT in c.nodes && ROOT !in dying && dying <= c.nodes.Keys
    && c.links.Keys == c.nodes.Keys
    && ListOk(c, c.nodes.Keys - {ROOT} - dying)
    && Acyclic(c.nodes, rank)
    && c.size == Weight(c.nodes)
  }

  function IndexOf(list: seq<Hash>, h: Hash): (k: nat)
    requires h in list
    ensures k < |list| && list[k] == h
  {
    if list[0] == h then 0 else 1 + IndexOf(list[1..], h)
  }

  // ---- the flush-list ----

  function Unlinked(c: Cache, h: Hash): Cache
    requires h in c.list && h in c.links
    requires h != c.oldest ==> c.links[h].prev in c.links && c.links[h].next in c.links
  {
    var list := Cut(c.list, IndexOf(c.list, h));
    if h == c.oldest then c.(oldest := c.links[h].next, list := list)
    else c.(links := Bypass(c.links, h), list := list)
  }

  lemma CanUnlink(c: Cache, dying: set<Hash>, rank: Rank, h: Hash)
    requires Shape(c, dying, rank) && h in c.nodes && h != ROOT && h !in dying
    ensures h in c.list && h in c.links
    ensures h != c.oldest ==> c.links[h].prev in c.links && c.links[h].next in c.links
  {
    assert h in Elems(c.list);
    var k := IndexOf(c.list, h);
    if h != c.oldest {
      CutLater(c.links, c.list, k);
    }
  }

  lemma UnlinkShape(c: Cache, dying: set<Hash>, rank: Rank, h: Hash)
    requires Shape(c, dying, rank) && h in c.nodes && h != ROOT && h !in dying
    requires h in c.list && h in c.links && (h != c.oldest ==> c.links[h].prev in c.links && c.links[h].next in c.links)
    ensures Shape(Unlinked(c, h), dying + {h}, rank)
  {
    var k := IndexOf(c.list, h);
    CutElems(c.list, k, c.nodes.Keys - {ROOT} - dying);
    assert c.nodes.Keys - {ROOT} - dying - {h} == c.nodes.Keys - {ROOT} - (dying + {h});
    CutNewest(c.list, k, c.newest);
    if h == c.oldest {
      CutOldest(c.links, c.list);
    } else {
      CutLater(c.links, c.list, k);
    }
  }

  lemma CutNewest(list: seq<Hash>, k: int, newest: Hash)
    requires NoDup(list) && 0 <= k < |list| && (newest in list ==> newest == list[|list| - 1])
    ensures newest in Cut(list, k) ==> newest == Cut(list, k)[|Cut(list, k)| - 1]
  {
    var r := Cut(list, k);
    if newest in r {
      var i :| 0 <= i < |r| && r[i] == newest;
      assert list[if i < k then i else i + 1] == newest;
    }
  }

  function Forgotten(c: Cache, h: Hash): Cache
    requires h in c.nodes
  {
    c.(nodes := c.nodes - {h}, links := c.links - {h}, size := c.size - (HASH_LENGTH + |c.nodes[h].blob|))
  }

  lemma ForgetShape(c: Cache, dying: set<Hash>, rank: Rank, h: Hash)
    requires Shape(c, dying + {h}, rank) && h !in dying && h in c.nodes
    ensures Shape(Forgotten(c, h), dying, rank)
  {
    WeightDelete(c.nodes, h);
    DeleteAcyclic(c.nodes, h, rank);
    assert h !in Elems(c.list);
    DeleteUnlinked(c.links, c.list, h);
    assert (c.nodes - {h}).Keys - {ROOT} - dying == c.nodes.Keys - {ROOT} - (dying + {h});
  }

  /** Replacing the nodes by others of the same keys and blobs touches neither list nor size. */
  lemma RenodeShape(c: Cache, dying: set<Hash>, rank: Rank, nodes: Nodes)
    requires Shape(c, dying, rank) && SameBlobs(c.nodes, nodes) && Acyclic(nodes, rank)
    ensures Shape(c.(nodes := nodes), dying, rank)
  {
    WeightSame(c.nodes, nodes);
  }

  // ---- inserting ----

  ghost predicate CanInsert(c: Cache) {
    c.oldest == ROOT || c.newest in c.nodes
  }

  function Inserted(c: Cache, h: Hash, blob: Blob): Cache
    requires c.oldest == ROOT || c.newest in c.links
  {
    Cache(
      c.nodes[h := Node(blob, 0, map[])],
      if c.oldest == ROOT then c.links[h := Link(c.newest, ROOT)] else Appended(c.links, c.newest, h),
      if c.oldest == ROOT then h else c.oldest,
      h,
      c.size + HASH_LENGTH + |blob|,
      c.list + [h])
  }

  lemma InsertList(c: Cache, h: Hash, blob: Blob, listed: set<Hash>)
    requires ListOk(c, listed) && h !in listed && h != ROOT && h !in c.links
    requires c.oldest == ROOT || (c.newest in listed && c.newest in c.links)
    ensures ListOk(Inserted(c, h, blob), listed + {h})
  {
    assert forall i :: 0 <= i < |c.list| ==> c.list[i] in Elems(c.list);
    assert c.list != [] ==> LinkAt(c.links, c.list, 0);
    if c.oldest == ROOT {
      AppendFirst(c.links, c.newest, h);
    } else {
      assert c.newest in Elems(c.list);
      AppendLater(c.links, c.list, h);
    }
    assert Elems(c.list + [h]) == Elems(c.list) + {h};
  }

  lemma NewestListed(c: Cache, listed: set<Hash>)
    requires ListOk(c, listed)
    ensures c.oldest == ROOT || c.newest != ROOT
  {
  }

  lemma InsertShape(c: Cache, rank: Rank, h: Hash, blob: Blob)
    requires Shape(c, {}, rank) && h !in c.nodes && CanInsert(c)
    ensures Shape(Inserted(c, h, blob), {}, rank)
  {
    hide ListOk, Weight, Chain, Lists;
    NewestListed(c, c.nodes.Keys - {ROOT} - {});
    InsertList(c, h, blob, c.nodes.Keys - {ROOT} - {});
    assert Inserted(c, h, blob).nodes.Keys - {ROOT} - {} == (c.nodes.Keys - {ROOT} - {}) + {h};
    WeightInsert(c.nodes, h, Node(blob, 0, map[]));
    var nodes' := c.nodes[h := Node(blob, 0, map[])];
    forall k, x | k in nodes' ensures EdgeOk(nodes'[k], k, x, rank) {
      assert k in c.nodes ==> EdgeOk(c.nodes[k], k, x, rank);
    }
    assert Inserted(c, h, blob).links.Keys == c.links.Keys + {h};
  }

  /**
   * No operation moves `newest` back. Deleting a node leaves the next insert possible exactly when
   * the node was not the newest one, or was the only one.
   */
  lemma GuardAfterDelete(c: Cache, rank: Rank, h: Hash)
    requires Shape(c, {}, rank) && CanInsert(c) && h in c.nodes && h != ROOT
    ensures h in c.list && h in c.links && (h != c.oldest ==> c.links[h].prev in c.links && c.links[h].next in c.links)
    ensures CanInsert(Forgotten(Unlinked(c, h), h)) <==> h != c.newest || c.list == [h]
  {
    CanUnlink(c, {}, rank, h);
    UnlinkShape(c, {}, rank, h);
    var d := Unlinked(c, h);
    assert h in Elems(c.list);
    assert d.oldest == ROOT <==> d.list == [] by {
      assert d.list != [] ==> LinkAt(d.links, d.list, 0);
    }
    assert |d.list| == |c.list| - 1;
  }

  /** An insert is possible exactly while the newest node is cached, or nothing is. */
  lemma GuardIs(c: Cache, rank: Rank)
    requires Shape(c, {}, rank)
    ensures CanInsert(c) <==> c.newest in c.nodes || c.nodes.Keys == {ROOT}
  {
    assert c.list != [] ==> LinkAt(c.links, c.list, 0);
    assert c.nodes.Keys == {ROOT} <==> Elems(c.list) == {};
    if c.list != [] {
      assert c.list[0] in Elems(c.list);
    }
  }

  // ---- dereferencing ----

  /** What a cascade keeps: shape, safety, and exact counts, with the same unreferenced nodes. */
  ghost predicate Cascaded(a: Cache, b: Cache, dying: set<Hash>, rank: Rank, disk: map<Hash, Blob>, level: nat,
      parent: Hash)
  {
    && Shape(b, dying, rank) && b.newest == a.newest
    && Kept(a.nodes, b.nodes, rank, level, parent)
    && (Safe(a.nodes, disk) ==> Safe(b.nodes, disk))
    && (Exact(a.nodes) ==> Exact(b.nodes) && SameIdle(a.nodes, b.nodes))
  }

  lemma CascadedStart(a: Cache, dying: set<Hash>, rank: Rank, disk: map<Hash, Blob>, level: nat, parent: Hash)
    requires Shape(a, dying, rank)
    ensures Cascaded(a, a, dying, rank, disk, level, parent)
  {
  }

  lemma CascadedAfter(a: Cache, b: Cache, c: Cache, dying: set<Hash>, rank: Rank, disk: map<Hash, Blob>, level: nat,
      level': nat, parent: Hash)
    requires Cascaded(a, b, dying, rank, disk, level, parent) && Cascaded(b, c, dying, rank, disk, level', parent)
    requires level' <= level && parent in b.nodes && parent != ROOT && rank(parent) >= level
    ensures Cascaded(a, c, dying, rank, disk, level, parent)
    ensures parent in c.nodes && c.nodes[parent].parents == b.nodes[parent].parents
  {
    KeptAfter(a.nodes, b.nodes, c.nodes, rank, level, level', parent);
    assert KeptAt(b.nodes, c.nodes, rank, level', parent, parent);
  }

  /** The cache after the edge and the count have dropped by one. */
  function Dropped(c: Cache, parent: Hash, child: Hash): Cache
    requires parent in c.nodes && child in c.nodes[parent].children
  {
    c.(nodes := Drop(c.nodes, parent, child))
  }

  /** A child that keeps a reference, or is not cached, ends the cascade at once. */
  lemma DropEnds(c: Cache, parent: Hash, child: Hash, dying: set<Hash>, rank: Rank, disk: map<Hash, Blob>)
    requires Shape(c, dying, rank) && parent in c.nodes && child in c.nodes[parent].children
    requires child !in c.nodes || Drop(c.nodes, parent, child)[child].parents != 0
    ensures Cascaded(c, Dropped(c, parent, child), dying, rank, disk, rank(child) + 1, parent)
    ensures Drop(c.nodes, parent, child)[parent].children == LessOne(c.nodes[parent].children, child)
  {
    DropKeeps(c.nodes, parent, child, rank, disk);
    RenodeShape(c, dying, rank, Drop(c.nodes, parent, child));
    EdgeDown(c.nodes, parent, child, rank);
  }

  /** A child that lost its last reference can be taken off the flush-list. */
  lemma DropUnlinks(c: Cache, parent: Hash, child: Hash, dying: set<Hash>, rank: Rank)
    requires Shape(c, dying, rank) && parent in c.nodes && child in c.nodes[parent].children
    requires child in c.nodes && child !in dying
    ensures var d := Dropped(c, parent, child);
      && child != ROOT && child in d.list && child in d.links
      && (child != d.oldest ==> d.links[child].prev in d.links && d.links[child].next in d.links)
      && Shape(Unlinked(d, child), dying + {child}, rank)
  {
    DropKeeps(c.nodes, parent, child, rank, map[]);
    RenodeShape(c, dying, rank, Drop(c.nodes, parent, child));
    EdgeDown(c.nodes, parent, child, rank);
    CanUnlink(Dropped(c, parent, child), dying, rank, child);
    UnlinkShape(Dropped(c, parent, child), dying, rank, child);
  }

  /** Deleting the child once it has dropped its own references completes the cascade. */
  lemma ForgetCascades(c: Cache, parent: Hash, child: Hash, u: Cache, d: Cache, dying: set<Hash>, rank: Rank,
      disk: map<Hash, Blob>)
    requires Shape(c, dying, rank) && parent in c.nodes && child in c.nodes[parent].children
    requires child in c.nodes && child !in dying && Drop(c.nodes, parent, child)[child].parents == 0
    requires u.nodes == Drop(c.nodes, parent, child) && u.newest == c.newest
    requires Cascaded(u, d, dying + {child}, rank, disk, rank(child), child)
    requires child in d.nodes && d.nodes[child].children == map[] && d.nodes[child].parents == 0
    ensures Cascaded(c, Forgotten(d, child), dying, rank, disk, rank(child) + 1, parent)
    ensures parent in Forgotten(d, child).nodes
    ensures Forgotten(d, child).nodes[parent].children == LessOne(c.nodes[parent].children, child)
  {
    hide ListOk, Weight, Acyclic, Safe, Exact, Kept, SameIdle, IdleGrows, Idle;
    var nodes1 := Drop(c.nodes, parent, child);
    DropKeeps(c.nodes, parent, child, rank, disk);
    EdgeDown(c.nodes, parent, child, rank);
    CascadeKept(c.nodes, nodes1, d.nodes, rank, child, parent);
    ForgetKeeps(d.nodes, child, rank, disk);
    ForgetShape(d, dying, rank, child);
    if Exact(c.nodes) {
      IdleBack(c.nodes, parent, child, d.nodes);
    }
  }

  lemma IdleBack(nodes: Nodes, parent: Hash, child: Hash, d: Nodes)
    requires parent in nodes && child in nodes[parent].children && child in nodes && IdleGrows(nodes, parent, child)
    requires Drop(nodes, parent, child)[child].parents == 0 && SameIdle(Drop(nodes, parent, child), d)
    ensures SameIdle(nodes, d - {child})
  {
    hide Drop;
    forall h ensures Idle(nodes, h) <==> Idle(d - {child}, h) {
      assert Idle(d - {child}, h) <==> Idle(d, h) && h != child;
    }
  }

  lemma CascadedEdge(c: Cache, d: Cache, dying: set<Hash>, rank: Rank, disk: map<Hash, Blob>, level: nat, parent: Hash,
      child: Hash)
    requires Cascaded(c, d, dying, rank, disk, level, parent) && parent in d.nodes && child in d.nodes[parent].children
    requires parent != ROOT
    ensures Shape(d, dying, rank) && rank(child) < rank(parent)
    ensures LessOne(d.nodes[parent].children, child).Keys == d.nodes[parent].children.Keys - {child}
  {
    EdgeDown(d.nodes, parent, child, rank);
  }

  lemma ParentIsOther(c: Cache, rank: Rank, parent: Hash, child: Hash)
    requires Shape(c, {}, rank) && parent in c.nodes && child in c.nodes[parent].children
    ensures child != parent
  {
    EdgeDown(c.nodes, parent, child, rank);
  }

  lemma EdgeDown(nodes: Nodes, parent: Hash, child: Hash, rank: Rank)
    requires Acyclic(nodes, rank) && parent in nodes && child in nodes[parent].children
    ensures child != ROOT && (parent != ROOT ==> rank(child) < rank(parent) && nodes[parent].children[child] == 1)
  {
    assert EdgeOk(nodes[parent], parent, child, rank);
  }

  lemma EmptyCache(nodes: Nodes, disk: map<Hash, Blob>, rank: Rank)
    requires nodes == map[ROOT := Node([], 0, map[])]
    ensures Acyclic(nodes, rank) && Safe(nodes, disk) && Exact(nodes) && Weight(nodes) == 0
  {
    assert nodes.Keys - {ROOT} == {};
  }

  lemma InsertKeeps(c: Cache, rank: Rank, disk: map<Hash, Blob>, h: Hash, blob: Blob)
    requires Shape(c, {}, rank) && Safe(c.nodes, disk) && CanInsert(c) && h !in c.nodes
    ensures c.oldest == ROOT || c.newest in c.links
    ensures Shape(Inserted(c, h, blob), {}, rank) && Safe(Inserted(c, h, blob).nodes, disk)
    ensures Exact(c.nodes) ==> Exact(Inserted(c, h, blob).nodes)
  {
    InsertShape(c, rank, h, blob);
    InsertSafe(c.nodes, h, blob, disk);
    if Exact(c.nodes) {
      InsertExact(c.nodes, h, blob);
    }
  }

  /** A node that comes back after a flush starts with too low a count, but then it is on disk. */
  lemma InsertSafe(nodes: Nodes, h: Hash, blob: Blob, disk: map<Hash, Blob>)
    requires Safe(nodes, disk) && h !in nodes
    ensures Safe(nodes[h := Node(blob, 0, map[])], disk)
  {
    var nodes' := nodes[h := Node(blob, 0, map[])];
    forall k, c ensures ChildSafe(nodes', disk, k, c) {
      assert ChildSafe(nodes, disk, k, c);
    }
    forall c ensures CountSafe(nodes', disk, c) {
      assert CountSafe(nodes, disk, c);
      RefsInsert(nodes, h, nodes'[h], c);
      if c == h && Refs(nodes, h) >= 1 {
        var k := Referrer(nodes, h);
        assert ChildSafe(nodes, disk, k, h);
      }
    }
  }

  lemma InsertExact(nodes: Nodes, h: Hash, blob: Blob)
    requires Exact(nodes) && h !in nodes
    ensures Exact(nodes[h := Node(blob, 0, map[])])
  {
    var nodes' := nodes[h := Node(blob, 0, map[])];
    forall k, c ensures ChildCached(nodes', k, c) {
      assert ChildCached(nodes, k, c);
    }
    forall c ensures ExactAt(nodes', c) {
      assert ExactAt(nodes, c);
      RefsInsert(nodes, h, nodes'[h], c);
      if c == h {
        forall k | k in nodes ensures h !in nodes[k].children {
          assert ChildCached(nodes, k, h);
        }
        ZeroRefs(nodes, nodes.Keys, h);
      }
    }
  }

  function Referenced(nodes: Nodes, child: Hash, parent: Hash): Nodes
    requires child in nodes && parent in nodes
  {
    var nodes1 := nodes[child := nodes[child].(parents := nodes[child].parents + 1)];
    var n := nodes1[parent];
    nodes1[parent := n.(children := n.children[child := CountIn(n, child) + 1])]
  }

  lemma ReferencedRefs(nodes: Nodes, child: Hash, parent: Hash, c: Hash)
    requires child in nodes && parent in nodes
    ensures Refs(Referenced(nodes, child, parent), c) == Refs(nodes, c) + if c == child then 1 else 0
  {
    var nodes1 := nodes[child := nodes[child].(parents := nodes[child].parents + 1)];
    RefsUpdate(nodes, child, nodes1[child], c);
    RefsUpdate(nodes1, parent, Referenced(nodes, child, parent)[parent], c);
  }

  lemma ReferenceKeeps(c: Cache, rank: Rank, disk: map<Hash, Blob>, child: Hash, parent: Hash)
    requires Shape(c, {}, rank) && Safe(c.nodes, disk) && child in c.nodes && parent in c.nodes && child != ROOT
    requires parent != ROOT ==> rank(child) < rank(parent) && child !in c.nodes[parent].children
    ensures Shape(c.(nodes := Referenced(c.nodes, child, parent)), {}, rank)
    ensures Safe(Referenced(c.nodes, child, parent), disk)
    ensures Exact(c.nodes) ==> Exact(Referenced(c.nodes, child, parent))
  {
    var nodes, nodes' := c.nodes, Referenced(c.nodes, child, parent);
    forall k, x | k in nodes' ensures EdgeOk(nodes'[k], k, x, rank) {
      assert EdgeOk(nodes[k], k, x, rank);
    }
    RenodeShape(c, {}, rank, nodes');
    ReferenceSafe(nodes, child, parent, disk);
    if Exact(nodes) {
      ReferenceExact(nodes, child, parent);
    }
  }

  lemma ReferenceSafe(nodes: Nodes, child: Hash, parent: Hash, disk: map<Hash, Blob>)
    requires Safe(nodes, disk) && child in nodes && parent in nodes
    ensures Safe(Referenced(nodes, child, parent), disk)
  {
    var nodes' := Referenced(nodes, child, parent);
    forall k, c ensures ChildSafe(nodes', disk, k, c) {
      assert ChildSafe(nodes, disk, k, c);
    }
    forall c ensures CountSafe(nodes', disk, c) {
      assert CountSafe(nodes, disk, c);
      ReferencedRefs(nodes, child, parent, c);
    }
  }

  lemma ReferenceExact(nodes: Nodes, child: Hash, parent: Hash)
    requires Exact(nodes) && child in nodes && parent in nodes
    ensures Exact(Referenced(nodes, child, parent))
  {
    var nodes' := Referenced(nodes, child, parent);
    forall k, c ensures ChildCached(nodes', k, c) {
      assert ChildCached(nodes, k, c);
    }
    forall c ensures ExactAt(nodes', c) {
      assert ExactAt(nodes, c);
      ReferencedRefs(nodes, child, parent, c);
    }
  }

  // ---- what dereferencing keeps ----

  lemma DropKeeps(nodes: Nodes, parent: Hash, child: Hash, rank: Rank, disk: map<Hash, Blob>)
    requires Acyclic(nodes, rank) && parent in nodes && child in nodes[parent].children
    ensures Acyclic(Drop(nodes, parent, child), rank)
    ensures SameBlobs(nodes, Drop(nodes, parent, child))
    ensures Kept(nodes, Drop(nodes, parent, child), rank, rank(child) + 1, parent)
    ensures Safe(nodes, disk) ==> Safe(Drop(nodes, parent, child), disk)
    ensures Exact(nodes) ==> Exact(Drop(nodes, parent, child)) && child in nodes && IdleGrows(nodes, parent, child)
  {
    var nodes' := Drop(nodes, parent, child);
    assert EdgeOk(nodes[parent], parent, child, rank);
    DropAcyclic(nodes, parent, child, rank);
    if Safe(nodes, disk) {
      DropSafe(nodes, parent, child, disk);
    }
    if Exact(nodes) {
      DropExact(nodes, parent, child);
      DropIdle(nodes, parent, child, rank);
    }
    var level := rank(child) + 1;
    assert forall n {:trigger KeptAt(nodes, nodes', rank, level, parent, n)} ::
      KeptAt(nodes, nodes', rank, level, parent, n);
  }

  /** Dropping a reference leaves at most the child unreferenced in addition. */
  ghost predicate IdleGrows(nodes: Nodes, parent: Hash, child: Hash)
    requires parent in nodes && child in nodes[parent].children && child in nodes
  {
    && !Idle(nodes, child)
    && forall h {:trigger Idle(nodes, h)} {:trigger Idle(Drop(nodes, parent, child), h)} ::
      Idle(Drop(nodes, parent, child), h) <==>
        Idle(nodes, h) || (h == child && Drop(nodes, parent, child)[child].parents == 0)
  }

  lemma DropIdle(nodes: Nodes, parent: Hash, child: Hash, rank: Rank)
    requires Acyclic(nodes, rank) && Exact(nodes) && parent in nodes && child in nodes[parent].children
    ensures child in nodes && IdleGrows(nodes, parent, child)
  {
    assert ChildCached(nodes, parent, child) && ExactAt(nodes, child) && EdgeOk(nodes[parent], parent, child, rank);
    RefsPositive(nodes, rank, parent, child);
  }

  lemma ForgetKeeps(nodes: Nodes, child: Hash, rank: Rank, disk: map<Hash, Blob>)
    requires Acyclic(nodes, rank) && child in nodes && child != ROOT
    requires nodes[child].parents == 0 && nodes[child].children == map[]
    ensures Safe(nodes, disk) ==> Safe(nodes - {child}, disk)
    ensures Exact(nodes) ==> Exact(nodes - {child})
    ensures forall h :: Idle(nodes - {child}, h) <==> Idle(nodes, h) && h != child
  {
    if Safe(nodes, disk) {
      DeleteSafe(nodes, child, rank, disk);
    }
    if Exact(nodes) {
      DeleteExact(nodes, child, rank);
    }
  }

  lemma KeptAfter(a: Nodes, b: Nodes, c: Nodes, rank: Rank, level: nat, level': nat, parent: Hash)
    requires Kept(a, b, rank, level, parent) && Kept(b, c, rank, level', parent) && level' <= level
    ensures Kept(a, c, rank, level, parent)
  {
    forall n ensures KeptAt(a, c, rank, level, parent, n) {
      assert KeptAt(a, b, rank, level, parent, n) && KeptAt(b, c, rank, level', parent, n);
    }
  }

  lemma CascadeKept(a: Nodes, b: Nodes, c: Nodes, rank: Rank, child: Hash, parent: Hash)
    requires Kept(a, b, rank, rank(child) + 1, parent) && Kept(b, c, rank, rank(child), child)
    requires child != ROOT && parent in a && (parent == ROOT || rank(parent) > rank(child))
    ensures Kept(a, c - {child}, rank, rank(child) + 1, parent)
    ensures parent in b && parent in c - {child} && (c - {child})[parent].children == b[parent].children
  {
    var level, d := rank(child) + 1, c - {child};
    forall n ensures KeptAt(a, d, rank, level, parent, n) {
      assert KeptAt(a, b, rank, rank(child) + 1, parent, n) && KeptAt(b, c, rank, rank(child), child, n);
    }
    assert KeptAt(a, b, rank, rank(child) + 1, parent, parent) && KeptAt(b, c, rank, rank(child), child, parent);
  }
}
