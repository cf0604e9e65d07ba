/** The write cache between tries and the disk: references, cascading collection, flushing, committing. */
module TrieDatabase {
  import opened Types
  import opened Graph
  import opened Stores
  import opened TrieNodes
  import opened TrieReach
  import opened FlushLists
  import opened TrieCache
  import opened TrieFlush

  /** What tries do to the cache between two flushes. */
  datatype Op =
    | Inserting(hash: Hash, blob: Blob)
    | Referencing(child: Hash, parent: Hash)
    | Dereferencing(child: Hash, parent: Hash)

  /** One operation led from `a` to `b`; an operation that is not possible changes nothing. */
  ghost predicate Performed(op: Op, a: Cache, b: Cache) {
    match op
    case Inserting(h, blob) =>
      if h in a.nodes || !CanInsert(a) then b == a
      else b.nodes == a.nodes[h := Node(blob, 0, map[])] && b.list == a.list + [h]
    case Referencing(c, p) =>
      && b.list == a.list
      && (if p in a.nodes && c in a.nodes && (p == ROOT || c !in a.nodes[p].children)
          then b.nodes == Referenced(a.nodes, c, p) else b.nodes == a.nodes)
    case Dereferencing(c, p) =>
      if p !in a.nodes || c !in a.nodes[p].children then b == a
      else b.nodes.Keys <= a.nodes.Keys && p in b.nodes && b.nodes[p].children == LessOne(a.nodes[p].children, c)
  }

  class Database {
    var nodes: Nodes
    var links: Links
    var oldest: Hash
    var newest: Hash
    var nodesSize: int
    var disk: map<Hash, Blob>
    ghost var list: seq<Hash>
    ghost const rank: Rank

    ghost function View(): Cache
      reads this
    {
      Cache(nodes, links, oldest, newest, nodesSize, list)
    }

    ghost predicate Valid()
      reads this
    {
      Shape(View(), {}, rank) && Safe(nodes, disk)
    }

    constructor (stored: map<Hash, Blob>, ghost r: Rank)
      ensures Valid() && CanInsert(View()) && disk == stored && rank == r && list == []
      ensures nodes == map[ROOT := Node([], 0, map[])] && Exact(nodes)
    {
      nodes, links := map[ROOT := Node([], 0, map[])], map[ROOT := Link(ROOT, ROOT)];
      oldest, newest, nodesSize, disk := ROOT, ROOT, 0, stored;
      list, rank := [], r;
      new;
      EmptyCache(nodes, disk, rank);
    }

    // ---- the flush-list ----

    /** Takes a node off the flush-list; `newest` is not looked at. */
    method Unlink(h: Hash)
      requires h in list && h in links && (h != oldest ==> links[h].prev in links && links[h].next in links)
      modifies this`links, this`oldest, this`list
      ensures View() == Unlinked(old(View()), h)
    {
      ghost var k := IndexOf(list, h);
      if h == oldest {
        oldest := links[h].next;
      } else {
        var prev, next := links[h].prev, links[h].next;
        links := links[prev := links[prev].(next := next)];
        links := links[next := links[next].(prev := prev)];
      }
      list := Cut(list, k);
    }

    /** Deletes a node that is off the flush-list. */
    method Forget(h: Hash)
      requires h in nodes
      modifies this`nodes, this`links, this`nodesSize
      ensures View() == Forgotten(old(View()), h)
    {
      nodesSize := nodesSize - (HASH_LENGTH + |nodes[h].blob|);
      nodes, links := nodes - {h}, links - {h};
    }

    // ---- references ----

    /** Adds a node of no references to the end of the flush-list; a cached hash is left alone. */
    method Insert(hash: Hash, blob: Blob)
      requires Valid() && CanInsert(View())
      modifies this`nodes, this`links, this`oldest, this`newest, this`nodesSize, this`list
      ensures Valid()
      ensures View() == if hash in old(nodes) then old(View()) else Inserted(old(View()), hash, blob)
      ensures hash !in old(nodes) ==>
        && nodes == old(nodes)[hash := Node(blob, 0, map[])] && nodesSize == old(nodesSize) + 32 + |blob|
        && list == old(list) + [hash] && newest == hash && Read(nodes, disk, hash) == Some(blob)
      ensures forall h :: h != hash || h in old(nodes) ==> Read(nodes, disk, h) == Read(old(nodes), disk, h)
      ensures Exact(old(nodes)) ==> Exact(nodes)
    {
      hide Shape, Safe, Exact;
      if hash in nodes {
        return;
      }
      InsertKeeps(View(), rank, disk, hash, blob);
      nodes := nodes[hash := Node(blob, 0, map[])];
      links := links[hash := Link(newest, ROOT)];
      if oldest == ROOT {
        oldest, newest := hash, hash;
      } else {
        links := links[newest := links[newest].(next := hash)];
        newest := hash;
      }
      nodesSize := nodesSize + HASH_LENGTH + |blob|;
      list := list + [hash];
    }

    /** Records one more reference; a child that is not cached, or recorded already, is left alone. */
    method Reference(child: Hash, parent: Hash)
      requires Valid() && parent in nodes && child != ROOT && (parent != ROOT ==> rank(child) < rank(parent))
      modifies this`nodes
      ensures Valid()
      ensures nodes == if child !in old(nodes) || (child in old(nodes)[parent].children && parent != ROOT)
        then old(nodes) else Referenced(old(nodes), child, parent)
      ensures nodes.Keys == old(nodes).Keys
      ensures forall h :: h in nodes && h != child && h != parent ==> nodes[h] == old(nodes)[h]
      ensures child in old(nodes) && (parent == ROOT || child !in old(nodes)[parent].children) ==>
        var n, m, count := old(nodes)[child], old(nodes)[parent], CountIn(old(nodes)[parent], child);
        && nodes[child] == Node(n.blob, n.parents + 1, n.children)
        && nodes[parent] == Node(m.blob, m.parents, m.children[child := count + 1])
      ensures Exact(old(nodes)) ==> Exact(nodes)
    {
      hide Shape, Safe, Exact;
      if child !in nodes {
        return;
      }
      if child in nodes[parent].children && parent != ROOT {
        return;
      }
      ReferenceKeeps(View(), rank, disk, child, parent);
      nodes := Referenced(nodes, child, parent);
    }

    /**
     * Drops a recorded reference. While counts are exact, what stays cached is exactly what the
     * meta-root, or a node that was not referenced anyway, still reaches without that reference.
     */
    method Dereference(child: Hash, parent: Hash)
      requires Valid() && parent in nodes && child in nodes[parent].children
      modifies this`nodes, this`links, this`oldest, this`nodesSize, this`list
      ensures Valid()
      ensures var m := old(nodes)[parent].children;
        parent in nodes && nodes[parent].children == if m[child] == 1 then m - {child} else m[child := m[child] - 1]
      ensures child in old(nodes) && old(nodes)[child].parents == 1 ==> child !in nodes
      ensures child in old(nodes) && old(nodes)[child].parents != 1 ==>
        nodes.Keys == old(nodes).Keys && nodes[child].parents == old(nodes)[child].parents - 1
      ensures forall h :: h in nodes ==> h in old(nodes) && nodes[h].blob == old(nodes)[h].blob
      ensures forall h :: h in nodes && h != parent ==> nodes[h].children == old(nodes)[h].children
      ensures CanInsert(View()) <==> newest in nodes || nodes.Keys == {ROOT}
      ensures Exact(old(nodes)) ==>
        && Exact(nodes) && SameIdle(old(nodes), nodes)
        && forall x :: x in nodes <==>
          x in old(nodes) && Anchored(old(nodes), Kids(DropEdge(old(nodes), parent, child)), x)
      ensures Exact(old(nodes)) && AllReached(old(nodes)) ==>
        && AllReached(nodes)
        && nodes.Keys == set x | x in old(nodes) && Reached(Kids(DropEdge(old(nodes), parent, child)), [ROOT], x)
    {
      hide Shape, Safe, Exact, Reached, Anchored, AllReached, SameIdle;
      ghost var c := View();
      DropReference(child, parent, {});
      CascadedValid(c, View(), rank, disk, rank(child) + 1, parent);
      ParentIsOther(c, rank, parent, child);
      GuardIs(View(), rank);
      if Exact(c.nodes) {
        CollectedExactly(c, View(), rank, disk, parent, child);
        if AllReached(c.nodes) {
          CollectedReached(c, View(), rank, disk, parent, child);
        }
      }
    }

    /** Drops a recorded reference; a node that loses its last one is deleted and drops its own. */
    method DropReference(child: Hash, parent: Hash, ghost dying: set<Hash>)
      requires Shape(View(), dying, rank) && parent in nodes && child in nodes[parent].children
      requires forall z :: z in dying ==> rank(z) > rank(child)
      modifies this`nodes, this`links, this`oldest, this`nodesSize, this`list
      ensures Cascaded(old(View()), View(), dying, rank, disk, rank(child) + 1, parent)
      ensures parent in nodes && nodes[parent].children == LessOne(old(nodes)[parent].children, child)
      ensures child in old(nodes) && old(nodes)[child].parents == 1 ==> child !in nodes
      ensures child in old(nodes) && old(nodes)[child].parents != 1 ==> nodes == Drop(old(nodes), parent, child)
      decreases rank(child), 1
    {
      hide Shape, Kept, Safe, Exact, SameIdle;
      ghost var c := View();
      nodes := Drop(nodes, parent, child);
      if child !in nodes || nodes[child].parents != 0 {
        DropEnds(c, parent, child, dying, rank, disk);
        return;
      }
      DropUnlinks(c, parent, child, dying, rank);
      Unlink(child);
      ghost var u := View();
      ReleaseChildren(child, dying + {child});
      ForgetCascades(c, parent, child, u, View(), dying, rank, disk);
      Forget(child);
    }

    /** The cascade: a dying node drops all its references. */
    method ReleaseChildren(child: Hash, ghost dying: set<Hash>)
      requires Shape(View(), dying, rank) && child in dying && child != ROOT && child in nodes
        && nodes[child].parents == 0
      requires forall z :: z in dying ==> rank(z) >= rank(child)
      modifies this`nodes, this`links, this`oldest, this`nodesSize, this`list
      ensures Cascaded(old(View()), View(), dying, rank, disk, rank(child), child)
      ensures child in nodes && nodes[child].children == map[] && nodes[child].parents == 0
      decreases rank(child), 0
    {
      hide Shape, Cascaded;
      ghost var c := View();
      CascadedStart(c, dying, rank, disk, rank(child), child);
      var left := nodes[child].children.Keys;
      while left != {}
        invariant Cascaded(c, View(), dying, rank, disk, rank(child), child)
        invariant child in nodes && nodes[child].children.Keys == left && nodes[child].parents == 0
        decreases |left|
      {
        var hash :| hash in left;
        CascadedEdge(c, View(), dying, rank, disk, rank(child), child, hash);
        ReleaseChild(hash, child, c, dying);
        left := left - {hash};
      }
    }

    method ReleaseChild(hash: Hash, child: Hash, ghost c: Cache, ghost dying: set<Hash>)
      requires Cascaded(c, View(), dying, rank, disk, rank(child), child)
      requires child != ROOT && child in nodes && hash in nodes[child].children && rank(hash) < rank(child)
      requires forall z :: z in dying ==> rank(z) >= rank(child)
      modifies this`nodes, this`links, this`oldest, this`nodesSize, this`list
      ensures Cascaded(c, View(), dying, rank, disk, rank(child), child)
      ensures child in nodes && nodes[child].children.Keys == old(nodes)[child].children.Keys - {hash}
      ensures nodes[child].parents == old(nodes)[child].parents
      decreases rank(hash), 2
    {
      hide Shape, Cascaded;
      ghost var before := View();
      CascadedEdge(c, before, dying, rank, disk, rank(child), child, hash);
      DropReference(hash, child, dying);
      CascadedAfter(c, before, View(), dying, rank, disk, rank(child), rank(hash) + 1, child);
    }

    ghost predicate Downward(op: Op) {
      op.Referencing? ==> op.child != ROOT && (op.parent != ROOT ==> rank(op.child) < rank(op.parent))
    }

    /**
     * Counts are exact after every run without flushes, so nothing unreachable is kept: each cached
     * node is reached from the meta-root or from a node that is not referenced yet.
     */
    method Run(ops: seq<Op>) returns (ghost trace: seq<Cache>)
      requires Valid() && Exact(nodes) && forall op :: op in ops ==> Downward(op)
      modifies this`nodes, this`links, this`oldest, this`newest, this`nodesSize, this`list
      ensures Valid() && Exact(nodes)
      ensures forall x :: x in nodes ==> Anchored(nodes, Kids(nodes), x)
      ensures (forall h :: !Idle(nodes, h)) <==> AllReached(nodes)
      ensures |trace| == |ops| + 1 && trace[0] == old(View()) && trace[|ops|] == View()
      ensures forall i :: 0 <= i < |ops| ==> Performed(ops[i], trace[i], trace[i + 1])
    {
      hide Shape, Safe, Exact, Anchored, AllReached, SameIdle, Reached, Idle, Performed;
      trace := [View()];
      for i := 0 to |ops|
        invariant Valid() && Exact(nodes)
        invariant |trace| == i + 1 && trace[0] == old(View()) && trace[i] == View()
        invariant forall j :: 0 <= j < i ==> Performed(ops[j], trace[j], trace[j + 1])
      {
        assert Downward(ops[i]);
        Perform(ops[i]);
        trace := trace + [View()];
      }
      ShapeAcyclic(View(), {}, rank);
      forall x | x in nodes ensures Anchored(nodes, Kids(nodes), x) {
        AllAnchored(nodes, rank, x);
      }
      ReachedIffNoneIdle(nodes, rank);
    }

    /** One operation, where it is possible. */
    method Perform(op: Op)
      requires Valid() && Exact(nodes) && Downward(op)
      modifies this`nodes, this`links, this`oldest, this`newest, this`nodesSize, this`list
      ensures Valid() && Exact(nodes) && Performed(op, old(View()), View())
    {
      hide Shape, Safe, Exact, Anchored, AllReached, SameIdle, Reached;
      match op
      case Inserting(hash, blob) =>
        if oldest == ROOT || newest in nodes {
          Insert(hash, blob);
        }
      case Referencing(child, parent) =>
        if parent in nodes {
          Reference(child, parent);
        }
      case Dereferencing(child, parent) =>
        if parent in nodes && child in nodes[parent].children {
          Dereference(child, parent);
        }
    }

    // ---- reading ----

    /** A node comes from the cache, or else from the disk. */
    method Lookup(hash: Hash) returns (r: Option<Blob>)
      ensures r == Read(nodes, disk, hash)
      ensures r == if hash in nodes then Some(nodes[hash].blob) else if hash in disk then Some(disk[hash]) else None
    {
      if hash in nodes {
        return Some(nodes[hash].blob);
      }
      return if hash in disk then Some(disk[hash]) else None;
    }

    // ---- committing ----

    /** Puts one node into the batch, and writes the batch out once it is large enough. */
    method PutNode(hash: Hash, batch: Batch<Hash, int>, ghost start: map<Hash, Blob>, ghost log: seq<(Hash, Blob)>)
      requires hash in nodes && Flushing(start, disk, batch.writes, log)
      modifies this`disk, batch
      ensures Flushing(start, disk, batch.writes, log + [(hash, nodes[hash].blob)])
    {
      FlushingPut(start, disk, batch.writes, log, hash, nodes[hash].blob);
      batch.Put(hash, nodes[hash].blob);
      if batch.size >= IDEAL_BATCH_SIZE {
        FlushingWrite(start, disk, batch.writes, log + [(hash, nodes[hash].blob)]);
        disk := batch.Write(disk);
        batch.Reset();
      }
    }

    /** The write phase: puts every cached node below `hash`, children first. */
    method Save(hash: Hash, batch: Batch<Hash, int>, ghost start: map<Hash, Blob>, ghost log: seq<(Hash, Blob)>)
      returns (ghost log': seq<(Hash, Blob)>)
      requires Acyclic(nodes, rank) && hash != ROOT && Saved(nodes, log) && Flushing(start, disk, batch.writes, log)
      modifies this`disk, batch
      ensures Saved(nodes, log') && Flushing(start, disk, batch.writes, log')
      ensures KeysOf(log) <= KeysOf(log') && (hash in nodes ==> hash in KeysOf(log'))
      ensures forall x :: x in KeysOf(log') ==> x in KeysOf(log) || Reached(Kids(nodes), [hash], x)
      decreases rank(hash)
    {
      hide Acyclic, Saved, Flushing, KeysOf, Reached;
      log' := log;
      if hash !in nodes {
        return;
      }
      var left := nodes[hash].children.Keys;
      while left != {}
        invariant left <= nodes[hash].children.Keys
        invariant Saved(nodes, log') && Flushing(start, disk, batch.writes, log')
        invariant KeysOf(log) <= KeysOf(log')
        invariant forall c :: c in nodes[hash].children && c !in left && c in nodes ==> c in KeysOf(log')
        invariant forall x :: x in KeysOf(log') ==> x in KeysOf(log) || Reached(Kids(nodes), [hash], x)
        decreases |left|
      {
        var child :| child in left;
        EdgeDown(nodes, hash, child, rank);
        ghost var before := log';
        log' := Save(child, batch, start, log');
        SavedBelow(nodes, hash, child, log, before, log');
        left := left - {child};
      }
      SavedSnoc(nodes, log', hash);
      ReachedRoot(Kids(nodes), [hash], hash);
      PutNode(hash, batch, start, log');
      log' := log' + [(hash, nodes[hash].blob)];
    }

    /** The second phase: removes what the first one wrote. */
    method Uncache(hash: Hash, ghost dying: set<Hash>)
      requires Shape(View(), dying, rank) && hash != ROOT && forall z :: z in dying ==> rank(z) > rank(hash)
      modifies this`nodes, this`links, this`oldest, this`nodesSize, this`list
      ensures Shape(View(), dying, rank)
      ensures Removed(old(nodes), nodes, [hash])
      decreases rank(hash), 1
    {
      hide Shape, Removed;
      if hash !in nodes {
        NothingRemoved(nodes, [hash]);
        return;
      }
      ghost var c := View();
      CanUnlink(c, dying, rank, hash);
      UnlinkShape(c, dying, rank, hash);
      Unlink(hash);
      ghost var kids := UncacheChildren(hash, dying + {hash});
      RemovedKeeps(c.nodes, nodes, rank, hash, kids);
      ForgetShape(View(), dying, rank, hash);
      RemovedAbove(c.nodes, nodes, hash, kids);
      Forget(hash);
    }

    method UncacheChildren(hash: Hash, ghost dying: set<Hash>) returns (ghost kids: seq<Hash>)
      requires Shape(View(), dying, rank) && hash in dying && hash != ROOT && hash in nodes
      requires forall z :: z in dying ==> rank(z) >= rank(hash)
      modifies this`nodes, this`links, this`oldest, this`nodesSize, this`list
      ensures Shape(View(), dying, rank)
      ensures Elems(kids) == old(nodes)[hash].children.Keys && Removed(old(nodes), nodes, kids)
      decreases rank(hash), 0
    {
      hide Shape, Removed;
      ghost var a := nodes;
      ShapeAcyclic(View(), dying, rank);
      kids := [];
      NothingRemoved(nodes, kids);
      var left := nodes[hash].children.Keys;
      while left != {}
        invariant Shape(View(), dying, rank) && Removed(a, nodes, kids)
        invariant Elems(kids) == a[hash].children.Keys - left && left <= a[hash].children.Keys
        decreases |left|
      {
        var child :| child in left;
        EdgeDown(a, hash, child, rank);
        ghost var b := nodes;
        Uncache(child, dying);
        RemovedThen(a, b, nodes, kids, child);
        assert Elems(kids + [child]) == Elems(kids) + {child};
        kids := kids + [child];
        left := left - {child};
      }
    }

    /**
     * Writes the trie below `hash` to disk and drops it from the cache. `log` lists the puts: every
     * prefix of them, so every state of the disk on the way, is closed under recorded children.
     */
    method Commit(hash: Hash) returns (ghost log: seq<(Hash, Blob)>)
      requires Valid() && hash != ROOT
      modifies this`nodes, this`links, this`oldest, this`nodesSize, this`list, this`disk
      ensures Valid()
      ensures nodes == old(nodes) - Subtrie(old(nodes), hash)
      ensures KeysOf(log) == Subtrie(old(nodes), hash) && Saved(old(nodes), log)
      ensures disk == Apply(old(disk), log)
      ensures forall h :: h in old(nodes) && h !in nodes ==> h in disk && disk[h] == old(nodes)[h].blob
      ensures forall h :: Read(nodes, disk, h) == Read(old(nodes), old(disk), h)
      ensures CanInsert(View()) <==>
        || (old(newest) in old(nodes) && old(newest) !in Subtrie(old(nodes), hash))
        || old(nodes).Keys - Subtrie(old(nodes), hash) == {ROOT}
    {
      hide Shape, Safe, Saved, Removed, Read;
      ghost var a, start := nodes, disk;
      ShapeAcyclic(View(), {}, rank);
      var batch := new Batch<Hash, int>();
      SavedNothing(nodes);
      FlushingNothing(disk);
      log := Save(hash, batch, start, []);
      SavedExactly(nodes, log, hash);
      FlushingWrite(start, disk, batch.writes, log);
      disk := batch.Write(disk);
      Uncache(hash, {});
      CommitKeeps(a, nodes, rank, start, log, hash);
      NowOnDisk(a, nodes, start, disk);
      GuardIs(View(), rank);
      assert nodes.Keys == a.Keys - Subtrie(a, hash);
    }

    // ---- capping ----

    /** The storage that is reported: nodes, and two hashes of flush-list for each. */
    ghost function Report(): int
      reads this
    {
      ReportOf(nodesSize, nodes)
    }

    /** Flushes the oldest nodes until the reported size is within the limit; `k` says how many. */
    method Cap(limit: int) returns (ghost k: nat)
      requires Valid()
      modifies this`nodes, this`links, this`oldest, this`nodesSize, this`list, this`disk
      ensures Valid()
      ensures k <= |old(list)| && list == old(list)[k..] && nodes == old(nodes) - Elems(old(list)[..k])
      ensures Report() <= limit || list == []
      ensures nodesSize + (|nodes| - 1) * 64 <= limit || nodes.Keys == {ROOT}
      ensures forall h :: h in old(nodes) && h !in nodes ==> h in disk && disk[h] == old(nodes)[h].blob
      ensures forall j :: 0 <= j < k ==> old(Report()) - Freed(old(nodes), old(list), j) > limit
      ensures k > 0 ==> var h := old(list)[k - 1];
        h in old(nodes) && nodesSize + (|nodes| - 1) * 64 + 96 + |old(nodes)[h].blob| > limit
      ensures forall h :: Read(nodes, disk, h) == Read(old(nodes), old(disk), h)
      ensures CanInsert(old(View())) ==> CanInsert(View())
    {
      hide Shape, Safe, Read, Freed, Elems;
      ghost var c, start := View(), disk;
      var next;
      next, k := FlushOldest(limit);
      DropOldest(next, k);
      CapKeeps(c, View(), rank, start, k);
      NowOnDisk(c.nodes, nodes, start, disk);
      if k > 0 {
        LastHadToGo(c, View(), rank, k, limit);
      }
      if list == [] {
        NoneListed(View(), rank);
      }
      if CanInsert(c) {
        CapCanInsert(c, View(), rank, k);
      }
      if oldest != ROOT {
        ResetHead(View(), rank);
        links := links[oldest := links[oldest].(prev := ROOT)];
      }
    }

    /** Writes blobs to disk from the head of the flush-list on, until dropping them would do. */
    method FlushOldest(limit: int) returns (next: Hash, ghost k: nat)
      requires Shape(View(), {}, rank)
      modifies this`disk
      ensures k <= |list| && next == Head(list[k..])
      ensures disk == Apply(old(disk), Flushed(nodes, list, k))
      ensures Report() - Freed(nodes, list, k) <= limit || k == |list|
      ensures forall j :: 0 <= j < k ==> Report() - Freed(nodes, list, j) > limit
    {
      hide Shape, Capping, Flushing, Flushed;
      ghost var c, start := View(), disk;
      var batch := new Batch<Hash, int>();
      var size := nodesSize + (|nodes| - 1) * 2 * HASH_LENGTH;
      next := oldest;
      k := 0;
      ghost var log: seq<(Hash, Blob)> := [];
      CappingStarts(c, rank, limit);
      FlushingNothing(disk);
      while size > limit && next != ROOT
        invariant Capping(c, limit, k, next, size, log) && Flushing(start, disk, batch.writes, log)
        decreases |list| - k
      {
        CappingNext(c, rank, limit, k, next, size, log);
        PutNode(next, batch, start, log);
        log := log + [(next, nodes[next].blob)];
        size := size - (3 * HASH_LENGTH + |nodes[next].blob|);
        next := links[next].next;
        k := k + 1;
      }
      CappingEnds(c, rank, limit, k, next, size, log);
      FlushingWrite(start, disk, batch.writes, log);
      disk := batch.Write(disk);
    }

    /** Deletes from the head of the flush-list up to `next`. */
    method DropOldest(next: Hash, ghost k: nat)
      requires Shape(View(), {}, rank) && k <= |list| && next == Head(list[k..])
      modifies this`nodes, this`links, this`oldest, this`nodesSize, this`list
      ensures Shape(View(), {}, rank) && DroppedTo(old(View()), View(), k)
    {
      hide Shape, DroppedTo, OldestDropped;
      ghost var c, j := View(), 0;
      DroppedNone(c);
      while oldest != next
        invariant j <= k && Shape(View(), {}, rank) && DroppedTo(c, View(), j)
        decreases k - j
      {
        DroppedAll(c, View(), rank, j, k);
        DropOldestShape(View(), rank);
        DroppedNext(c, View(), j);
        DropHead();
        j := j + 1;
      }
      DroppedAll(c, View(), rank, j, k);
    }

    method DropHead()
      requires oldest in nodes && oldest in links && list != []
      modifies this`nodes, this`links, this`oldest, this`nodesSize, this`list
      ensures View() == OldestDropped(old(View()))
    {
      nodesSize := nodesSize - (HASH_LENGTH + |nodes[oldest].blob|);
      var second := links[oldest].next;
      nodes, links := nodes - {oldest}, links - {oldest};
      oldest, list := second, list[1..];
    }
  }

  lemma TwoRoots(nodes: Nodes, a: Hash, b: Hash)
    requires a != ROOT && b != ROOT && a != b && nodes.Keys == {ROOT, a, b}
    requires nodes[ROOT].children == map[a := 1, b := 1] && nodes[a].children == map[] && nodes[b].children == map[]
    ensures AllReached(nodes)
    ensures (set x | x in nodes && Reached(Kids(DropEdge(nodes, ROOT, b)), [ROOT], x)) == {ROOT, a}
  {
    var m, m' := Kids(nodes), Kids(DropEdge(nodes, ROOT, b));
    ReachedRoot(m, [ROOT], ROOT);
    ReachedRoot(m', [ROOT], ROOT);
    ReachedStep(m, [ROOT], ROOT, a);
    ReachedStep(m, [ROOT], ROOT, b);
    ReachedStep(m', [ROOT], ROOT, a);
    forall x | Reached(m', [ROOT], x) ensures x in {ROOT, a} {
      ReachedInClosed(m', [ROOT], {ROOT, a}, x);
    }
  }

  method TwoNodes(a: Hash, b: Hash, ghost r: Rank) returns (db: Database)
    requires a != ROOT && b != ROOT && a != b
    ensures fresh(db) && db.Valid() && Exact(db.nodes) && db.newest == b
    ensures db.nodes == map[ROOT := Node([], 0, map[]), a := Node([], 0, map[]), b := Node([], 0, map[])]
  {
    hide Shape, Safe, Exact;
    db := new Database(map[], r);
    db.Insert(a, []);
    db.Insert(b, []);
  }

  /** The guard of Insert can be lost: of two roots, the newer one is released. */
  method NewestLost(a: Hash, b: Hash, ghost r: Rank) returns (db: Database)
    requires a != ROOT && b != ROOT && a != b
    ensures db.Valid() && !CanInsert(db.View())
  {
    hide Shape, Safe, Exact, AllReached;
    db := TwoNodes(a, b, r);
    db.Reference(a, ROOT);
    assert db.nodes == map[ROOT := Node([], 0, map[a := 1]), a := Node([], 1, map[]), b := Node([], 0, map[])];
    db.Reference(b, ROOT);
    assert db.nodes == map[ROOT := Node([], 0, map[a := 1, b := 1]), a := Node([], 1, map[]), b := Node([], 1, map[])];
    TwoRoots(db.nodes, a, b);
    db.Dereference(b, ROOT);
    ListFull(db.View(), db.rank, a);
  }

  lemma ListFull(c: Cache, rank: Rank, h: Hash)
    requires Shape(c, {}, rank) && h in c.nodes && h != ROOT
    ensures c.oldest != ROOT
  {
    assert h in Elems(c.list);
    ListHolds(c, rank);
  }
}
