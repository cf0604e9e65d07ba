/** Writing cached nodes out: committing a trie, and flushing the oldest nodes. */
module TrieFlush {
  import opened Types
  import opened Graph
  import opened Stores
  import opened TrieNodes
  import opened TrieReach
  import opened FlushLists
  import opened TrieCache

  function Read(nodes: Nodes, disk: map<Hash, Blob>, h: Hash): Option<Blob> {
    if h in nodes then Some(nodes[h].blob) else if h in disk then Some(disk[h]) else None
  }

  // ---- the batch ----

  /** Of all puts so far, those still in the batch are the last ones; the others are on disk. */
  ghost predicate Flushing(start: map<Hash, Blob>, disk: map<Hash, Blob>, writes: seq<(Hash, Blob)>,
      log: seq<(Hash, Blob)>)
  {
    exists done :: log == done + writes && disk == Apply(start, done)
  }

  lemma FlushingNothing(disk: map<Hash, Blob>)
    ensures Flushing(disk, disk, [], [])
  {
    var none: seq<(Hash, Blob)> := [];
    assert none == none + none && disk == Apply(disk, none);
  }

  lemma FlushingPut(start: map<Hash, Blob>, disk: map<Hash, Blob>, writes: seq<(Hash, Blob)>, log: seq<(Hash, Blob)>,
      h: Hash, blob: Blob)
    requires Flushing(start, disk, writes, log)
    ensures Flushing(start, disk, writes + [(h, blob)], log + [(h, blob)])
  {
    var done :| log == done + writes && disk == Apply(start, done);
    assert log + [(h, blob)] == done + (writes + [(h, blob)]);
  }

  lemma FlushingWrite(start: map<Hash, Blob>, disk: map<Hash, Blob>, writes: seq<(Hash, Blob)>, log: seq<(Hash, Blob)>)
    requires Flushing(start, disk, writes, log)
    ensures Apply(disk, writes) == Apply(start, log) && Flushing(start, Apply(disk, writes), [], log)
  {
    hide Apply;
    var done :| log == done + writes && disk == Apply(start, done);
    ApplyConcat(start, done, writes);
    assert log == log + [];
  }

  // ---- the write phase of a commit ----

  /** A put stores the cached blob, after all cached children of the node have been put. */
  ghost predicate SavedAt(nodes: Nodes, log: seq<(Hash, Blob)>, i: int)
    requires 0 <= i < |log|
  {
    var (h, blob) := log[i];
    h in nodes && blob == nodes[h].blob && forall c :: c in nodes[h].children && c in nodes ==> c in KeysOf(log[..i])
  }

  ghost predicate Saved(nodes: Nodes, log: seq<(Hash, Blob)>) {
    forall i {:trigger SavedAt(nodes, log, i)} :: 0 <= i < |log| ==> SavedAt(nodes, log, i)
  }

  lemma SavedNothing(nodes: Nodes)
    ensures Saved(nodes, [])
  {
  }

  lemma SavedSnoc(nodes: Nodes, log: seq<(Hash, Blob)>, h: Hash)
    requires Saved(nodes, log) && h in nodes
    requires forall c :: c in nodes[h].children && c in nodes ==> c in KeysOf(log)
    ensures Saved(nodes, log + [(h, nodes[h].blob)])
    ensures KeysOf(log + [(h, nodes[h].blob)]) == KeysOf(log) + {h}
  {
    var log' := log + [(h, nodes[h].blob)];
    KeysSnoc(log, h, nodes[h].blob);
    forall i | 0 <= i < |log'| ensures SavedAt(nodes, log', i) {
      if i < |log| {
        assert SavedAt(nodes, log, i) && log'[..i] == log[..i];
      } else {
        assert log'[..i] == log;
      }
    }
  }

  lemma SavedKeys(nodes: Nodes, log: seq<(Hash, Blob)>, x: Hash)
    requires Saved(nodes, log) && x in KeysOf(log)
    ensures x in nodes && forall c :: c in nodes[x].children && c in nodes ==> c in KeysOf(log)
  {
    var i :| 0 <= i < |log| && log[i].0 == x;
    assert SavedAt(nodes, log, i);
    forall c | c in KeysOf(log[..i]) ensures c in KeysOf(log) {
      var j :| 0 <= j < i && log[..i][j].0 == c;
      assert log[j].0 == c;
    }
  }

  lemma SavedBelow(nodes: Nodes, h: Hash, child: Hash, log0: seq<(Hash, Blob)>, log1: seq<(Hash, Blob)>,
      log2: seq<(Hash, Blob)>)
    requires h in nodes && child in nodes[h].children
    requires forall x :: x in KeysOf(log1) ==> x in KeysOf(log0) || Reached(Kids(nodes), [h], x)
    requires forall x :: x in KeysOf(log2) ==> x in KeysOf(log1) || Reached(Kids(nodes), [child], x)
    ensures forall x :: x in KeysOf(log2) ==> x in KeysOf(log0) || Reached(Kids(nodes), [h], x)
  {
    forall x | x in KeysOf(log2) && x !in KeysOf(log1) ensures Reached(Kids(nodes), [h], x) {
      ReachedThrough(Kids(nodes), h, [child], x);
    }
  }

  /** What was put is exactly the trie below `h`, shared parts included. */
  lemma SavedExactly(nodes: Nodes, log: seq<(Hash, Blob)>, h: Hash)
    requires Saved(nodes, log) && (h in nodes ==> h in KeysOf(log))
    requires forall x :: x in KeysOf(log) ==> Reached(Kids(nodes), [h], x)
    ensures KeysOf(log) == Subtrie(nodes, h)
  {
    var m := Kids(nodes);
    var s := (Successors(m) + {h}) - (nodes.Keys - KeysOf(log));
    forall y, z | y in s && y in m && z in m[y] ensures z in s {
      SavedKeys(nodes, log, y);
      assert z in Successors(m);
    }
    forall x | x in nodes && Reached(m, [h], x) ensures x in KeysOf(log) {
      ReachedInClosed(m, [h], s, x);
    }
    forall x | x in KeysOf(log) ensures x in nodes {
      SavedKeys(nodes, log, x);
    }
  }

  lemma {:induction false} SavedDisk(nodes: Nodes, disk: map<Hash, Blob>, log: seq<(Hash, Blob)>, h: Hash)
    requires Saved(nodes, log)
    ensures h in KeysOf(log) ==> h in nodes && h in Apply(disk, log) && Apply(disk, log)[h] == nodes[h].blob
    ensures h !in KeysOf(log) ==>
      (h in Apply(disk, log) <==> h in disk) && (h in disk ==> Apply(disk, log)[h] == disk[h])
  {
    if log != [] {
      var front, last := log[..|log| - 1], log[|log| - 1];
      assert log == front + [(last.0, last.1)];
      SavedPrefix(nodes, log, |log| - 1);
      SavedDisk(nodes, disk, front, h);
      KeysSnoc(front, last.0, last.1);
      assert SavedAt(nodes, log, |log| - 1);
    }
  }

  lemma SavedPrefix(nodes: Nodes, log: seq<(Hash, Blob)>, k: nat)
    requires Saved(nodes, log) && k <= |log|
    ensures Saved(nodes, log[..k])
  {
    forall i | 0 <= i < k ensures SavedAt(nodes, log[..k], i) {
      assert SavedAt(nodes, log, i) && log[..k][..i] == log[..i];
    }
  }

  /** Wherever the writing of a commit is cut off, what it has put on disk is complete below. */
  lemma CutOffCommit(nodes: Nodes, disk: map<Hash, Blob>, log: seq<(Hash, Blob)>, k: nat, h: Hash, c: Hash)
    requires Safe(nodes, disk) && Saved(nodes, log) && k <= |log|
    requires h in KeysOf(log[..k]) && h in nodes && c in nodes[h].children
    ensures c in Apply(disk, log[..k])
  {
    SavedPrefix(nodes, log, k);
    SavedKeys(nodes, log[..k], h);
    assert ChildSafe(nodes, disk, h, c);
    SavedDisk(nodes, disk, log[..k], c);
  }

  // ---- the second phase ----

  lemma ShapeAcyclic(c: Cache, dying: set<Hash>, rank: Rank)
    requires Shape(c, dying, rank)
    ensures Acyclic(c.nodes, rank)
  {
  }

  /** Removing what is below a node leaves the node. */
  lemma RemovedKeeps(a: Nodes, b: Nodes, rank: Rank, h: Hash, kids: seq<Hash>)
    requires Acyclic(a, rank) && h in a && h != ROOT && Removed(a, b, kids) && Elems(kids) == a[h].children.Keys
    ensures h in b
  {
    var m := Kids(a);
    var s := set y | y in Successors(m) + Elems(kids) && y != ROOT && rank(y) < rank(h);
    forall y, z | y in s && y in m && z in m[y] ensures z in s {
      assert EdgeOk(a[y], y, z, rank);
      assert z in Successors(m);
    }
    forall r | r in kids ensures r in s {
      assert r in Elems(kids);
      assert EdgeOk(a[h], h, r, rank);
    }
    forall x | Reached(m, kids, x) ensures x != h {
      ReachedInClosed(m, kids, s, x);
    }
  }

  lemma CommitKeeps(a: Nodes, b: Nodes, rank: Rank, disk: map<Hash, Blob>, log: seq<(Hash, Blob)>, h: Hash)
    requires Acyclic(a, rank) && Safe(a, disk) && h != ROOT && Removed(a, b, [h])
    requires Saved(a, log) && KeysOf(log) == Subtrie(a, h)
    ensures b == a - Subtrie(a, h) && Safe(b, Apply(disk, log))
    ensures forall x :: Read(b, Apply(disk, log), x) == Read(a, disk, x)
  {
    var s := Subtrie(a, h);
    assert b == a - s;
    ApplyKeys(disk, log);
    DiskGrowsSafe(a, disk, Apply(disk, log));
    forall x | x in s ensures x != ROOT {
      ReachedRank(a, rank, h, x);
    }
    RemoveSafe(a, s, rank, Apply(disk, log));
    forall x ensures Read(b, Apply(disk, log), x) == Read(a, disk, x) {
      SavedDisk(a, disk, log, x);
    }
  }

  // ---- dereferencing ----

  lemma CascadedValid(a: Cache, b: Cache, rank: Rank, disk: map<Hash, Blob>, level: nat, parent: Hash)
    requires Cascaded(a, b, {}, rank, disk, level, parent) && Safe(a.nodes, disk)
    ensures Shape(b, {}, rank) && Safe(b.nodes, disk)
    ensures forall h :: h in b.nodes ==> h in a.nodes && b.nodes[h].blob == a.nodes[h].blob
    ensures forall h :: h in b.nodes && h != parent ==> b.nodes[h].children == a.nodes[h].children
  {
    hide Shape, Safe, Exact, SameIdle;
    forall h | h in b.nodes
      ensures h in a.nodes && b.nodes[h].blob == a.nodes[h].blob
      ensures h != parent ==> b.nodes[h].children == a.nodes[h].children
    {
      assert KeptAt(a.nodes, b.nodes, rank, level, parent, h);
    }
  }

  /**
   * Exact collection: what stays is what the meta-root, or a node that was not referenced anyway,
   * still reaches without the dropped reference.
   */
  lemma CollectedExactly(a: Cache, b: Cache, rank: Rank, disk: map<Hash, Blob>, parent: Hash, child: Hash)
    requires Shape(a, {}, rank) && Exact(a.nodes) && parent in a.nodes && child in a.nodes[parent].children
    requires Cascaded(a, b, {}, rank, disk, rank(child) + 1, parent)
    requires parent in b.nodes && b.nodes[parent].children == LessOne(a.nodes[parent].children, child)
    ensures forall x :: x in b.nodes <==> x in a.nodes && Anchored(a.nodes, Kids(DropEdge(a.nodes, parent, child)), x)
  {
    hide Exact, Safe, ListOk, Reached, Idle;
    var m := Kids(DropEdge(a.nodes, parent, child));
    forall n | n in b.nodes ensures n in a.nodes && m[n] == b.nodes[n].children.Keys {
      assert KeptAt(a.nodes, b.nodes, rank, rank(child) + 1, parent, n);
    }
    forall x | x in b.nodes ensures Anchored(a.nodes, m, x) {
      AnchoredBefore(a.nodes, b.nodes, rank, m, x);
    }
    forall x | x in a.nodes && Anchored(a.nodes, m, x) ensures x in b.nodes {
      AnchoredStays(a.nodes, b.nodes, m, x);
    }
  }

  lemma AnchoredBefore(a: Nodes, b: Nodes, rank: Rank, m: Succ<Hash>, x: Hash)
    requires Acyclic(b, rank) && Exact(b) && SameIdle(a, b) && x in b
    requires forall n :: n in b ==> n in m && m[n] == b[n].children.Keys
    ensures Anchored(a, m, x)
  {
    AllAnchored(b, rank, x);
    var r :| (r == ROOT || Idle(b, r)) && Reached(Kids(b), [r], x);
    ReachedFewer(Kids(b), m, [r], [r], x);
    assert r == ROOT || Idle(a, r);
  }

  lemma AnchoredStays(a: Nodes, b: Nodes, m: Succ<Hash>, x: Hash)
    requires ROOT in b && Exact(b) && SameIdle(a, b) && Anchored(a, m, x)
    requires forall n :: n in b ==> n in m && m[n] == b[n].children.Keys
    ensures x in b
  {
    var r :| (r == ROOT || Idle(a, r)) && Reached(m, [r], x);
    assert r == ROOT || Idle(b, r);
    forall y, z | y in b.Keys && y in m && z in m[y] ensures z in b.Keys {
      assert ChildCached(b, y, z);
    }
    ReachedInClosed(m, [r], b.Keys, x);
  }

  /** Without unreferenced nodes it is what the meta-root reaches, and nothing unreferenced comes up. */
  lemma CollectedReached(a: Cache, b: Cache, rank: Rank, disk: map<Hash, Blob>, parent: Hash, child: Hash)
    requires Shape(a, {}, rank) && Exact(a.nodes) && parent in a.nodes && child in a.nodes[parent].children
    requires Cascaded(a, b, {}, rank, disk, rank(child) + 1, parent)
    requires AllReached(a.nodes)
    ensures AllReached(b.nodes)
    ensures var m := Kids(DropEdge(a.nodes, parent, child));
      forall x :: Anchored(a.nodes, m, x) <==> Reached(m, [ROOT], x)
  {
    hide Exact, Safe, ListOk, Reached, AllReached, Idle;
    ReachedIffNoneIdle(a.nodes, rank);
    ReachedIffNoneIdle(b.nodes, rank);
  }

  /** If reads are the same, what is no longer cached is on disk. */
  lemma NowOnDisk(a: Nodes, b: Nodes, disk: map<Hash, Blob>, disk': map<Hash, Blob>)
    requires forall h :: Read(b, disk', h) == Read(a, disk, h)
    ensures forall h :: h in a && h !in b ==> h in disk' && disk'[h] == a[h].blob
  {
    forall h | h in a && h !in b ensures h in disk' && disk'[h] == a[h].blob {
      assert Read(b, disk', h) == Read(a, disk, h);
    }
  }

  lemma NoneListed(c: Cache, rank: Rank)
    requires Shape(c, {}, rank) && c.list == []
    ensures c.nodes.Keys == {ROOT}
  {
    assert Elems(c.list) == {};
  }

  // ---- capping ----

  ghost function ReportOf(size: int, nodes: Nodes): int {
    size + (|nodes| - 1) * 2 * HASH_LENGTH
  }

  /** The reported storage that the first `k` nodes of the flush-list account for. */
  ghost function Freed(nodes: Nodes, list: seq<Hash>, k: nat): int
    requires k <= |list|
  {
    if k == 0 then 0
    else Freed(nodes, list, k - 1) + 3 * HASH_LENGTH + if list[k - 1] in nodes then |nodes[list[k - 1]].blob| else 0
  }

  ghost function Flushed(nodes: Nodes, list: seq<Hash>, k: nat): seq<(Hash, Blob)>
    requires k <= |list|
  {
    if k == 0 then []
    else Flushed(nodes, list, k - 1) + [(list[k - 1], if list[k - 1] in nodes then nodes[list[k - 1]].blob else [])]
  }

  lemma ListHolds(c: Cache, rank: Rank)
    requires Shape(c, {}, rank)
    ensures c.oldest == Head(c.list) && NoDup(c.list)
    ensures forall i :: 0 <= i < |c.list| ==> c.list[i] in c.nodes && c.list[i] != ROOT
  {
    assert forall i :: 0 <= i < |c.list| ==> c.list[i] in Elems(c.list);
  }

  /** The first loop of Cap, at the `k`-th node of the flush-list. */
  ghost predicate Capping(c: Cache, limit: int, k: nat, next: Hash, size: int, log: seq<(Hash, Blob)>) {
    && k <= |c.list| && next == Head(c.list[k..])
    && size == ReportOf(c.size, c.nodes) - Freed(c.nodes, c.list, k)
    && log == Flushed(c.nodes, c.list, k)
    && forall j :: 0 <= j < k ==> ReportOf(c.size, c.nodes) - Freed(c.nodes, c.list, j) > limit
  }

  lemma CappingStarts(c: Cache, rank: Rank, limit: int)
    requires Shape(c, {}, rank)
    ensures Capping(c, limit, 0, c.oldest, c.size + (|c.nodes| - 1) * 2 * HASH_LENGTH, [])
  {
    ListHolds(c, rank);
    assert c.list[0..] == c.list;
  }

  lemma CappingNext(c: Cache, rank: Rank, limit: int, k: nat, next: Hash, size: int, log: seq<(Hash, Blob)>)
    requires Shape(c, {}, rank) && Capping(c, limit, k, next, size, log) && size > limit && next != ROOT
    ensures k < |c.list| && next in c.nodes && next in c.links
    ensures Capping(c, limit, k + 1, c.links[next].next, size - (3 * HASH_LENGTH + |c.nodes[next].blob|),
      log + [(next, c.nodes[next].blob)])
  {
    ListHolds(c, rank);
    assert LinkAt(c.links, c.list, k);
  }

  lemma CappingEnds(c: Cache, rank: Rank, limit: int, k: nat, next: Hash, size: int, log: seq<(Hash, Blob)>)
    requires Shape(c, {}, rank) && Capping(c, limit, k, next, size, log) && (size <= limit || next == ROOT)
    ensures k <= |c.list| && next == Head(c.list[k..]) && log == Flushed(c.nodes, c.list, k)
    ensures ReportOf(c.size, c.nodes) - Freed(c.nodes, c.list, k) <= limit || k == |c.list|
    ensures forall j :: 0 <= j < k ==> ReportOf(c.size, c.nodes) - Freed(c.nodes, c.list, j) > limit
  {
    ListHolds(c, rank);
  }

  /** The flushed blobs are on disk, and nothing else there has changed. */
  lemma {:induction false} FlushedDisk(nodes: Nodes, list: seq<Hash>, disk: map<Hash, Blob>, k: nat, h: Hash)
    requires (forall i :: 0 <= i < |list| ==> list[i] in nodes) && k <= |list|
    ensures var disk' := Apply(disk, Flushed(nodes, list, k));
      && (h in Elems(list[..k]) ==> h in nodes && h in disk' && disk'[h] == nodes[h].blob)
      && (h !in Elems(list[..k]) ==> (h in disk' <==> h in disk) && (h in disk ==> disk'[h] == disk[h]))
  {
    hide Elems, Apply;
    if k > 0 {
      FlushedDisk(nodes, list, disk, k - 1, h);
      ElemsTake(list, k - 1);
      ApplySnoc(disk, Flushed(nodes, list, k - 1), list[k - 1], nodes[list[k - 1]].blob);
    } else {
      FlushedNone(nodes, list, disk);
    }
  }

  lemma FlushedNone(nodes: Nodes, list: seq<Hash>, disk: map<Hash, Blob>)
    ensures Apply(disk, Flushed(nodes, list, 0)) == disk && Elems(list[..0]) == {}
  {
    assert list[..0] == [];
  }

  lemma ElemsTake(list: seq<Hash>, k: nat)
    requires k < |list|
    ensures Elems(list[..k + 1]) == Elems(list[..k]) + {list[k]}
  {
    assert list[..k + 1] == list[..k] + [list[k]];
  }

  lemma HeadsDiffer(list: seq<Hash>, j: nat, k: nat)
    requires NoDup(list) && (forall i :: 0 <= i < |list| ==> list[i] != ROOT) && j <= k <= |list|
    ensures Head(list[j..]) == Head(list[k..]) <==> j == k
    ensures j < k ==> Head(list[j..]) == list[j]
  {
  }

  /** Taking the oldest node off the list and deleting it. */
  function OldestDropped(c: Cache): Cache
    requires c.oldest in c.nodes && c.oldest in c.links && c.list != []
  {
    c.(nodes := c.nodes - {c.oldest}, links := c.links - {c.oldest}, oldest := c.links[c.oldest].next,
       size := c.size - (HASH_LENGTH + |c.nodes[c.oldest].blob|), list := c.list[1..])
  }

  lemma DropOldestShape(c: Cache, rank: Rank)
    requires Shape(c, {}, rank) && c.oldest != ROOT
    ensures c.oldest in c.nodes && c.oldest in c.links && c.list != [] && c.oldest == c.list[0]
    ensures Shape(OldestDropped(c), {}, rank)
    ensures ReportOf(OldestDropped(c).size, OldestDropped(c).nodes) ==
      ReportOf(c.size, c.nodes) - 3 * HASH_LENGTH - |c.nodes[c.oldest].blob|
  {
    var h := c.oldest;
    assert h in Elems(c.list);
    CanUnlink(c, {}, rank, h);
    UnlinkShape(c, {}, rank, h);
    assert {} + {h} == {h};
    CutOldest(c.links, c.list);
    ForgetShape(Unlinked(c, h), {}, rank, h);
    assert |c.nodes| == |c.nodes.Keys| && (c.nodes - {h}).Keys == c.nodes.Keys - {h};
    assert Forgotten(Unlinked(c, h), h) == OldestDropped(c);
  }

  /** After the first `j` nodes of the flush-list of `c` have been dropped. */
  ghost predicate DroppedTo(c: Cache, d: Cache, j: nat) {
    && j <= |c.list| && d.list == c.list[j..] && d.newest == c.newest
    && d.nodes == c.nodes - Elems(c.list[..j])
    && ReportOf(d.size, d.nodes) == ReportOf(c.size, c.nodes) - Freed(c.nodes, c.list, j)
  }

  lemma DroppedNext(c: Cache, d: Cache, j: nat)
    requires DroppedTo(c, d, j) && j < |c.list| && d.oldest == d.list[0] && d.oldest in d.nodes && d.oldest in d.links
    requires ReportOf(OldestDropped(d).size, OldestDropped(d).nodes) ==
      ReportOf(d.size, d.nodes) - 3 * HASH_LENGTH - |d.nodes[d.oldest].blob|
    ensures DroppedTo(c, OldestDropped(d), j + 1)
  {
    hide Elems, ReportOf;
    var h := c.list[j];
    ElemsTake(c.list, j);
    assert c.list[j..][1..] == c.list[j + 1..];
    assert c.nodes - Elems(c.list[..j]) - {h} == c.nodes - Elems(c.list[..j + 1]);
  }

  lemma DroppedNone(c: Cache)
    ensures DroppedTo(c, c, 0)
  {
    assert c.nodes - {} == c.nodes && Elems(c.list[..0]) == {};
  }

  /** The head is the `k`-th node just when `k` nodes have been dropped. */
  lemma DroppedAll(c: Cache, d: Cache, rank: Rank, j: nat, k: nat)
    requires Shape(c, {}, rank) && Shape(d, {}, rank) && DroppedTo(c, d, j) && j <= k <= |c.list|
    ensures d.oldest == Head(c.list[k..]) <==> j == k
    ensures j < k ==> d.oldest != ROOT
  {
    ListHolds(c, rank);
    ListHolds(d, rank);
    hide Shape, Elems;
    HeadsDiffer(c.list, j, k);
  }

  /** The last node dropped had to go: with it the reported size would be above the limit. */
  lemma LastHadToGo(c: Cache, d: Cache, rank: Rank, k: nat, limit: int)
    requires Shape(c, {}, rank) && DroppedTo(c, d, k) && k > 0
    requires ReportOf(c.size, c.nodes) - Freed(c.nodes, c.list, k - 1) > limit
    ensures c.list[k - 1] in c.nodes
    ensures d.size + (|d.nodes| - 1) * 64 + 96 + |c.nodes[c.list[k - 1]].blob| > limit
  {
    hide Acyclic, Chain;
    assert c.list[k - 1] in Elems(c.list);
  }

  lemma CapKeeps(c: Cache, d: Cache, rank: Rank, disk: map<Hash, Blob>, k: nat)
    requires Shape(c, {}, rank) && Safe(c.nodes, disk) && Shape(d, {}, rank) && DroppedTo(c, d, k)
    ensures var disk' := Apply(disk, Flushed(c.nodes, c.list, k));
      && Safe(d.nodes, disk')
      && forall h :: Read(d.nodes, disk', h) == Read(c.nodes, disk, h)
  {
    ListHolds(c, rank);
    var disk', s := Apply(disk, Flushed(c.nodes, c.list, k)), Elems(c.list[..k]);
    forall h ensures Read(d.nodes, disk', h) == Read(c.nodes, disk, h)
      && (h in s ==> h in disk' && h in c.nodes && h != ROOT) && (h in disk ==> h in disk')
    {
      FlushedDisk(c.nodes, c.list, disk, k, h);
      if h in s {
        assert h in Elems(c.list);
      }
    }
    DiskGrowsSafe(c.nodes, disk, disk');
    RemoveSafe(c.nodes, s, rank, disk');
  }

  /** Clearing the link back from the new head keeps the list. */
  lemma ResetHead(d: Cache, rank: Rank)
    requires Shape(d, {}, rank) && d.oldest != ROOT
    ensures d.oldest in d.links && Shape(d.(links := d.links[d.oldest := d.links[d.oldest].(prev := ROOT)]), {}, rank)
  {
    ResetOldest(d.links, d.list, ROOT);
    assert d.links[d.oldest := d.links[d.oldest].(prev := ROOT)].Keys == d.links.Keys;
  }

  /** Flushing from the oldest end loses the newest node only together with all others. */
  lemma CapCanInsert(c: Cache, d: Cache, rank: Rank, k: nat)
    requires Shape(c, {}, rank) && Shape(d, {}, rank) && DroppedTo(c, d, k) && CanInsert(c)
    ensures CanInsert(d)
  {
    if d.oldest != ROOT {
      var last := |c.list| - 1;
      assert c.newest in Elems(c.list) && d.list[|d.list| - 1] == c.list[last];
      assert d.list[|d.list| - 1] in Elems(d.list);
    }
  }
}
