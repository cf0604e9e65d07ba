/** What can be reached through cached nodes, and what removing it leaves. */
module TrieReach {
  import opened Types
  import opened Graph
  import opened TrieNodes

  ghost function Kids(nodes: Nodes): Succ<Hash> {
    map h | h in nodes :: nodes[h].children.Keys
  }

  /** The cached nodes reached from `h` through cached nodes. */
  ghost function Subtrie(nodes: Nodes, h: Hash): set<Hash> {
    set x | x in nodes && Reached(Kids(nodes), [h], x)
  }

  /** `b` is `a` without some nodes. */
  ghost predicate Within(b: Nodes, a: Nodes) {
    forall x :: x in b ==> x in a && b[x] == a[x]
  }

  /** `b` is `a` without exactly the nodes reached from `roots`. */
  ghost predicate Removed(a: Nodes, b: Nodes, roots: seq<Hash>) {
    && Within(b, a)
    && forall x :: x in a ==> (x !in b <==> Reached(Kids(a), roots, x))
  }

  // ---- reaching ----

  lemma ReachedFewer(m: Succ<Hash>, m': Succ<Hash>, roots: seq<Hash>, roots': seq<Hash>, x: Hash)
    requires Reached(m, roots, x)
    requires forall h :: h in m ==> h in m' && m[h] <= m'[h]
    requires forall r :: r in roots ==> r in roots'
    ensures Reached(m', roots', x)
  {
    var path :| IsPath(m, roots, path) && path[|path| - 1] == x;
    assert IsPath(m', roots', path);
  }

  lemma ReachedThrough(m: Succ<Hash>, h: Hash, roots: seq<Hash>, x: Hash)
    requires h in m && (forall r :: r in roots ==> r in m[h]) && Reached(m, roots, x)
    ensures Reached(m, [h], x)
  {
    var path :| IsPath(m, roots, path) && path[|path| - 1] == x;
    var longer := [h] + path;
    forall i | 0 <= i < |longer| - 1 ensures longer[i] in m && longer[i + 1] in m[longer[i]] {
      if i > 0 {
        assert longer[i] == path[i - 1] && longer[i + 1] == path[i - 1 + 1];
      }
    }
    assert IsPath(m, [h], longer) && longer[|longer| - 1] == x;
  }

  /** Below the meta-root, references lead to lower ranks. */
  lemma ReachedRank(nodes: Nodes, rank: Rank, h: Hash, x: Hash)
    requires Acyclic(nodes, rank) && h != ROOT && Reached(Kids(nodes), [h], x)
    ensures x != ROOT && rank(x) <= rank(h)
  {
    var m := Kids(nodes);
    var s := set y | y in Successors(m) + {h} && y != ROOT && rank(y) <= rank(h);
    forall y, z | y in s && y in m && z in m[y] ensures z in s {
      assert EdgeOk(nodes[y], y, z, rank);
      assert z in Successors(m);
    }
    ReachedInClosed(m, [h], s, x);
  }

  // ---- removing ----

  /** Removing the roots, everything below what is removed, and nothing unreached, is exact. */
  lemma RemovedExactly(a: Nodes, b: Nodes, roots: seq<Hash>)
    requires Within(b, a)
    requires forall r :: r in roots ==> r !in b
    requires forall x, z :: x in a && x !in b && z in a[x].children ==> z !in b
    requires forall x :: x in a && x !in b ==> Reached(Kids(a), roots, x)
    ensures Removed(a, b, roots)
  {
    var m := Kids(a);
    var s := (Successors(m) + Elems(roots)) - b.Keys;
    forall y, z | y in s && y in m && z in m[y] ensures z in s {
      assert z in Successors(m);
    }
    forall x | x in a && Reached(m, roots, x) ensures x !in b {
      ReachedInClosed(m, roots, s, x);
    }
  }

  lemma NothingRemoved(a: Nodes, roots: seq<Hash>)
    requires forall r :: r in roots ==> r !in a
    ensures Removed(a, a, roots)
  {
    RemovedExactly(a, a, roots);
  }

  /** What is reached once some nodes are gone was reached before. */
  lemma ReachedWithin(a: Nodes, b: Nodes, roots: seq<Hash>, roots': seq<Hash>, x: Hash)
    requires Within(b, a) && Reached(Kids(b), roots, x) && forall r :: r in roots ==> r in roots'
    ensures Reached(Kids(a), roots', x)
  {
    ReachedFewer(Kids(b), Kids(a), roots, roots', x);
  }

  lemma RemovedThen(a: Nodes, b: Nodes, c: Nodes, roots: seq<Hash>, k: Hash)
    requires Removed(a, b, roots) && Removed(b, c, [k])
    ensures Removed(a, c, roots + [k])
  {
    var roots' := roots + [k];
    forall x | x in a && x !in c ensures Reached(Kids(a), roots', x) {
      if x in b {
        ReachedWithin(a, b, [k], roots', x);
      } else {
        ReachedFewer(Kids(a), Kids(a), roots, roots', x);
      }
    }
    forall x, z | x in a && x !in c && z in a[x].children ensures z !in c {
      if x in b {
        ReachedStep(Kids(b), [k], x, z);
      } else {
        ReachedStep(Kids(a), roots, x, z);
      }
    }
    forall r | r in roots' ensures r !in c {
      ReachedIfRoot(a, b, roots, r);
      ReachedIfRoot(b, c, [k], r);
    }
    RemovedExactly(a, c, roots');
  }

  lemma ReachedIfRoot(a: Nodes, b: Nodes, roots: seq<Hash>, r: Hash)
    requires Removed(a, b, roots)
    ensures r in roots ==> r !in b
  {
    if r in roots {
      ReachedRoot(Kids(a), roots, r);
    }
  }

  /** Removing a node after everything below it. */
  lemma RemovedAbove(a: Nodes, b: Nodes, h: Hash, kids: seq<Hash>)
    requires Removed(a, b, kids) && h in a && Elems(kids) == a[h].children.Keys
    ensures Removed(a, b - {h}, [h])
  {
    var c, m := b - {h}, Kids(a);
    forall x | x in a && x !in c ensures Reached(m, [h], x) {
      if x == h {
        ReachedRoot(m, [h], h);
      } else {
        ReachedThrough(m, h, kids, x);
      }
    }
    forall x, z | x in a && x !in c && z in a[x].children ensures z !in c {
      if x == h {
        assert z in Elems(kids);
        ReachedIfRoot(a, b, kids, z);
      } else {
        ReachedStep(m, kids, x, z);
      }
    }
    RemovedExactly(a, c, [h]);
  }

  // ---- safety ----

  /** Removing nodes that are on disk loses no child. */
  lemma {:induction false} RemoveSafe(nodes: Nodes, s: set<Hash>, rank: Rank, disk: map<Hash, Blob>)
    requires Safe(nodes, disk) && Acyclic(nodes, rank) && s <= nodes.Keys && ROOT !in s && s <= disk.Keys
    ensures Safe(nodes - s, disk)
    decreases |s|
  {
    if s == {} {
      assert nodes - s == nodes;
    } else {
      var h :| h in s;
      DeleteSafe(nodes, h, rank, disk);
      DeleteAcyclic(nodes, h, rank);
      RemoveSafe(nodes - {h}, s - {h}, rank, disk);
      assert nodes - {h} - (s - {h}) == nodes - s;
    }
  }

  /** Writing to the disk loses no child. */
  lemma DiskGrowsSafe(nodes: Nodes, disk: map<Hash, Blob>, disk': map<Hash, Blob>)
    requires Safe(nodes, disk) && disk.Keys <= disk'.Keys
    ensures Safe(nodes, disk')
  {
    forall h, c ensures ChildSafe(nodes, disk', h, c) {
      assert ChildSafe(nodes, disk, h, c);
    }
    forall c ensures CountSafe(nodes, disk', c) {
      assert CountSafe(nodes, disk, c);
    }
  }

  // ---- exact collection ----

  ghost function Above(nodes: Nodes, rank: Rank, x: Hash): set<Hash> {
    set n | n in nodes && n != ROOT && rank(n) > rank(x)
  }

  /** Reached in `m` from the meta-root, or from a node that is not referenced. */
  ghost predicate Anchored(nodes: Nodes, m: Succ<Hash>, x: Hash) {
    exists r :: (r == ROOT || Idle(nodes, r)) && Reached(m, [r], x)
  }

  /** With exact counts, following references upwards ends at the meta-root or at an unreferenced node. */
  lemma {:induction false} AllAnchored(nodes: Nodes, rank: Rank, x: Hash)
    requires Acyclic(nodes, rank) && Exact(nodes) && x in nodes
    ensures Anchored(nodes, Kids(nodes), x)
    decreases |if x == ROOT then {} else Above(nodes, rank, x)|, if x == ROOT then 0 else 1
  {
    if x == ROOT || Idle(nodes, x) {
      ReachedRoot(Kids(nodes), [x], x);
    } else {
      assert ExactAt(nodes, x);
      RefsNatural(nodes, rank, x);
      var k := Referrer(nodes, x);
      assert EdgeOk(nodes[k], k, x, rank);
      if k != ROOT {
        assert Above(nodes, rank, k) <= Above(nodes, rank, x);
        assert k in Above(nodes, rank, x) && k !in Above(nodes, rank, k);
        FewerAbove(Above(nodes, rank, k), Above(nodes, rank, x), k);
      }
      AllAnchored(nodes, rank, k);
      var r :| (r == ROOT || Idle(nodes, r)) && Reached(Kids(nodes), [r], k);
      ReachedStep(Kids(nodes), [r], k, x);
    }
  }

  lemma FewerAbove(s: set<Hash>, t: set<Hash>, k: Hash)
    requires s <= t && k in t && k !in s
    ensures |s| < |t|
  {
    var rest := t - s;
    assert t == s + rest && k in rest;
  }

  ghost predicate AllReached(nodes: Nodes) {
    forall x :: x in nodes ==> Reached(Kids(nodes), [ROOT], x)
  }

  /** With exact counts, a cache is reachable throughout exactly if it has no unreferenced node. */
  lemma ReachedIffNoneIdle(nodes: Nodes, rank: Rank)
    requires Acyclic(nodes, rank) && Exact(nodes)
    ensures AllReached(nodes) <==> forall h :: !Idle(nodes, h)
  {
    if AllReached(nodes) {
      forall h ensures !Idle(nodes, h) {
        if h in nodes && h != ROOT {
          var k := Predecessor(Kids(nodes), ROOT, h);
          RefsPositive(nodes, rank, k, h);
          assert ExactAt(nodes, h);
        }
      }
    } else {
      var x :| x in nodes && !Reached(Kids(nodes), [ROOT], x);
      AllAnchored(nodes, rank, x);
    }
  }

  lemma Predecessor(m: Succ<Hash>, r: Hash, x: Hash) returns (k: Hash)
    requires Reached(m, [r], x) && x != r
    ensures k in m && x in m[k]
  {
    var path :| IsPath(m, [r], path) && path[|path| - 1] == x;
    k := path[|path| - 2];
    assert path[|path| - 2] in m && path[|path| - 2 + 1] in m[path[|path| - 2]];
  }
}
