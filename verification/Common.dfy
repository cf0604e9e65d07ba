/** Sums of integer weights over finite sets. */
module Sums {

  ghost function Pick<T>(s: set<T>): T
    requires s != {}
  {
    var x :| x in s; x
  }

  ghost function Sum<T>(s: set<T>, f: T -> int): int
    decreases |s|
  {
    if s == {} then 0 else
      var x := Pick(s);
      f(x) + Sum(s - {x}, f)
  }

  /** The order in which elements are picked does not matter. */
  lemma {:induction false} SumRemove<T>(s: set<T>, f: T -> int, x: T)
    requires x in s
    ensures Sum(s, f) == f(x) + Sum(s - {x}, f)
    decreases |s|
  {
    var y := Pick(s);
    if y != x {
      SumRemove(s - {y}, f, x);
      SumRemove(s - {x}, f, y);
      assert s - {x} - {y} == s - {y} - {x};
    }
  }

  lemma SumAdd<T>(s: set<T>, f: T -> int, x: T)
    requires x !in s
    ensures Sum(s + {x}, f) == Sum(s, f) + f(x)
  {
    SumRemove(s + {x}, f, x);
    assert s + {x} - {x} == s;
  }

  lemma {:induction false} SumEq<T>(s: set<T>, f: T -> int, g: T -> int)
    requires forall x :: x in s ==> f(x) == g(x)
    ensures Sum(s, f) == Sum(s, g)
    decreases |s|
  {
    if s != {} {
      SumEq(s - {Pick(s)}, f, g);
    }
  }

  /** Dropping elements of non-negative weight cannot raise the sum. */
  lemma {:induction false} SumSubset<T>(s: set<T>, t: set<T>, f: T -> int)
    requires s <= t
    requires forall x :: x in t - s ==> f(x) >= 0
    ensures Sum(s, f) <= Sum(t, f)
    decreases |t|
  {
    if t - s != {} {
      var x := Pick(t - s);
      SumRemove(t, f, x);
      assert |t - {x}| < |t|;
      SumSubset(s, t - {x}, f);
    } else {
      assert s == t;
    }
  }

  lemma {:induction false} SumNonneg<T>(s: set<T>, f: T -> int)
    requires forall x :: x in s ==> f(x) >= 0
    ensures Sum(s, f) >= 0
  {
    SumSubset({}, s, f);
  }

  /** A sum of non-negative weights bounds each of them. */
  lemma SumMember<T>(s: set<T>, f: T -> int, x: T)
    requires x in s
    requires forall y :: y in s ==> f(y) >= 0
    ensures f(x) <= Sum(s, f)
  {
    SumRemove(s, f, x);
    SumNonneg(s - {x}, f);
  }
}

/**
 * Directed graphs given by an expansion map: a node that is a key can be
 * expanded into its successors, any other node is a leaf.
 */
module Graph {
  import opened Types

  type Succ<T(==)> = map<T, set<T>>

  /** `path` starts in `roots`, and every node but the last is expanded into the next one. */
  ghost predicate IsPath<T>(m: Succ<T>, roots: seq<T>, path: seq<T>) {
    && path != []
    && path[0] in roots
    && forall i :: 0 <= i < |path| - 1 ==> path[i] in m && path[i + 1] in m[path[i]]
  }

  ghost predicate Reached<T(!new)>(m: Succ<T>, roots: seq<T>, x: T) {
    exists path :: IsPath(m, roots, path) && path[|path| - 1] == x
  }

  ghost predicate Closed<T>(m: Succ<T>, s: set<T>) {
    forall x, y :: x in s && x in m && y in m[x] ==> y in s
  }

  lemma ReachedRoot<T(!new)>(m: Succ<T>, roots: seq<T>, x: T)
    requires x in roots
    ensures Reached(m, roots, x)
  {
    assert IsPath(m, roots, [x]);
  }

  lemma ReachedStep<T(!new)>(m: Succ<T>, roots: seq<T>, x: T, y: T)
    requires Reached(m, roots, x) && x in m && y in m[x]
    ensures Reached(m, roots, y)
  {
    var path :| IsPath(m, roots, path) && path[|path| - 1] == x;
    var longer := path + [y];
    assert IsPath(m, roots, longer) && longer[|longer| - 1] == y;
  }

  /** A closed set that holds the roots holds everything reached. */
  lemma ReachedInClosed<T(!new)>(m: Succ<T>, roots: seq<T>, s: set<T>, x: T)
    requires forall r :: r in roots ==> r in s
    requires Closed(m, s)
    requires Reached(m, roots, x)
    ensures x in s
  {
    var path :| IsPath(m, roots, path) && path[|path| - 1] == x;
    PathInClosed(m, roots, s, path);
  }

  lemma {:induction false} PathInClosed<T>(m: Succ<T>, roots: seq<T>, s: set<T>, path: seq<T>)
    requires forall r :: r in roots ==> r in s
    requires Closed(m, s)
    requires IsPath(m, roots, path)
    ensures path[|path| - 1] in s
    decreases |path|
  {
    if |path| > 1 {
      var shorter := path[..|path| - 1];
      assert IsPath(m, roots, shorter);
      PathInClosed(m, roots, s, shorter);
      assert path[|path| - 2] in m && path[|path| - 2 + 1] in m[path[|path| - 2]];
    }
  }

  // ---- worklist searches ----

  /**
   * State of a worklist search: `done` was taken off the list, `marked` was put on it because a
   * predecessor was expanded. The roots are on the list without being marked.
   */
  ghost predicate Searching<T(!new)>(m: Succ<T>, roots: seq<T>, queue: seq<T>, marked: set<T>, done: set<T>) {
    && (forall x :: x in queue || x in done ==> Reached(m, roots, x))
    && (forall x :: x in roots || x in marked ==> x in done || x in queue)
    && (forall x, y :: x in done && x in m && y in m[x] ==> y in marked)
    && marked <= Successors(m)
  }

  ghost function Successors<T>(m: Succ<T>): set<T> {
    set x, y | x in m && y in m[x] :: y
  }

  lemma SearchStarts<T(!new)>(m: Succ<T>, roots: seq<T>)
    ensures Searching(m, roots, roots, {}, {})
  {
    forall x | x in roots ensures Reached(m, roots, x) {
      ReachedRoot(m, roots, x);
    }
  }

  /** Taking a leaf off the list. */
  lemma SearchSkips<T(!new)>(m: Succ<T>, roots: seq<T>, queue: seq<T>, marked: set<T>, done: set<T>)
    requires Searching(m, roots, queue, marked, done) && queue != [] && queue[0] !in m
    ensures Searching(m, roots, queue[1..], marked, done + {queue[0]})
  {
    assert queue == [queue[0]] + queue[1..];
  }

  /** Taking a node off the list that was taken off before. */
  lemma SearchRepeats<T(!new)>(m: Succ<T>, roots: seq<T>, queue: seq<T>, marked: set<T>, done: set<T>)
    requires Searching(m, roots, queue, marked, done) && queue != [] && queue[0] in done
    ensures Searching(m, roots, queue[1..], marked, done)
  {
    assert queue == [queue[0]] + queue[1..];
  }

  /** Taking a node off the list and putting its unmarked successors on it. */
  lemma SearchExpands<T(!new)>(m: Succ<T>, roots: seq<T>, queue: seq<T>, marked: set<T>, done: set<T>, queue': seq<T>)
    requires Searching(m, roots, queue, marked, done) && queue != [] && queue[0] in m
    requires forall x :: x in queue' <==> x in queue[1..] || (x in m[queue[0]] && x !in marked)
    ensures Searching(m, roots, queue', marked + m[queue[0]], done + {queue[0]})
  {
    assert queue == [queue[0]] + queue[1..];
    assert Reached(m, roots, queue[0]);
    forall x | x in m[queue[0]] ensures Reached(m, roots, x) {
      ReachedStep(m, roots, queue[0], x);
    }
  }

  lemma HeadReached<T(!new)>(m: Succ<T>, roots: seq<T>, queue: seq<T>, marked: set<T>, done: set<T>)
    requires Searching(m, roots, queue, marked, done) && queue != []
    ensures Reached(m, roots, queue[0])
  {
  }

  /** An empty list means that exactly the reached nodes were taken off it. */
  lemma SearchEnds<T(!new)>(m: Succ<T>, roots: seq<T>, marked: set<T>, done: set<T>)
    requires Searching(m, roots, [], marked, done)
    ensures forall x :: Reached(m, roots, x) <==> x in done
  {
    forall x | Reached(m, roots, x) ensures x in done {
      ReachedInClosed(m, roots, done, x);
    }
  }

  /** Marking more leaves less to mark: searches end. */
  lemma ShrinkingRest<T>(all: set<T>, marked: set<T>, marked': set<T>)
    requires marked <= marked' <= all
    ensures marked' == marked || |all - marked'| < |all - marked|
  {
    var rest, rest' := all - marked, all - marked';
    assert rest == rest' + (marked' - marked);
    assert marked' == marked + (marked' - marked);
  }

  /** Appends the successors that were not marked yet, and marks them. */
  method Enqueue<T(==)>(queue: seq<T>, marked: set<T>, next: seq<T>) returns (queue': seq<T>, marked': set<T>)
    ensures forall x :: x in queue' <==> x in queue || (x in next && x !in marked)
    ensures marked' == marked + Elems(next)
    ensures marked' == marked ==> queue' == queue
  {
    queue', marked' := queue, marked;
    var i := 0;
    while i < |next|
      invariant 0 <= i <= |next|
      invariant forall x :: x in queue' <==> x in queue || (x in next[..i] && x !in marked)
      invariant marked' == marked + Elems(next[..i])
      invariant marked' == marked ==> queue' == queue
    {
      assert next[..i + 1] == next[..i] + [next[i]];
      if next[i] !in marked' {
        queue', marked' := queue' + [next[i]], marked' + {next[i]};
      }
      i := i + 1;
    }
    assert next[..i] == next;
  }

  /** One turn of a search that expands the head of the list into `next`. */
  method Expand<T(==, !new)>(queue: seq<T>, marked: set<T>, next: seq<T>, ghost m: Succ<T>, ghost roots: seq<T>,
      ghost done: set<T>)
    returns (queue': seq<T>, marked': set<T>)
    requires Searching(m, roots, queue, marked, done) && queue != [] && queue[0] in m && m[queue[0]] == Elems(next)
    ensures Searching(m, roots, queue', marked', done + {queue[0]})
    ensures |Successors(m) - marked'| < |Successors(m) - marked| || (marked' == marked && queue' == queue[1..])
  {
    queue', marked' := Enqueue(queue[1..], marked, next);
    SearchExpands(m, roots, queue, marked, done, queue');
    ShrinkingRest(Successors(m), marked, marked');
  }

  /**
   * Breadth-first search with the roots left unmarked: finds exactly the nodes reached, and fails
   * exactly when something reached is neither a node nor a known leaf.
   */
  method Explore<T(==, !new), V>(nodes: map<T, V>, next: V -> seq<T>, leaves: set<T>, roots: seq<T>, ghost m: Succ<T>)
    returns (ok: bool, found: map<T, V>)
    requires m.Keys == nodes.Keys && forall x :: x in nodes ==> m[x] == Elems(next(nodes[x]))
    ensures ok <==> forall x :: Reached(m, roots, x) ==> x in nodes || x in leaves
    ensures ok ==> forall x :: x in found <==> x in nodes && Reached(m, roots, x)
    ensures ok ==> forall x :: x in found ==> found[x] == nodes[x]
  {
    hide Searching, Reached, Successors;
    found := map[];
    var queue, marked := roots, {};
    ghost var done := {};
    SearchStarts(m, roots);
    while queue != []
      invariant Searching(m, roots, queue, marked, done)
      invariant forall x :: x in done ==> x in nodes || x in leaves
      invariant forall x :: x in found <==> x in nodes && x in done
      invariant forall x :: x in found ==> found[x] == nodes[x]
      decreases |Successors(m) - marked|, |queue|
    {
      var x := queue[0];
      if x !in nodes {
        if x !in leaves {
          HeadReached(m, roots, queue, marked, done);
          return false, map[];
        }
        SearchSkips(m, roots, queue, marked, done);
        queue := queue[1..];
      } else {
        if x !in found {
          found := found[x := nodes[x]];
        }
        queue, marked := Expand(queue, marked, next(nodes[x]), m, roots, done);
      }
      done := done + {x};
    }
    SearchEnds(m, roots, marked, done);
    ok := true;
  }
}

/** Sorting by a total order. */
module Sorting {

  ghost predicate TotalOrder<T(!new)>(le: (T, T) -> bool) {
    && (forall x, y :: le(x, y) || le(y, x))
    && (forall x, y, z :: le(x, y) && le(y, z) ==> le(x, z))
  }

  ghost predicate Ascending<T>(s: seq<T>, le: (T, T) -> bool) {
    forall i, j :: 0 <= i < j < |s| ==> le(s[i], s[j])
  }

  lemma InsertedAt<T(!new)>(s: seq<T>, le: (T, T) -> bool, k: nat, x: T)
    requires Ascending(s, le) && k <= |s|
    requires (forall j :: 0 <= j < k ==> le(s[j], x)) && (forall j :: k <= j < |s| ==> le(x, s[j]))
    ensures Ascending(s[..k] + [x] + s[k..], le)
    ensures multiset(s[..k] + [x] + s[k..]) == multiset(s) + multiset{x}
  {
    var r := s[..k] + [x] + s[k..];
    assert forall j :: 0 <= j < |r| ==> r[j] == if j < k then s[j] else if j == k then x else s[j - 1];
    assert multiset(s[..k] + s[k..]) == multiset(s) by {
      assert s == s[..k] + s[k..];
    }
  }

  method Insert<T(!new)>(s: seq<T>, le: (T, T) -> bool, x: T) returns (r: seq<T>)
    requires TotalOrder(le) && Ascending(s, le)
    ensures Ascending(r, le) && multiset(r) == multiset(s) + multiset{x}
  {
    var k := |s|;
    while k > 0 && !le(s[k - 1], x)
      invariant 0 <= k <= |s| && forall j :: k <= j < |s| ==> le(x, s[j])
    {
      k := k - 1;
    }
    r := s[..k] + [x] + s[k..];
    InsertedAt(s, le, k, x);
  }

  method Sort<T(!new)>(s: seq<T>, le: (T, T) -> bool) returns (r: seq<T>)
    requires TotalOrder(le)
    ensures Ascending(r, le) && multiset(r) == multiset(s)
  {
    r := [];
    var i := 0;
    while i < |s|
      invariant 0 <= i <= |s| && Ascending(r, le) && multiset(r) == multiset(s[..i])
    {
      r := Insert(r, le, s[i]);
      assert s[..i + 1] == s[..i] + [s[i]];
      i := i + 1;
    }
    assert s[..i] == s;
  }

  function AtMost(): (nat, nat) -> bool {
    (x: nat, y: nat) => x <= y
  }
}
