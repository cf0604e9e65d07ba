/**
 * Binary min-heaps kept in a sequence, as the nonce heap and the dial history use them
 * (sift up, sift down, push, remove at an index).
 */
module Heaps {

  function Parent(k: int): int {
    (k - 1) / 2
  }

  /** `k` is not smaller than its parent. */
  ghost predicate Below<T>(s: seq<T>, key: T -> int, k: int)
    requires 0 < k < |s|
  {
    key(s[Parent(k)]) <= key(s[k])
  }

  ghost predicate IsHeap<T>(s: seq<T>, key: T -> int) {
    forall k {:trigger Below(s, key, k)} :: 0 < k < |s| ==> Below(s, key, k)
  }

  /** A heap but for the entry at `i` against its parent; its children fit under its parent. */
  ghost predicate UpAt<T>(s: seq<T>, key: T -> int, i: int) {
    && 0 <= i < |s|
    && (forall k {:trigger Below(s, key, k)} :: 0 < k < |s| && k != i ==> Below(s, key, k))
    && (forall c {:trigger Parent(c)} :: 0 < i < c < |s| && Parent(c) == i ==> key(s[Parent(i)]) <= key(s[c]))
  }

  /** A heap but for the entry at `i` against its parent and its children. */
  ghost predicate DownAt<T>(s: seq<T>, key: T -> int, i: int) {
    && 0 <= i < |s|
    && (forall k {:trigger Below(s, key, k)} :: 0 < k < |s| && k != i && Parent(k) != i ==> Below(s, key, k))
    && (forall c {:trigger Parent(c)} :: 0 < i < c < |s| && Parent(c) == i ==> key(s[Parent(i)]) <= key(s[c]))
  }

  function Swap<T>(s: seq<T>, i: int, j: int): seq<T>
    requires 0 <= i < |s| && 0 <= j < |s|
  {
    s[i := s[j]][j := s[i]]
  }

  lemma SwapPermutes<T>(s: seq<T>, i: int, j: int)
    requires 0 <= i < |s| && 0 <= j < |s|
    ensures multiset(Swap(s, i, j)) == multiset(s)
  {
  }

  /** The root of a heap is a smallest entry. */
  lemma {:induction false} RootIsMin<T>(s: seq<T>, key: T -> int, k: int)
    requires IsHeap(s, key) && 0 <= k < |s|
    ensures key(s[0]) <= key(s[k])
    decreases k
  {
    if k > 0 {
      assert Below(s, key, k);
      RootIsMin(s, key, Parent(k));
    }
  }

  /** An ascending sequence is a heap. */
  lemma SortedIsHeap<T>(s: seq<T>, key: T -> int)
    requires forall i, j :: 0 <= i < j < |s| ==> key(s[i]) <= key(s[j])
    ensures IsHeap(s, key)
  {
    forall k | 0 < k < |s| ensures Below(s, key, k) {
      assert 0 <= Parent(k) < k;
    }
  }

  lemma UpStep<T>(s: seq<T>, key: T -> int, j: int)
    requires UpAt(s, key, j) && j > 0 && !Below(s, key, j)
    ensures UpAt(Swap(s, j, Parent(j)), key, Parent(j))
  {
    var i, r := Parent(j), Swap(s, j, Parent(j));
    forall k | 0 < k < |r| && k != i ensures Below(r, key, k) {
      if k == j {
      } else {
        assert Below(s, key, k);
        if Parent(k) == j {
          assert key(s[i]) <= key(s[k]);
        }
      }
    }
    forall c | 0 < i < c < |r| && Parent(c) == i ensures key(r[Parent(i)]) <= key(r[c]) {
      assert Below(s, key, i);
      if c != j {
        assert Below(s, key, c);
      }
    }
  }

  method Up<T>(s: seq<T>, key: T -> int, j0: int) returns (r: seq<T>)
    requires UpAt(s, key, j0)
    ensures IsHeap(r, key) && multiset(r) == multiset(s)
  {
    r := s;
    var j := j0;
    while j > 0 && key(r[j]) < key(r[Parent(j)])
      invariant UpAt(r, key, j) && multiset(r) == multiset(s)
      decreases j
    {
      UpStep(r, key, j);
      SwapPermutes(r, j, Parent(j));
      r, j := Swap(r, j, Parent(j)), Parent(j);
    }
  }

  lemma DownStep<T>(s: seq<T>, key: T -> int, i: int, j: int)
    requires DownAt(s, key, i) && 0 <= i < j < |s| && Parent(j) == i && key(s[j]) < key(s[i])
    requires forall c {:trigger Parent(c)} :: 0 < c < |s| && Parent(c) == i ==> key(s[j]) <= key(s[c])
    ensures DownAt(Swap(s, i, j), key, j) && Below(Swap(s, i, j), key, j)
  {
    var r := Swap(s, i, j);
    forall k | 0 < k < |r| && k != j && Parent(k) != j ensures Below(r, key, k) {
      if k == i {
        assert key(s[Parent(i)]) <= key(s[j]);
      } else if Parent(k) == i {
      } else {
        assert Below(s, key, k);
      }
    }
    forall c | 0 < j < c < |r| && Parent(c) == j ensures key(r[Parent(j)]) <= key(r[c]) {
      assert Below(s, key, c);
    }
  }

  method Down<T>(s: seq<T>, key: T -> int, i0: int) returns (r: seq<T>, moved: bool)
    requires DownAt(s, key, i0)
    ensures multiset(r) == multiset(s) && |r| == |s|
    ensures moved ==> IsHeap(r, key)
    ensures !moved ==> UpAt(r, key, i0)
  {
    r := s;
    var i := i0;
    while 2 * i + 1 < |r|
      invariant DownAt(r, key, i) && multiset(r) == multiset(s) && |r| == |s| && i0 <= i
      invariant i != i0 ==> 0 < i && Below(r, key, i)
      decreases |r| - i
    {
      var j := 2 * i + 1;
      if j + 1 < |r| && key(r[j + 1]) < key(r[j]) {
        j := j + 1;
      }
      assert forall c {:trigger Parent(c)} :: 0 < c < |r| && Parent(c) == i ==> c == 2 * i + 1 || c == 2 * i + 2;
      if key(r[j]) >= key(r[i]) {
        break;
      }
      DownStep(r, key, i, j);
      SwapPermutes(r, i, j);
      r, i := Swap(r, i, j), j;
    }
    moved := i > i0;
    forall k | 0 < k < |r| && k != i ensures Below(r, key, k) {
      assert Parent(k) == i ==> k == 2 * i + 1 || k == 2 * i + 2;
    }
  }

  method Push<T>(s: seq<T>, key: T -> int, x: T) returns (r: seq<T>)
    requires IsHeap(s, key)
    ensures IsHeap(r, key) && multiset(r) == multiset(s) + multiset{x}
  {
    var t := s + [x];
    forall k | 0 < k < |t| && k != |s| ensures Below(t, key, k) {
      assert Below(s, key, k);
    }
    r := Up(t, key, |s|);
  }

  lemma DropLastDownAt<T>(s: seq<T>, key: T -> int, i: int)
    requires IsHeap(s, key) && 0 <= i < |s| - 1
    ensures DownAt(Swap(s, i, |s| - 1)[..|s| - 1], key, i)
  {
    var n := |s| - 1;
    var r := Swap(s, i, n)[..n];
    forall k | 0 < k < |r| && k != i && Parent(k) != i ensures Below(r, key, k) {
      assert Below(s, key, k);
    }
    forall c | 0 < i < c < |r| && Parent(c) == i ensures key(r[Parent(i)]) <= key(r[c]) {
      assert Below(s, key, c) && Below(s, key, i);
    }
  }

  method RemoveAt<T>(s: seq<T>, key: T -> int, i: int) returns (r: seq<T>)
    requires IsHeap(s, key) && 0 <= i < |s|
    ensures IsHeap(r, key) && multiset(r) == multiset(s) - multiset{s[i]} && |r| == |s| - 1
  {
    var n := |s| - 1;
    var t := Swap(s, i, n);
    SwapPermutes(s, i, n);
    assert t == t[..n] + [s[i]];
    r := t[..n];
    if i < n {
      DropLastDownAt(s, key, i);
      var moved;
      r, moved := Down(r, key, i);
      if !moved {
        r := Up(r, key, i);
      }
    } else {
      forall k | 0 < k < |r| ensures Below(r, key, k) {
        assert Below(s, key, k);
      }
    }
    assert |r| == |multiset(r)|;
  }
}

/** The nonce-ordered transaction list of an account flow. */
module TxLists {
  import opened Types
  import opened Heaps
  import opened Sorting

  function Key(): nat -> int {
    (n: nat) => n
  }

  lemma OneKeyLess(keys: seq<nat>, m: map<nat, Tx>, n: nat)
    requires n in m && multiset(keys) == multiset(m.Keys)
    ensures multiset(keys)[n] == 1 && multiset(keys) - multiset{n} == multiset((m - {n}).Keys)
  {
    assert (m - {n}).Keys == m.Keys - {n};
  }

  /** Sorted, without repetition. */
  ghost predicate Sorted(s: seq<nat>) {
    forall i, j :: 0 <= i < j < |s| ==> s[i] < s[j]
  }

  lemma OnceEach<T>(s: seq<T>, e: set<T>)
    requires multiset(s) == multiset(e)
    ensures Lists(s, e) && |s| == |e|
  {
    assert |multiset(s)| == |s| && |multiset(e)| == |e|;
    forall i, j | 0 <= i < j < |s| ensures s[i] != s[j] {
      assert s == s[..j] + [s[j]] + s[j + 1..];
      assert s[i] in s[..j] && s[i] in multiset(s[..j]);
      assert multiset(s)[s[j]] <= 1;
    }
    forall x ensures x in Elems(s) <==> x in e {
      assert x in multiset(s) <==> x in multiset(e);
    }
  }

  /** A heap of nonces has the smallest one in front. */
  lemma SmallestFirst(keys: seq<nat>, nonces: set<nat>, n: nat)
    requires IsHeap(keys, Key()) && multiset(keys) == multiset(nonces) && n in nonces
    ensures keys != [] && keys[0] in nonces && keys[0] <= n
  {
    hide IsHeap;
    OnceEach(keys, nonces);
    assert n in Elems(keys) && keys[0] in Elems(keys);
    var k :| 0 <= k < |keys| && keys[k] == n;
    RootIsMin(keys, Key(), k);
  }

  /** Removes every entry equal to `nonce`, from the front to the back, of keys that hold it once. */
  method Scan(keys: seq<nat>, nonce: nat) returns (r: seq<nat>)
    requires IsHeap(keys, Key()) && multiset(keys)[nonce] == 1
    ensures IsHeap(r, Key()) && multiset(r) == multiset(keys) - multiset{nonce}
  {
    hide IsHeap;
    r := keys;
    assert nonce in multiset(keys) && keys[0..] == keys;
    ghost var gone := false;
    var i := 0;
    while i < |r|
      invariant 0 <= i && IsHeap(r, Key())
      invariant gone ==> multiset(r) == multiset(keys) - multiset{nonce}
      invariant !gone ==> r == keys && i < |keys| && nonce in keys[i..]
      decreases |r| - i
    {
      if r[i] == nonce {
        assert nonce in multiset(r);
        r := RemoveAt(r, Key(), i);
        gone := true;
      }
      i := i + 1;
    }
  }

  class TxList {
    var keys: seq<nat>
    var txflow: map<nat, Tx>

    /** The keys form a heap that holds every nonce of the flow exactly once. */
    ghost predicate Valid()
      reads this
    {
      && IsHeap(keys, Key())
      && multiset(keys) == multiset(txflow.Keys)
      && forall n :: n in txflow ==> txflow[n].nonce == n
    }

    constructor ()
      ensures Valid() && txflow == map[]
    {
      keys, txflow := [], map[];
    }

    method Len() returns (n: nat)
      requires Valid()
      ensures n == |txflow|
    {
      assert |multiset(keys)| == |keys|;
      assert |multiset(txflow.Keys)| == |txflow.Keys|;
      n := |keys|;
    }

    /** A nonce that is already taken is dropped silently. */
    method Put(tx: Tx)
      requires Valid()
      modifies this
      ensures Valid()
      ensures txflow == if tx.nonce in old(txflow) then old(txflow) else old(txflow)[tx.nonce := tx]
    {
      if tx.nonce !in txflow {
        keys := Push(keys, Key(), tx.nonce);
        assert multiset(txflow.Keys) + multiset{tx.nonce} == multiset(txflow.Keys + {tx.nonce});
        txflow := txflow[tx.nonce := tx];
        assert txflow.Keys == old(txflow.Keys) + {tx.nonce};
      }
    }

    /** The scan goes on after the removal; the nonce occurs once, so nothing else is removed. */
    method Remove(nonce: nat) returns (found: bool)
      requires Valid()
      modifies this
      ensures Valid() && found == (nonce in old(txflow)) && txflow == old(txflow) - {nonce}
    {
      hide IsHeap;
      found := nonce in txflow;
      if !found {
        assert txflow - {nonce} == txflow;
        return;
      }
      OneKeyLess(keys, txflow, nonce);
      keys := Scan(keys, nonce);
      txflow := txflow - {nonce};
    }

    /** Sorts the keys in place. */
    method SortKeys()
      requires Valid()
      modifies this`keys
      ensures Valid() && Sorted(keys) && Lists(keys, txflow.Keys) && |keys| == |txflow|
    {
      keys := Sort(keys, AtMost());
      SortedIsHeap(keys, Key());
      OnceEach(keys, txflow.Keys);
      forall i, j | 0 <= i < j < |keys| ensures keys[i] < keys[j] {
        assert AtMost()(keys[i], keys[j]);
      }
    }

    /** Sorts the keys in place and returns the last one. */
    method LatestNonce() returns (ok: bool, latest: nat)
      requires Valid()
      modifies this`keys
      ensures Valid() && ok == (txflow != map[])
      ensures ok ==> latest in txflow && forall n :: n in txflow ==> n <= latest
    {
      hide IsHeap;
      OnceEach(keys, txflow.Keys);
      if |keys| == 0 {
        return false, 0;
      }
      SortKeys();
      latest := keys[|keys| - 1];
      assert latest in Elems(keys);
      forall n | n in txflow ensures n <= latest {
        assert n in Elems(keys);
        var i :| 0 <= i < |keys| && keys[i] == n;
      }
      ok := true;
    }
  }
}
