/** The key-value store under ledger and tries, and the batches that write to it. */
module Stores {
  const IDEAL_BATCH_SIZE: nat := 100 * 1024

  /** What a store holds after the pairs have been put in turn. */
  function Apply<K, V>(db: map<K, V>, ws: seq<(K, V)>): map<K, V> {
    if ws == [] then db
    else
      var (k, v) := ws[|ws| - 1];
      Apply(db, ws[..|ws| - 1])[k := v]
  }

  lemma ApplySnoc<K, V>(db: map<K, V>, ws: seq<(K, V)>, k: K, v: V)
    ensures Apply(db, ws + [(k, v)]) == Apply(db, ws)[k := v]
  {
    assert (ws + [(k, v)])[..|ws|] == ws;
  }

  lemma {:induction false} ApplyConcat<K, V>(db: map<K, V>, a: seq<(K, V)>, b: seq<(K, V)>)
    ensures Apply(db, a + b) == Apply(Apply(db, a), b)
  {
    if b == [] {
      assert a + b == a;
    } else {
      ApplyConcat(db, a, b[..|b| - 1]);
      assert (a + b)[..|a + b| - 1] == a + b[..|b| - 1];
    }
  }

  ghost function KeysOf<K, V>(ws: seq<(K, V)>): set<K> {
    set i | 0 <= i < |ws| :: ws[i].0
  }

  lemma KeysSnoc<K, V>(ws: seq<(K, V)>, k: K, v: V)
    ensures KeysOf(ws + [(k, v)]) == KeysOf(ws) + {k}
  {
    var ws' := ws + [(k, v)];
    forall x | x in KeysOf(ws) + {k} ensures x in KeysOf(ws') {
      if x == k {
        assert ws'[|ws|].0 == k;
      } else {
        var i :| 0 <= i < |ws| && ws[i].0 == x;
        assert ws'[i].0 == x;
      }
    }
  }

  lemma {:induction false} ApplyKeys<K, V>(db: map<K, V>, ws: seq<(K, V)>)
    ensures Apply(db, ws).Keys == db.Keys + KeysOf(ws)
  {
    if ws != [] {
      var front, last := ws[..|ws| - 1], ws[|ws| - 1];
      assert ws == front + [(last.0, last.1)];
      ApplyKeys(db, front);
      KeysSnoc(front, last.0, last.1);
    }
  }

  // ---- the order of puts ----

  /** Puts to the same key put the same value. */
  ghost predicate Consistent<K, V>(ws: seq<(K, V)>) {
    forall i, j :: 0 <= i < |ws| && 0 <= j < |ws| && ws[i].0 == ws[j].0 ==> ws[i].1 == ws[j].1
  }

  /** A key holds what was put last, or what it held before. */
  lemma {:induction false} ApplyAt<K, V>(db: map<K, V>, ws: seq<(K, V)>, k: K)
    ensures k !in KeysOf(ws) ==> (k in Apply(db, ws) <==> k in db) && (k in db ==> Apply(db, ws)[k] == db[k])
    ensures k in KeysOf(ws) ==> k in Apply(db, ws) && exists i :: 0 <= i < |ws| && ws[i] == (k, Apply(db, ws)[k])
  {
    if ws != [] {
      var front, last := ws[..|ws| - 1], ws[|ws| - 1];
      ApplyAt(db, front, k);
      assert ws == front + [(last.0, last.1)];
      KeysSnoc(front, last.0, last.1);
      if k == last.0 {
        assert ws[|ws| - 1] == (k, Apply(db, ws)[k]);
      } else if k in KeysOf(ws) {
        var i :| 0 <= i < |front| && front[i] == (k, Apply(db, front)[k]);
        assert ws[i] == (k, Apply(db, ws)[k]);
      }
    }
  }

  /** The last put to a key wins. */
  lemma {:induction false} LastWins<K, V>(db: map<K, V>, ws: seq<(K, V)>, i: nat)
    requires i < |ws| && forall j :: i < j < |ws| ==> ws[j].0 != ws[i].0
    ensures ws[i].0 in Apply(db, ws) && Apply(db, ws)[ws[i].0] == ws[i].1
  {
    if i < |ws| - 1 {
      LastWins(db, ws[..|ws| - 1], i);
    }
  }

  lemma SameKeys<K, V>(ws: seq<(K, V)>, ws': seq<(K, V)>)
    requires multiset(ws) == multiset(ws')
    ensures KeysOf(ws) == KeysOf(ws')
    ensures forall w :: w in ws <==> w in ws'
  {
    assert forall w :: w in ws <==> w in multiset(ws);
    assert forall w :: w in ws' <==> w in multiset(ws');
    forall k ensures k in KeysOf(ws) <==> k in KeysOf(ws') {
      if k in KeysOf(ws) {
        var i :| 0 <= i < |ws| && ws[i].0 == k;
        assert ws[i] in ws';
      }
      if k in KeysOf(ws') {
        var i :| 0 <= i < |ws'| && ws'[i].0 == k;
        assert ws'[i] in ws;
      }
    }
  }

  /** After consistent puts every key that was put holds what was put. */
  lemma PutIsHeld<K, V>(db: map<K, V>, ws: seq<(K, V)>, w: (K, V))
    requires Consistent(ws) && w in ws
    ensures w.0 in Apply(db, ws) && Apply(db, ws)[w.0] == w.1
  {
    var i :| 0 <= i < |ws| && ws[i] == w;
    ApplyAt(db, ws, w.0);
    assert w.0 in KeysOf(ws);
    var j :| 0 <= j < |ws| && ws[j] == (w.0, Apply(db, ws)[w.0]);
  }

  lemma AnyOrder<K, V>(db: map<K, V>, ws: seq<(K, V)>, ws': seq<(K, V)>)
    requires Consistent(ws) && multiset(ws) == multiset(ws')
    ensures Apply(db, ws) == Apply(db, ws')
  {
    SameKeys(ws, ws');
    ApplyKeys(db, ws);
    ApplyKeys(db, ws');
    hide Apply, KeysOf;
    var a, b := Apply(db, ws), Apply(db, ws');
    forall k | k in a ensures a[k] == b[k] {
      ApplyAt(db, ws, k);
      ApplyAt(db, ws', k);
      if k in KeysOf(ws) {
        var i :| 0 <= i < |ws| && ws[i] == (k, a[k]);
        var j :| 0 <= j < |ws'| && ws'[j] == (k, b[k]);
        assert ws'[j] in ws;
      }
    }
  }

  /** The same puts with the `i`-th one last. */
  function Moved<K, V>(ws: seq<(K, V)>, i: nat): seq<(K, V)>
    requires i < |ws|
  {
    ws[..i] + ws[i + 1..] + [ws[i]]
  }

  lemma MovedIs<K, V>(db: map<K, V>, ws: seq<(K, V)>, i: nat)
    requires i < |ws|
    ensures multiset(Moved(ws, i)) == multiset(ws)
    ensures ws[i].0 in Apply(db, Moved(ws, i)) && Apply(db, Moved(ws, i))[ws[i].0] == ws[i].1
  {
    assert ws == ws[..i] + [ws[i]] + ws[i + 1..];
  }

  /** Every order of the puts leaves the same store, exactly when they are consistent. */
  lemma AnyOrderIff<K, V>(db: map<K, V>, ws: seq<(K, V)>)
    ensures (forall ws' :: multiset(ws') == multiset(ws) ==> Apply(db, ws') == Apply(db, ws)) <==> Consistent(ws)
  {
    if Consistent(ws) {
      forall ws' | multiset(ws') == multiset(ws) ensures Apply(db, ws') == Apply(db, ws) {
        AnyOrder(db, ws, ws');
      }
    } else {
      var i, j :| 0 <= i < |ws| && 0 <= j < |ws| && ws[i].0 == ws[j].0 && ws[i].1 != ws[j].1;
      MovedIs(db, ws, i);
      MovedIs(db, ws, j);
      assert Apply(db, Moved(ws, i)) != Apply(db, Moved(ws, j));
    }
  }

  class Batch<K(==), E> {
    var writes: seq<(K, seq<E>)>
    var size: nat

    constructor ()
      ensures writes == [] && size == 0
    {
      writes, size := [], 0;
    }

    method Put(key: K, value: seq<E>)
      modifies this
      ensures writes == old(writes) + [(key, value)] && size == old(size) + |value|
    {
      writes, size := writes + [(key, value)], size + |value|;
    }

    method Reset()
      modifies this
      ensures writes == [] && size == 0
    {
      writes, size := [], 0;
    }

    /** Puts the pairs into the store, in the order in which the batch got them. */
    method Write(db: map<K, seq<E>>) returns (db': map<K, seq<E>>)
      ensures db' == Apply(db, writes)
    {
      db' := db;
      var i := 0;
      while i < |writes|
        invariant 0 <= i <= |writes|
        invariant db' == Apply(db, writes[..i])
      {
        assert writes[..i + 1][..i] == writes[..i];
        db' := db'[writes[i].0 := writes[i].1];
        i := i + 1;
      }
      assert writes[..i] == writes;
    }
  }
}
