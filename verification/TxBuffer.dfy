/** The orphan buffer as a value: who waits for whom, and what releasing one transaction changes. */
module Orphans {
  import opened Types

  type Deps = map<Hash, map<Hash, Tx>>
  type Known = map<Hash, Tx>

  ghost predicate AllLocal(tx: Tx, local: set<Hash>) {
    forall p :: p in tx.parents ==> p in local
  }

  // ---- the invariant ----

  ghost predicate WaitsOn(dep: Deps, local: set<Hash>, tx: Tx, p: Hash) {
    p in local || (p in dep && tx.hash in dep[p] && dep[p][tx.hash] == tx)
  }

  ghost predicate Waiting(dep: Deps, local: set<Hash>, h: Hash, tx: Tx) {
    tx.hash == h && h !in local && forall p :: p in tx.parents ==> WaitsOn(dep, local, tx, p)
  }

  ghost predicate EntryOk(known: Known, k: Hash, h: Hash, tx: Tx) {
    tx.hash == h && h in known && known[h] == tx && (k == h || k in tx.parents)
  }

  /** Dependency keys are missing, buffered transactions wait on each missing parent, and only they wait. */
  ghost predicate DepsOk(dep: Deps, known: Known, local: set<Hash>) {
    && (forall k :: k in dep ==> k !in local)
    && (forall h :: h in known ==> Waiting(dep, local, h, known[h]))
    && (forall k, h :: k in dep && h in dep[k] ==> EntryOk(known, k, h, dep[k][h]))
  }

  /** Every buffered transaction has an entry of its own. */
  ghost predicate SelfOk(dep: Deps, known: Known) {
    forall h :: h in known ==> h in dep && h in dep[h]
  }

  /** Buffered transactions whose parents are all local are still to be tried. */
  ghost predicate Todo(known: Known, local: set<Hash>, todo: set<Tx>) {
    forall h :: h in known && AllLocal(known[h], local) ==> known[h] in todo
  }

  /** Buffered, or released with all parents local. */
  ghost predicate Settled(known: Known, local: set<Hash>, tx: Tx) {
    if tx.hash in known then known[tx.hash] == tx else AllLocal(tx, local)
  }

  /** What a cascade may change: transactions leave the buffer once their parents are local. */
  ghost predicate Later(known: Known, local: set<Hash>, known': Known, local': set<Hash>) {
    && local <= local'
    && (forall h :: h in known' ==> h in known && known'[h] == known[h])
    && (forall h :: h in known && h !in known' ==> AllLocal(known[h], local'))
  }

  lemma LaterSettled(known: Known, local: set<Hash>, known': Known, local': set<Hash>, tx: Tx)
    requires Later(known, local, known', local') && Settled(known, local, tx)
    ensures Settled(known', local', tx)
  {
  }

  lemma LaterLater(known: Known, local: set<Hash>, known1: Known, local1: set<Hash>, known2: Known, local2: set<Hash>)
    requires Later(known, local, known1, local1) && Later(known1, local1, known2, local2)
    ensures Later(known, local, known2, local2)
  {
    forall h | h in known && h !in known2 ensures AllLocal(known[h], local2) {
      assert h in known1 ==> known1[h] == known[h];
    }
  }

  // ---- waiting ----

  /** `tx` has been put under each of `ks`, and nothing else has changed. */
  ghost predicate Registered(dep: Deps, dep': Deps, tx: Tx, ks: set<Hash>) {
    && (forall k :: k in dep' <==> k in dep || k in ks)
    && (forall k :: k in ks ==> tx.hash in dep'[k] && dep'[k][tx.hash] == tx)
    && (forall k, h :: k in dep && h in dep[k] && h != tx.hash ==> h in dep'[k] && dep'[k][h] == dep[k][h])
    && (forall k, h :: k in dep' && h in dep'[k] && (h != tx.hash || k !in ks) ==>
      k in dep && h in dep[k] && dep[k][h] == dep'[k][h])
    && (forall k :: k in dep && k !in ks ==> dep'[k] == dep[k])
  }

  lemma RegisteredBoth(dep: Deps, dep1: Deps, dep2: Deps, tx: Tx, ks: set<Hash>, k: Hash)
    requires Registered(dep, dep1, tx, ks) && Registered(dep1, dep2, tx, {k})
    ensures Registered(dep, dep2, tx, ks + {k})
  {
  }

  ghost function Missing(tx: Tx, local: set<Hash>): set<Hash> {
    set p | p in tx.parents && p !in local
  }

  lemma MissingIs(tx: Tx, local: set<Hash>)
    ensures Missing(tx, local) != {} <==> exists p :: p in tx.parents && p !in local
  {
    forall p | p in tx.parents && p !in local ensures p in Missing(tx, local) {
    }
    assert Missing(tx, local) != {} ==> exists p :: p in Missing(tx, local);
  }

  lemma StillWaiting(dep: Deps, dep': Deps, local: set<Hash>, tx: Tx, ks: set<Hash>, h: Hash, t: Tx)
    requires Registered(dep, dep', tx, ks) && Waiting(dep, local, h, t) && h != tx.hash
    ensures Waiting(dep', local, h, t)
  {
    forall p | p in t.parents ensures WaitsOn(dep', local, t, p) {
      assert WaitsOn(dep, local, t, p);
    }
  }

  lemma NowWaiting(dep: Deps, dep': Deps, local: set<Hash>, tx: Tx)
    requires Registered(dep, dep', tx, Missing(tx, local) + {tx.hash}) && tx.hash !in local
    ensures Waiting(dep', local, tx.hash, tx)
  {
    forall p | p in tx.parents ensures WaitsOn(dep', local, tx, p) {
      assert p !in local ==> p in Missing(tx, local) + {tx.hash};
    }
  }

  lemma EntriesRegistered(dep: Deps, dep': Deps, known: Known, local: set<Hash>, tx: Tx, k: Hash, h: Hash)
    requires DepsOk(dep, known, local) && tx.hash !in known
    requires Registered(dep, dep', tx, Missing(tx, local) + {tx.hash}) && k in dep' && h in dep'[k]
    ensures EntryOk(known[tx.hash := tx], k, h, dep'[k][h])
  {
    if h != tx.hash || k !in Missing(tx, local) + {tx.hash} {
      assert EntryOk(known, k, h, dep[k][h]);
    }
  }

  lemma SelfRegistered(dep: Deps, dep': Deps, known: Known, tx: Tx, ks: set<Hash>)
    requires Registered(dep, dep', tx, ks) && SelfOk(dep, known) && tx.hash !in known && tx.hash in ks
    ensures SelfOk(dep', known[tx.hash := tx])
  {
  }

  lemma KeysRegistered(dep: Deps, dep': Deps, known: Known, local: set<Hash>, tx: Tx)
    requires DepsOk(dep, known, local) && Registered(dep, dep', tx, Missing(tx, local) + {tx.hash}) && tx.hash !in local
    ensures forall k :: k in dep' ==> k !in local
  {
  }

  /** A new transaction with missing parents, put under each of them and under itself, waits. */
  lemma StartsWaiting(dep: Deps, dep': Deps, known: Known, local: set<Hash>, tx: Tx)
    requires DepsOk(dep, known, local) && SelfOk(dep, known) && Todo(known, local, {})
    requires tx.hash !in known && tx.hash !in local && Missing(tx, local) != {}
    requires Registered(dep, dep', tx, Missing(tx, local) + {tx.hash})
    ensures DepsOk(dep', known[tx.hash := tx], local) && SelfOk(dep', known[tx.hash := tx])
    ensures Todo(known[tx.hash := tx], local, {})
  {
    hide EntryOk, Waiting, Registered, SelfOk;
    var known', ks := known[tx.hash := tx], Missing(tx, local) + {tx.hash};
    SelfRegistered(dep, dep', known, tx, ks);
    KeysRegistered(dep, dep', known, local, tx);
    NowWaiting(dep, dep', local, tx);
    forall h | h in known ensures Waiting(dep', local, h, known[h]) {
      StillWaiting(dep, dep', local, tx, ks, h, known[h]);
    }
    forall k, h | k in dep' && h in dep'[k] ensures EntryOk(known', k, h, dep'[k][h]) {
      EntriesRegistered(dep, dep', known, local, tx, k, h);
    }
    var p :| p in Missing(tx, local);
    assert !AllLocal(tx, local);
  }

  // ---- releasing ----

  /** Releasing a transaction makes ready only transactions that wait on it. */
  lemma Released(dep: Deps, known: Known, local: set<Hash>, tx: Tx, todo: set<Tx>)
    requires DepsOk(dep, known, local) && SelfOk(dep, known - {tx.hash}) && AllLocal(tx, local)
    requires (tx.hash in known ==> known[tx.hash] == tx) && Todo(known, local, todo + {tx})
    ensures DepsOk(dep - {tx.hash}, known - {tx.hash}, local + {tx.hash})
    ensures SelfOk(dep - {tx.hash}, known - {tx.hash})
    ensures Later(known, local, known - {tx.hash}, local + {tx.hash})
    ensures Todo(known - {tx.hash}, local + {tx.hash},
      if tx.hash in dep then todo + (dep[tx.hash] - {tx.hash}).Values else todo)
  {
    var dep', known', local' := dep - {tx.hash}, known - {tx.hash}, local + {tx.hash};
    forall h | h in known' ensures Waiting(dep', local', h, known'[h]) {
      assert Waiting(dep, local, h, known[h]);
      forall p | p in known[h].parents ensures WaitsOn(dep', local', known[h], p) {
        assert WaitsOn(dep, local, known[h], p);
      }
    }
    forall k, h | k in dep' && h in dep'[k] ensures EntryOk(known', k, h, dep'[k][h]) {
      assert EntryOk(known, k, h, dep[k][h]);
    }
    forall h | h in known' && AllLocal(known'[h], local')
      ensures known'[h] in if tx.hash in dep then todo + (dep[tx.hash] - {tx.hash}).Values else todo
    {
      if !AllLocal(known[h], local) {
        NewlyReady(dep, known, local, tx, h);
      }
    }
  }

  lemma NewlyReady(dep: Deps, known: Known, local: set<Hash>, tx: Tx, h: Hash)
    requires DepsOk(dep, known, local) && h in known && h != tx.hash
    requires AllLocal(known[h], local + {tx.hash}) && !AllLocal(known[h], local)
    ensures tx.hash in dep && h in dep[tx.hash] && dep[tx.hash][h] == known[h]
    ensures known[h] in (dep[tx.hash] - {tx.hash}).Values
  {
    assert tx.hash in known[h].parents && tx.hash !in local;
    assert Waiting(dep, local, h, known[h]) && WaitsOn(dep, local, known[h], tx.hash);
    assert h in dep[tx.hash] - {tx.hash};
  }

  /** Without a dependency entry for any parent, all parents are local. */
  lemma NothingMissing(dep: Deps, known: Known, local: set<Hash>, tx: Tx)
    requires DepsOk(dep, known, local) && Settled(known, local, tx)
    requires forall p :: p in tx.parents ==> p !in dep
    ensures AllLocal(tx, local)
  {
    if tx.hash in known {
      assert Waiting(dep, local, tx.hash, tx);
      forall p | p in tx.parents ensures p in local {
        assert WaitsOn(dep, local, tx, p);
      }
    }
  }

  // ---- what the pool was given ----

  ghost function Added(adds: seq<Tx>): set<Hash> {
    set i | 0 <= i < |adds| :: adds[i].hash
  }

  /** The local transactions are the initial ones and those added, each after all its parents. */
  ghost predicate LogOk(initial: set<Hash>, adds: seq<Tx>, local: set<Hash>) {
    && local == initial + Added(adds)
    && forall i :: 0 <= i < |adds| ==> AllLocal(adds[i], initial + Added(adds[..i]))
  }

  lemma LogSnoc(initial: set<Hash>, adds: seq<Tx>, local: set<Hash>, tx: Tx)
    requires LogOk(initial, adds, local) && AllLocal(tx, local)
    ensures LogOk(initial, adds + [tx], local + {tx.hash})
  {
    var adds' := adds + [tx];
    forall x | x in Added(adds) + {tx.hash} ensures x in Added(adds') {
      if x == tx.hash {
        assert adds'[|adds|].hash == x;
      } else {
        var i :| 0 <= i < |adds| && adds[i].hash == x;
        assert adds'[i].hash == x;
      }
    }
    forall i | 0 <= i < |adds'| ensures AllLocal(adds'[i], initial + Added(adds'[..i])) {
      assert adds'[..i] == if i < |adds| then adds[..i] else adds;
    }
  }

  // ---- what a buffer holds, without any order ----

  /** `s` holds the initial transactions, and every arrived one whose parents it holds. */
  ghost predicate Complete(initial: set<Hash>, arrived: set<Tx>, s: set<Hash>) {
    initial <= s && forall tx :: tx in arrived && AllLocal(tx, s) ==> tx.hash in s
  }

  /** Added transactions arrived; arrived ones are local or buffered. */
  ghost predicate ArrivedOk(arrived: set<Tx>, adds: seq<Tx>, known: Known, local: set<Hash>) {
    && (forall i :: 0 <= i < |adds| ==> adds[i] in arrived)
    && (forall h :: h in known ==> known[h] in arrived)
    && (forall tx :: tx in arrived ==> tx.hash in local || (tx.hash in known && known[tx.hash] == tx))
  }

  /** Whatever the order of arrivals and of map iterations: the local transactions are the least complete set. */
  lemma LocalIsLeast(initial: set<Hash>, arrived: set<Tx>, adds: seq<Tx>, known: Known, local: set<Hash>, s: set<Hash>)
    requires LogOk(initial, adds, local) && Todo(known, local, {}) && ArrivedOk(arrived, adds, known, local)
    ensures Complete(initial, arrived, local)
    ensures Complete(initial, arrived, s) ==> local <= s
  {
    if Complete(initial, arrived, s) {
      assert adds[..|adds|] == adds;
      AddedWithin(initial, arrived, adds, s, |adds|);
    }
  }

  lemma {:induction false} AddedWithin(initial: set<Hash>, arrived: set<Tx>, adds: seq<Tx>, s: set<Hash>, n: nat)
    requires n <= |adds| && Complete(initial, arrived, s) && forall i :: 0 <= i < |adds| ==> adds[i] in arrived
    requires forall i :: 0 <= i < |adds| ==> AllLocal(adds[i], initial + Added(adds[..i]))
    ensures Added(adds[..n]) <= s
  {
    if n > 0 {
      AddedWithin(initial, arrived, adds, s, n - 1);
      assert AllLocal(adds[n - 1], s);
      forall x | x in Added(adds[..n]) ensures x in s {
        var i :| 0 <= i < n && adds[..n][i].hash == x;
        assert i < n - 1 ==> adds[..n - 1][i].hash == x;
      }
    }
  }
}
