/** verifyConfirmBatch and verifyNonce: the check that decides whether elders can be confirmed. */
module BatchCheck {
  import opened Types
  import opened Sums
  import opened TxLists
  import opened Ledgers
  import opened LedgerProofs
  import opened Pools

  // ---- nonces ----

  lemma {:induction false} CardElems<T>(s: seq<T>)
    requires NoDup(s)
    ensures |Elems(s)| == |s|
  {
    if s != [] {
      var front, last := s[..|s| - 1], s[|s| - 1];
      CardElems(front);
      assert last !in Elems(front);
      assert Elems(s) == Elems(front) + {last};
    }
  }

  ghost predicate Consecutive(r: seq<nat>, low: nat) {
    forall i :: 0 <= i < |r| ==> r[i] == low + 1 + i
  }

  lemma {:induction false} StrictlyAbove(r: seq<nat>, low: nat, i: nat)
    requires Sorted(r) && i < |r| && (forall n :: n in r ==> low < n)
    ensures r[i] >= low + 1 + i
  {
    if i > 0 {
      StrictlyAbove(r, low, i - 1);
      assert r[i - 1] < r[i];
    } else {
      assert r[0] in r;
    }
  }

  lemma {:induction false} StrictlyBelow(r: seq<nat>, high: nat, i: nat)
    requires Sorted(r) && i < |r| && (forall n :: n in r ==> n <= high)
    ensures r[i] <= high - (|r| - 1 - i)
    decreases |r| - i
  {
    if i < |r| - 1 {
      StrictlyBelow(r, high, i + 1);
      assert r[i] < r[i + 1];
    } else {
      assert r[i] in r;
    }
  }

  /** A sorted list of distinct nonces is a run exactly when it counts up by one. */
  lemma RunIsConsecutive(r: seq<nat>, low: nat)
    requires Sorted(r)
    ensures Consecutive(r, low) <==> IsRun(Elems(r), low)
  {
    assert NoDup(r);
    CardElems(r);
    if IsRun(Elems(r), low) {
      assert forall n :: n in r ==> n in Elems(r);
      forall i | 0 <= i < |r| ensures r[i] == low + 1 + i {
        StrictlyAbove(r, low, i);
        StrictlyBelow(r, low + |r|, i);
      }
    }
    if Consecutive(r, low) {
      forall n: nat ensures n in Elems(r) <==> low < n <= low + |r| {
        if low < n <= low + |r| {
          assert r[n - low - 1] == n;
        }
      }
    }
  }

  /**
   * verifyNonce: the nonces run on from the confirmed one, and the issuer's sequencer follows its own.
   * The keys of the list are sorted in place.
   */
  method VerifyNonce(d: Ledger, a: Address, list: TxList, s: Tx) returns (ok: bool)
    requires list.Valid() && list.txflow != map[]
    modifies list`keys
    ensures list.Valid()
    ensures ok <==>
      && IsRun(list.txflow.Keys, d.LatestNonce(a))
      && (s.sender == a ==> s.nonce == d.LatestNonce(a) + |list.txflow.Keys| + 1)
  {
    hide list.Valid, IsRun;
    list.SortKeys();
    assert |list.txflow| == |list.txflow.Keys|;
    ok := RunsOn(list.keys, d.LatestNonce(a));
    ok := ok && !(s.sender == a && s.nonce != list.keys[|list.keys| - 1] + 1);
  }

  method RunsOn(nonces: seq<nat>, latest: nat) returns (ok: bool)
    requires Sorted(nonces) && nonces != []
    ensures ok <==> IsRun(Elems(nonces), latest)
    ensures ok ==> nonces[|nonces| - 1] == latest + |nonces|
  {
    RunIsConsecutive(nonces, latest);
    if nonces[0] != latest + 1 {
      return false;
    }
    var i := 1;
    while i < |nonces|
      invariant 1 <= i <= |nonces|
      invariant forall j :: 0 <= j < i ==> nonces[j] == latest + 1 + j
    {
      if nonces[i] != nonces[i - 1] + 1 {
        return false;
      }
      i := i + 1;
    }
    ok := true;
  }

  // ---- collecting the batch ----

  /** Per sender: the nonces seen and the value spent per token. */
  datatype Detail = Detail(nonces: set<nat>, neg: map<Token, nat>)

  type Details = map<Address, Detail>

  function AddNeg(b: Detail, t: Token, v: nat): Detail {
    b.(neg := b.neg[t := (if t in b.neg then b.neg[t] else 0) + v])
  }

  /** A detail after one more transaction of its sender. */
  function Added(b: Detail, tx: Tx): Detail {
    var b1 := b.(nonces := b.nonces + {tx.nonce});
    if tx.kind == Normal then AddNeg(b1, tx.token, tx.value) else b1
  }

  function DetailOf(m: Details, a: Address): Detail {
    if a in m then m[a] else Detail({}, map[])
  }

  function Collect(m: Details, tx: Tx): Details {
    if tx.kind == Archive || tx.kind == Sequencer then m
    else m[tx.sender := Added(DetailOf(m, tx.sender), tx)]
  }

  class BatchDetail {
    const txlist: TxList
    var neg: map<Token, nat>

    ghost function View(): Detail
      reads this, txlist
    {
      Detail(txlist.txflow.Keys, neg)
    }

    constructor ()
      ensures fresh(txlist) && txlist.Valid() && View() == Detail({}, map[])
    {
      txlist := new TxList();
      neg := map[];
    }

    method Add(tx: Tx)
      requires txlist.Valid()
      modifies this, txlist
      ensures txlist.Valid() && View() == Added(old(View()), tx)
    {
      txlist.Put(tx);
      assert txlist.txflow.Keys == old(txlist.txflow.Keys) + {tx.nonce};
      if tx.kind == Normal {
        neg := neg[tx.token := (if tx.token in neg then neg[tx.token] else 0) + tx.value];
      }
    }
  }

  type Batch = map<Address, BatchDetail>

  ghost function TxListsOf(batch: Batch): set<TxList> {
    set a | a in batch :: batch[a].txlist
  }

  ghost predicate RecordsAt(batch: Batch, m: Details, a: Address)
    reads batch.Values, TxListsOf(batch)
  {
    && (a in batch <==> a in m)
    && (a in batch ==> batch[a].txlist.Valid() && batch[a].View() == m[a])
  }

  ghost predicate Apart(batch: Batch, a: Address, b: Address) {
    a in batch && b in batch && a != b ==> batch[a] != batch[b] && batch[a].txlist != batch[b].txlist
  }

  /** The objects hold `m`, and every sender has its own. */
  ghost predicate Records(batch: Batch, m: Details)
    reads batch.Values, TxListsOf(batch)
  {
    && (forall a {:trigger RecordsAt(batch, m, a)} :: RecordsAt(batch, m, a))
    && (forall a, b {:trigger Apart(batch, a, b)} :: Apart(batch, a, b))
  }

  /** One sender's objects may change, or be new, while all others stay as they are. */
  twostate lemma RecordsStill(batch: Batch, new batch': Batch, new m: Details, new m': Details, new a: Address)
    requires old(Records(batch, m)) && a in batch' && batch' == batch[a := batch'[a]]
    requires a in batch || (batch'[a] !in batch.Values && batch'[a].txlist !in TxListsOf(batch))
    requires a in batch ==> batch' == batch
    requires forall x :: x in batch && x != a ==> unchanged(batch[x]) && unchanged(batch[x].txlist)
    requires batch'[a].txlist.Valid() && m' == m[a := batch'[a].View()]
    ensures Records(batch', m')
  {
    forall x ensures RecordsAt(batch', m', x) {
      assert old(RecordsAt(batch, m, x));
    }
    forall x, y ensures Apart(batch', x, y) {
      assert Apart(batch, x, y);
    }
  }

  lemma OthersApart(batch: Batch, m: Details, a: Address)
    requires Records(batch, m)
    ensures forall x :: a in batch && x in batch && x != a ==>
      batch[x] != batch[a] && batch[x].txlist != batch[a].txlist
  {
    forall x | a in batch && x in batch && x != a ensures batch[x] != batch[a] && batch[x].txlist != batch[a].txlist {
      assert Apart(batch, x, a);
    }
  }

  /** Adds one elder to the details of its sender. */
  method Record(batch: Batch, tx: Tx, ghost m: Details) returns (batch': Batch)
    requires Records(batch, m)
    modifies batch.Values, TxListsOf(batch)
    ensures Records(batch', Collect(m, tx))
    ensures forall a :: a in batch' ==>
      (a in batch && batch'[a] == batch[a]) || (fresh(batch'[a]) && fresh(batch'[a].txlist))
  {
    hide Records, Added;
    batch' := batch;
    if tx.kind != Archive && tx.kind != Sequencer {
      var a := tx.sender;
      HeldBy(batch, m, a);
      OthersApart(batch, m, a);
      if a in batch {
        batch[a].Add(tx);
      } else {
        var detail := new BatchDetail();
        detail.Add(tx);
        batch' := batch[a := detail];
      }
      RecordsStill(batch, batch', m, Collect(m, tx), a);
    }
  }

  lemma HeldBy(batch: Batch, m: Details, a: Address)
    requires Records(batch, m)
    ensures a in batch <==> a in m
    ensures a in batch ==> batch[a].txlist.Valid() && batch[a].View() == m[a]
  {
    assert RecordsAt(batch, m, a);
  }

  ghost predicate Spends(s: set<Tx>, a: Address, t: Token) {
    exists tx :: tx in s && tx.kind == Normal && tx.sender == a && tx.token == t
  }

  ghost predicate NegOk(b: Detail, s: set<Tx>, a: Address) {
    && (forall t :: t in b.neg <==> Spends(s, a, t))
    && (forall t :: t in b.neg ==> b.neg[t] == Sum(s, Spend(a, t)))
  }

  ghost predicate DetailOk(m: Details, s: set<Tx>, a: Address) {
    && (a in m <==> NoncesOf(s, a) != {})
    && DetailOf(m, a).nonces == NoncesOf(s, a)
    && NegOk(DetailOf(m, a), s, a)
  }

  ghost predicate DetailsOk(m: Details, s: set<Tx>) {
    forall a {:trigger DetailOk(m, s, a)} :: DetailOk(m, s, a)
  }

  lemma NoncesAdd(s: set<Tx>, tx: Tx, a: Address)
    ensures NoncesOf(s + {tx}, a) == NoncesOf(s, a) +
      if tx.kind != Archive && tx.kind != Sequencer && tx.sender == a then {tx.nonce} else {}
  {
    var s' := s + {tx};
    forall n | n in NoncesOf(s, a) ensures n in NoncesOf(s', a) {
      var x :| x in s && x.kind != Archive && x.kind != Sequencer && x.sender == a && x.nonce == n;
      assert x in s';
    }
    if tx.kind != Archive && tx.kind != Sequencer && tx.sender == a {
      assert tx in s';
    }
  }

  lemma SpendsAdd(s: set<Tx>, tx: Tx, a: Address, t: Token)
    ensures Spends(s + {tx}, a, t) <==> Spends(s, a, t) || (tx.kind == Normal && tx.sender == a && tx.token == t)
  {
    var s' := s + {tx};
    if Spends(s, a, t) {
      var x :| x in s && x.kind == Normal && x.sender == a && x.token == t;
      assert x in s';
    }
    if tx.kind == Normal && tx.sender == a && tx.token == t {
      assert tx in s';
    }
  }

  lemma UnspentSum(s: set<Tx>, a: Address, t: Token)
    requires !Spends(s, a, t)
    ensures Sum(s, Spend(a, t)) == 0
    decreases |s|
  {
    if s != {} {
      UnspentSum(s - {Pick(s)}, a, t);
    }
  }

  lemma CollectNeg(b: Detail, s: set<Tx>, tx: Tx, a: Address)
    requires NegOk(b, s, a) && tx !in s
    ensures NegOk(if tx.kind == Normal && tx.sender == a then AddNeg(b, tx.token, tx.value) else b, s + {tx}, a)
  {
    forall t ensures Spends(s + {tx}, a, t) <==>
      Spends(s, a, t) || (tx.kind == Normal && tx.sender == a && tx.token == t)
    {
      SpendsAdd(s, tx, a, t);
    }
    forall t ensures Sum(s + {tx}, Spend(a, t)) == Sum(s, Spend(a, t)) + Spend(a, t)(tx) {
      SumAdd(s, Spend(a, t), tx);
    }
    if tx.kind == Normal && tx.sender == a && !Spends(s, a, tx.token) {
      UnspentSum(s, a, tx.token);
    }
  }

  lemma CollectOk(m: Details, s: set<Tx>, tx: Tx)
    requires DetailsOk(m, s) && tx !in s
    ensures DetailsOk(Collect(m, tx), s + {tx})
  {
    forall a ensures DetailOk(Collect(m, tx), s + {tx}, a) {
      assert DetailOk(m, s, a);
      CollectOkAt(m, s, tx, a);
    }
  }

  lemma NegAlike(b: Detail, b': Detail, s: set<Tx>, a: Address)
    requires b.neg == b'.neg && NegOk(b, s, a)
    ensures NegOk(b', s, a)
  {
  }

  lemma CollectOkAt(m: Details, s: set<Tx>, tx: Tx, a: Address)
    requires DetailOk(m, s, a) && tx !in s
    ensures DetailOk(Collect(m, tx), s + {tx}, a)
  {
    hide NegOk, NoncesOf;
    var m' := Collect(m, tx);
    NoncesAdd(s, tx, a);
    CollectNeg(DetailOf(m, a), s, tx, a);
    if tx.kind != Archive && tx.kind != Sequencer && tx.sender == a {
      NegAlike(if tx.kind == Normal then AddNeg(DetailOf(m, a), tx.token, tx.value) else DetailOf(m, a),
        DetailOf(m', a), s + {tx}, a);
      assert tx.nonce in NoncesOf(s + {tx}, a);
    } else {
      assert NoncesOf(s, a) + {} == NoncesOf(s, a);
    }
  }

  // ---- the check ----

  ghost predicate Clash(s: Tx, tx: Tx) {
    tx.kind != Archive && tx.sender == s.sender && tx.nonce == s.nonce
  }

  ghost predicate AddressOk(d: Ledger, s: Tx, m: Details, a: Address)
    requires a in m
  {
    && (forall t :: t in m[a].neg ==> m[a].neg[t] <= d.Balance(a, t))
    && (m[a].nonces != {} ==>
      && IsRun(m[a].nonces, d.LatestNonce(a))
      && (s.sender == a ==> s.nonce == d.LatestNonce(a) + |m[a].nonces| + 1))
  }

  /** What the loops looked at is what the declarative check says. */
  lemma CheckedIsBatchOk(d: Ledger, s: Tx, m: Details, elders: set<Tx>)
    requires DetailsOk(m, elders)
    requires forall tx :: tx in elders ==> !Clash(s, tx)
    ensures (forall a :: a in m ==> AddressOk(d, s, m, a)) <==> BatchOk(d, s, elders)
  {
    if forall a :: a in m ==> AddressOk(d, s, m, a) {
      forall tx | tx in elders ensures Covered(d, elders, tx) {
        if tx.kind == Normal {
          assert DetailOk(m, elders, tx.sender);
          assert Spends(elders, tx.sender, tx.token);
          assert tx.nonce in NoncesOf(elders, tx.sender);
        }
      }
      forall a ensures NonceRuns(d, s, elders, a) {
        assert DetailOk(m, elders, a);
      }
      assert forall tx :: tx in elders && tx.kind != Archive ==> !Clash(s, tx);
    }
    if BatchOk(d, s, elders) {
      forall a | a in m ensures AddressOk(d, s, m, a) {
        assert DetailOk(m, elders, a) && NonceRuns(d, s, elders, a);
        forall t | t in m[a].neg ensures m[a].neg[t] <= d.Balance(a, t) {
          var tx :| tx in elders && tx.kind == Normal && tx.sender == a && tx.token == t;
          assert Covered(d, elders, tx);
        }
      }
    }
  }

  method CheckAddress(d: Ledger, s: Tx, b: BatchDetail, a: Address, ghost m: Details) returns (ok: bool)
    requires a in m && b.txlist.Valid() && b.View() == m[a]
    modifies b.txlist`keys
    ensures b.txlist.Valid()
    ensures ok <==> AddressOk(d, s, m, a)
  {
    hide IsRun, b.txlist.Valid;
    var left := b.neg.Keys;
    while left != {}
      invariant left <= b.neg.Keys
      invariant forall t :: t in b.neg && t !in left ==> b.neg[t] <= d.Balance(a, t)
      decreases |left|
    {
      var t :| t in left;
      if d.Balance(a, t) < b.neg[t] {
        return false;
      }
      left := left - {t};
    }
    var n := b.txlist.Len();
    if n == 0 {
      return true;
    }
    ok := VerifyNonce(d, a, b.txlist, s);
  }

  ghost predicate Keyed(elders: map<Hash, Tx>) {
    forall h :: h in elders ==> elders[h].hash == h
  }

  /**
   * The elders and the senders are visited in any order; the verdict is the declarative one, and
   * an accepted batch lists every elder that is not a sequencer once.
   */
  method VerifyConfirmBatch(d: Ledger, s: Tx, elders: map<Hash, Tx>) returns (ok: bool, batch: seq<Tx>)
    requires Keyed(elders)
    ensures ok <==> BatchOk(d, s, elders.Values)
    ensures ok ==> Lists(batch, BatchSet(elders.Values))
  {
    var details: Batch := map[];
    ghost var m: Details := map[];
    batch := [];
    var left := elders.Keys;
    ghost var seen: set<Tx> := {};
    EmptyDetails();
    while left != {}
      invariant left <= elders.Keys
      invariant forall tx :: tx in seen <==> tx.hash in elders && elders[tx.hash] == tx && tx.hash !in left
      invariant DetailsOk(m, seen) && Records(details, m)
      invariant forall a :: a in details ==> fresh(details[a]) && fresh(details[a].txlist)
      invariant Lists(batch, BatchSet(seen))
      invariant forall tx :: tx in seen ==> !Clash(s, tx)
      decreases |left|
    {
      var h :| h in left;
      var tx := elders[h];
      left := left - {h};
      if tx.kind != Archive && tx.sender == s.sender && tx.nonce == s.nonce {
        assert tx in elders.Values && Clash(s, tx);
        return false, [];
      }
      if tx.kind != Sequencer {
        BatchSnoc(batch, seen, tx);
        batch := batch + [tx];
      } else {
        assert BatchSet(seen + {tx}) == BatchSet(seen);
      }
      CollectOk(m, seen, tx);
      details := Record(details, tx, m);
      m := Collect(m, tx);
      seen := seen + {tx};
    }
    assert seen == elders.Values;
    CheckedIsBatchOk(d, s, m, seen);
    ok := CheckAddresses(d, s, details, m);
  }

  lemma EmptyDetails()
    ensures DetailsOk(map[], {})
  {
    forall a ensures DetailOk(map[], {}, a) {
      assert NoncesOf({}, a) == {};
    }
  }

  lemma BatchSnoc(batch: seq<Tx>, seen: set<Tx>, tx: Tx)
    requires Lists(batch, BatchSet(seen)) && tx !in seen && tx.kind != Sequencer
    ensures Lists(batch + [tx], BatchSet(seen + {tx}))
  {
    assert forall i :: 0 <= i < |batch| ==> batch[i] in Elems(batch);
    assert Elems(batch + [tx]) == Elems(batch) + {tx};
    assert BatchSet(seen + {tx}) == BatchSet(seen) + {tx};
  }

  method CheckAddresses(d: Ledger, s: Tx, batch: Batch, ghost m: Details) returns (ok: bool)
    requires Records(batch, m)
    modifies TxListsOf(batch)`keys
    ensures ok <==> forall a :: a in m ==> AddressOk(d, s, m, a)
  {
    hide AddressOk, Records;
    var left := batch.Keys;
    forall a ensures a in batch <==> a in m {
      HeldBy(batch, m, a);
    }
    while left != {}
      invariant left <= batch.Keys && Records(batch, m)
      invariant forall a :: a in batch && a !in left ==> AddressOk(d, s, m, a)
      decreases |left|
    {
      var a :| a in left;
      HeldBy(batch, m, a);
      OthersApart(batch, m, a);
      label before:
      var good := CheckAddress(d, s, batch[a], a, m);
      if !good {
        return false;
      }
      RecordsStill@before(batch, batch, m, m, a);
      left := left - {a};
    }
    ok := true;
  }
}
