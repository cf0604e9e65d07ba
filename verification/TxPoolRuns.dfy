/** Confirmation keeps the invariant too, so it holds in every run of the pool loop. */
module PoolRuns {
  import opened Types
  import opened Sums
  import opened Graph
  import opened Ledgers
  import opened LedgerProofs
  import opened Pools
  import opened PoolInvariant

  // ---- the ledger after a push ----

  lemma SpendSubset(s: set<Tx>, t: set<Tx>, a: Address, k: Token)
    requires s <= t
    ensures Sum(s, Spend(a, k)) <= Sum(t, Spend(a, k))
  {
    SumSubset(s, t, Spend(a, k));
  }

  lemma AffordableSubset(d: Ledger, s: set<Tx>, t: set<Tx>)
    requires s <= t && Affordable(d, t)
    ensures Affordable(d, s)
  {
    forall tx | tx in s ensures Covered(d, s, tx) {
      assert Covered(d, t, tx);
      SpendSubset(s, t, tx.sender, tx.token);
    }
  }

  lemma NonNegative(d: Ledger, txs: seq<Tx>, k: (Address, Token))
    requires NoDup(txs) && Affordable(d, Elems(txs))
    requires forall k :: k in d.balances ==> d.balances[k] >= 0
    ensures ProcessAll(d, txs).Balance(k.0, k.1) >= 0
  {
    var a, t, s := k.0, k.1, Elems(txs);
    assert txs[..|txs|] == txs;
    PrefixBalance(d, txs, |txs|, a, t);
    OutWithinSpend(s, a, t);
    if tx :| tx in s && tx.kind == Normal && tx.sender == a && tx.token == t {
      assert Covered(d, s, tx);
    } else {
      NoTransfersNoSum(s, a, t);
    }
  }

  lemma PushedBalances(d: Ledger, s: Tx, txs: seq<Tx>)
    requires s.kind == Sequencer
    ensures Pushed(d, s, txs).balances == ProcessAll(d, txs).balances
  {
    StoreAllKeepsState(ProcessAll(d, txs), txs);
  }

  /** Every parent a sequencer's batch mentions is in the ledger once the batch is. */
  lemma PushKeepsClosed(p: Pool, s: Tx, batch: seq<Tx>)
    requires LookupOk(p) && SeqOk(p) && ClosedUnderParents(p.ledger)
    requires s.kind == Sequencer && s.hash !in p.envs && AllKnown(Enlist(p, Envelope(s, Queue, 1)), s)
    requires Lists(batch, BatchSet(Elders(Enlist(p, Envelope(s, Queue, 1)), s)))
    ensures ClosedUnderParents(Pushed(p.ledger, s, batch))
  {
    var d := Pushed(p.ledger, s, batch);
    forall h, q | h in d.txs && q in d.txs[h].parents ensures q in d.txs {
      PushedAt(p.ledger, s, batch, h);
      PushedAt(p.ledger, s, batch, q);
      if d.txs[h] == s || d.txs[h] in batch {
        ParentReached(p, s, batch, d.txs[h], q);
        ElderStored(p, s, batch, q);
      }
    }
  }

  lemma ParentReached(p: Pool, s: Tx, batch: seq<Tx>, tx: Tx, q: Hash)
    requires Elems(batch) == BatchSet(Elders(Enlist(p, Envelope(s, Queue, 1)), s))
    requires (tx == s || tx in batch) && q in tx.parents
    ensures Reached(Edges(Enlist(p, Envelope(s, Queue, 1))), s.parents, q)
  {
    var p1 := Enlist(p, Envelope(s, Queue, 1));
    if tx == s {
      ReachedRoot(Edges(p1), s.parents, q);
    } else {
      assert tx in Elems(batch);
      var k :| k in p1.envs && Reached(Edges(p1), s.parents, k) && p1.envs[k].tx == tx;
      ReachedStep(Edges(p1), s.parents, k, q);
    }
  }

  lemma ElderStored(p: Pool, s: Tx, batch: seq<Tx>, q: Hash)
    requires LookupOk(p) && SeqOk(p)
    requires s.kind == Sequencer && s.hash !in p.envs && AllKnown(Enlist(p, Envelope(s, Queue, 1)), s)
    requires Lists(batch, BatchSet(Elders(Enlist(p, Envelope(s, Queue, 1)), s)))
    requires Reached(Edges(Enlist(p, Envelope(s, Queue, 1))), s.parents, q)
    ensures q in Pushed(p.ledger, s, batch).txs
    ensures q in p.envs && p.envs[q].tx.kind != Sequencer ==> q in HashesOf(batch)
  {
    var p1 := Enlist(p, Envelope(s, Queue, 1));
    PushedAt(p.ledger, s, batch, q);
    if q in p.envs {
      var tx := p1.envs[q].tx;
      assert tx == p.envs[q].tx && EnvelopeOk(p.envs[q], q);
      if tx.kind != Sequencer {
        assert tx in Elders(p1, s);
        assert tx in Elems(batch);
        assert tx in batch && tx.hash == q;
      }
    }
  }

  // ---- rejudging and the new sequencer ----

  lemma ClearedInv(d: Ledger)
    requires LedgerOk(d)
    ensures Inv(Cleared(d))
  {
  }

  lemma {:induction false} RejudgeKeeps(p: Pool, es: seq<Envelope>)
    requires Inv(p)
    requires forall e :: e in es ==> e.tx.kind != Sequencer && EnvelopeOk(e, e.tx.hash)
    ensures Inv(Rejudge(p, es)) && Rejudge(p, es).ledger == p.ledger
  {
    if es != [] {
      RejudgeKeeps(p, es[..|es| - 1]);
      assert es[|es| - 1] in es;
      AdmitKeeps(Rejudge(p, es[..|es| - 1]), es[|es| - 1]);
    }
  }

  lemma {:induction false} SurvivorsOk(o: seq<Hash>, envs: map<Hash, Envelope>, gone: set<Hash>, e: Envelope)
    requires forall h :: h in envs ==> EnvelopeOk(envs[h], h)
    requires e in Survivors(o, envs, gone)
    ensures e.tx.hash in envs && e.tx.hash in o && e.tx.hash !in gone
    ensures e == envs[e.tx.hash].(status := Queue, judgeNum := envs[e.tx.hash].judgeNum + 1)
    ensures e.tx.kind != Sequencer && EnvelopeOk(e, e.tx.hash)
  {
    if e in Survivors(o[..|o| - 1], envs, gone) {
      SurvivorsOk(o[..|o| - 1], envs, gone, e);
    } else {
      assert EnvelopeOk(envs[o[|o| - 1]], o[|o| - 1]);
    }
  }

  lemma AdmitEntries(p: Pool, env: Envelope, h: Hash)
    requires StatusOk(p) && h in Admit(p, env).envs
    ensures h in p.envs || h == env.tx.hash
    ensures h in p.envs ==>
      Admit(p, env).envs[h].tx == p.envs[h].tx && Admit(p, env).envs[h].judgeNum == p.envs[h].judgeNum
    ensures h !in p.envs ==> Admit(p, env).envs[h].tx == env.tx && Admit(p, env).envs[h].judgeNum == env.judgeNum
  {
    hide Accept, Judge, StatusOk;
    if env.tx.hash !in p.envs {
      AcceptedEntries(p, env);
    }
  }

  ghost predicate Holds(p: Pool, h: Hash, e: Envelope) {
    e.tx.hash == h && h in p.envs && p.envs[h].tx == e.tx && p.envs[h].judgeNum == e.judgeNum
  }

  lemma {:induction false} RejudgeEntries(d: Ledger, es: seq<Envelope>, h: Hash)
    requires LedgerOk(d)
    requires forall e :: e in es ==> e.tx.kind != Sequencer && EnvelopeOk(e, e.tx.hash)
    requires h in Rejudge(Cleared(d), es).envs
    ensures exists e :: e in es && Holds(Rejudge(Cleared(d), es), h, e)
  {
    if es != [] {
      var front, last := es[..|es| - 1], es[|es| - 1];
      ClearedInv(d);
      RejudgeKeeps(Cleared(d), front);
      assert last in es;
      AdmitEntries(Rejudge(Cleared(d), front), last, h);
      if h in Rejudge(Cleared(d), front).envs {
        RejudgeEntries(d, front, h);
        var e :| e in front && Holds(Rejudge(Cleared(d), front), h, e);
        assert e in es && Holds(Rejudge(Cleared(d), es), h, e);
      } else {
        assert Holds(Rejudge(Cleared(d), es), h, last);
      }
    }
  }

  lemma AddSeqKeepsEntries(p: Pool, s: Tx)
    requires LookupOk(p) && StatusOk(p) && SeqOk(p)
    requires s.kind == Sequencer && s.hash !in p.envs && s.hash in p.ledger.txs
    ensures LookupOk(AddSeq(p, s)) && StatusOk(AddSeq(p, s)) && SeqOk(AddSeq(p, s))
  {
    hide *;
    AddSeqKeepsLookup(p, s);
    AddSeqKeepsStatus(p, s);
    AddSeqKeepsSeq(p, s);
  }

  lemma AddSeqKeepsLookup(p: Pool, s: Tx)
    requires LookupOk(p) && s.kind == Sequencer && s.hash !in p.envs
    ensures LookupOk(AddSeq(p, s))
  {
    NoDupSnoc(p.order, p.envs.Keys, s.hash);
    assert AddSeq(p, s).envs.Keys == p.envs.Keys + {s.hash};
  }

  lemma AddSeqKeepsStatus(p: Pool, s: Tx)
    requires StatusOk(p) && s.kind == Sequencer && s.hash !in p.envs
    ensures StatusOk(AddSeq(p, s))
  {
    forall k ensures StatusEntry(AddSeq(p, s), k) {
      assert k in p.tips <==> p.Has(k, Tip);
      assert k in p.pendings <==> p.Has(k, Pending);
      assert k in p.badtxs <==> p.Has(k, BadTx);
    }
    StatusEntries(AddSeq(p, s));
  }

  lemma AddSeqKeepsSeq(p: Pool, s: Tx)
    requires SeqOk(p) && s.kind == Sequencer && s.hash !in p.envs && s.hash in p.ledger.txs
    ensures SeqOk(AddSeq(p, s))
  {
  }

  lemma AddSeqKeepsParents(p: Pool, s: Tx)
    requires ParentsOk(p) && ClosedUnderParents(p.ledger)
    requires s.hash !in p.envs && s.hash in p.ledger.txs && p.ledger.txs[s.hash] == s
    ensures ParentsOk(AddSeq(p, s))
  {
    var r := AddSeq(p, s);
    forall h, q | r.IsGood(h) && q in r.envs[h].tx.parents
      ensures q in r.ledger.txs || (r.IsGood(q) && Before(r.order, q, h))
    {
      if h != s.hash {
        assert p.IsGood(h) && q in p.envs[h].tx.parents;
        if q !in r.ledger.txs {
          BeforeSnoc(p.order, s.hash, q, h);
        }
      }
    }
  }

  lemma AddSeqKeepsFlows(p: Pool, s: Tx)
    requires FlowsOk(p) && NoncesOk(p) && s.kind == Sequencer && s.hash !in p.envs
    ensures FlowsOk(AddSeq(p, s)) && NoncesOk(AddSeq(p, s))
  {
    var r := AddSeq(p, s);
    forall a, n | a in r.flows && n in r.flows[a].txs ensures FlowEntryOk(r, a, n, r.flows[a].txs[n]) {
      if r.flows[a].txs[n] != s {
        assert a in p.flows && n in p.flows[a].txs && p.flows[a].txs[n] == r.flows[a].txs[n];
        assert FlowEntryOk(p, a, n, p.flows[a].txs[n]);
      }
    }
    forall h | r.IsGood(h) && Tracked(r.envs[h].tx) ensures InFlow(r, r.envs[h].tx) {
      assert p.IsGood(h) && InFlow(p, p.envs[h].tx);
    }
    forall a | a in r.flows && NoSequencer(r.flows[a]) ensures IsRun(r.flows[a].txs.Keys, r.ledger.LatestNonce(a)) {
      if a == s.sender {
        assert s.nonce in r.flows[a].txs;
        assert a in p.flows && r.flows[a] == p.flows[a];
      }
    }
  }

  lemma AddSeqTransfers(p: Pool, s: Tx)
    requires StatusOk(p) && StatusOk(AddSeq(p, s)) && s.kind == Sequencer && s.hash !in p.envs
    ensures Transfers(AddSeq(p, s)) == Transfers(p)
  {
    hide StatusOk;
    var r := AddSeq(p, s);
    forall tx ensures tx in Transfers(r) <==> tx in Transfers(p) {
      if tx in Transfers(p) {
        var h := GoodEntry(p, tx);
        TransferOf(r, h);
      }
      if tx in Transfers(r) {
        var h := GoodEntry(r, tx);
        TransferOf(p, h);
      }
    }
  }

  lemma AddSeqKeepsBalances(p: Pool, s: Tx)
    requires BalancesOk(p) && StatusOk(p) && StatusOk(AddSeq(p, s)) && s.kind == Sequencer && s.hash !in p.envs
    ensures BalancesOk(AddSeq(p, s))
  {
    hide StatusOk;
    AddSeqTransfers(p, s);
    var r := AddSeq(p, s);
    forall a, t ensures BalanceOk(r, a, t) {
      assert BalanceOk(p, a, t);
    }
  }

  /** Surviving envelopes keep the pool order. */
  lemma {:induction false} SurvivorsInOrder(o: seq<Hash>, envs: map<Hash, Envelope>, gone: set<Hash>, i: int, j: int)
    requires forall h :: h in envs ==> EnvelopeOk(envs[h], h)
    requires 0 <= i < j < |Survivors(o, envs, gone)|
    ensures Before(o, Survivors(o, envs, gone)[i].tx.hash, Survivors(o, envs, gone)[j].tx.hash)
  {
    var front, last, es := o[..|o| - 1], o[|o| - 1], Survivors(o, envs, gone);
    var fs := Survivors(front, envs, gone);
    assert o == front + [last];
    if j < |fs| {
      SurvivorsInOrder(front, envs, gone, i, j);
    } else {
      assert EnvelopeOk(envs[last], last) && es[j].tx.hash == last;
      assert fs[i] in fs;
      SurvivorsOk(front, envs, gone, fs[i]);
    }
    BeforeSnoc(front, last, es[i].tx.hash, es[j].tx.hash);
  }

  lemma BeforeAsymmetric(o: seq<Hash>, q: Hash, h: Hash)
    requires NoDup(o) && Before(o, q, h)
    ensures !Before(o, h, q)
  {
    var i, j :| 0 <= i < j < |o| && o[i] == q && o[j] == h;
    forall i', j' | 0 <= i' < j' < |o| && o[i'] == h ensures o[j'] != q {
      assert i' == j;
    }
  }

  /** Distinct envelopes of transactions that are not sequencers. */
  ghost predicate Judgeable(es: seq<Envelope>) {
    && (forall i, j :: 0 <= i < j < |es| ==> es[i].tx.hash != es[j].tx.hash)
    && (forall e :: e in es ==> e.tx.kind != Sequencer && EnvelopeOk(e, e.tx.hash))
  }

  lemma SurvivorsJudgeable(p: Pool, gone: set<Hash>)
    requires LookupOk(p)
    ensures Judgeable(Survivors(p.order, p.envs, gone))
  {
    var es := Survivors(p.order, p.envs, gone);
    forall e | e in es ensures e.tx.kind != Sequencer && EnvelopeOk(e, e.tx.hash) {
      SurvivorsOk(p.order, p.envs, gone, e);
    }
    forall i, j | 0 <= i < j < |es| ensures es[i].tx.hash != es[j].tx.hash {
      SurvivorsInOrder(p.order, p.envs, gone, i, j);
      BeforeAsymmetric(p.order, es[i].tx.hash, es[j].tx.hash);
    }
  }

  lemma NextIsFresh(d: Ledger, es: seq<Envelope>, k: nat)
    requires LedgerOk(d) && Judgeable(es) && k < |es|
    ensures var q := Rejudge(Cleared(d), es[..k]);
      Lists(q.order, q.envs.Keys) && StatusOk(q) && es[k].tx.hash !in q.envs
  {
    ClearedInv(d);
    assert forall e :: e in es[..k] ==> e in es;
    RejudgeKeeps(Cleared(d), es[..k]);
    var q, h := Rejudge(Cleared(d), es[..k]), es[k].tx.hash;
    forall c | c in q.envs ensures c != h {
      RejudgeEntries(d, es[..k], c);
      var e :| e in es[..k] && Holds(q, c, e);
      var i :| 0 <= i < k && es[i] == e;
    }
  }

  lemma RejudgeSnoc(p: Pool, es: seq<Envelope>, env: Envelope)
    ensures Rejudge(p, es + [env]) == Admit(Rejudge(p, es), env)
  {
    assert (es + [env])[..|es|] == es;
  }

  // ---- a confirmation ----

  ghost predicate IsConfirmation(p: Pool, s: Tx, batch: seq<Tx>) {
    && s.kind == Sequencer && s.hash !in p.envs && Confirmable(p, s)
    && Lists(batch, BatchSet(Elders(Enlist(p, Envelope(s, Queue, 1)), s)))
  }

  lemma PushKeepsLedger(p: Pool, s: Tx, batch: seq<Tx>)
    requires LookupOk(p) && SeqOk(p) && LedgerOk(p.ledger) && IsConfirmation(p, s, batch)
    ensures LedgerOk(Pushed(p.ledger, s, batch))
    ensures s.hash in Pushed(p.ledger, s, batch).txs && Pushed(p.ledger, s, batch).txs[s.hash] == s
  {
    var d := Pushed(p.ledger, s, batch);
    PushKeepsClosed(p, s, batch);
    PushedAt(p.ledger, s, batch, s.hash);
    AffordableSubset(p.ledger, Elems(batch), Elders(Enlist(p, Envelope(s, Queue, 1)), s));
    PushedBalances(p.ledger, s, batch);
    forall k | k in d.balances ensures d.balances[k] >= 0 {
      NonNegative(p.ledger, batch, k);
      assert ProcessAll(p.ledger, batch).balances[(k.0, k.1)] == d.balances[k];
    }
  }

  ghost function Again(p: Pool, s: Tx, batch: seq<Tx>): Pool {
    Rejudge(Cleared(Pushed(p.ledger, s, batch)), Survivors(p.order, p.envs, HashesOf(batch)))
  }

  lemma AgainInv(p: Pool, s: Tx, batch: seq<Tx>)
    requires Inv(p) && IsConfirmation(p, s, batch)
    ensures Inv(Again(p, s, batch)) && Again(p, s, batch).ledger == Pushed(p.ledger, s, batch)
  {
    PushKeepsLedger(p, s, batch);
    ClearedInv(Pushed(p.ledger, s, batch));
    forall e | e in Survivors(p.order, p.envs, HashesOf(batch))
      ensures e.tx.kind != Sequencer && EnvelopeOk(e, e.tx.hash)
    {
      SurvivorsOk(p.order, p.envs, HashesOf(batch), e);
    }
    RejudgeKeeps(Cleared(Pushed(p.ledger, s, batch)), Survivors(p.order, p.envs, HashesOf(batch)));
  }

  /** Whatever is left after a confirmation was there before, one judgement younger. */
  lemma AgainEntries(p: Pool, s: Tx, batch: seq<Tx>, h: Hash)
    requires Inv(p) && IsConfirmation(p, s, batch) && h in Again(p, s, batch).envs
    ensures h in p.envs && h !in HashesOf(batch)
    ensures Again(p, s, batch).envs[h].tx == p.envs[h].tx && p.envs[h].tx.kind != Sequencer
    ensures Again(p, s, batch).envs[h].judgeNum == p.envs[h].judgeNum + 1 <= 10
  {
    var es := Survivors(p.order, p.envs, HashesOf(batch));
    PushKeepsLedger(p, s, batch);
    forall e | e in es ensures e.tx.kind != Sequencer && EnvelopeOk(e, e.tx.hash) {
      SurvivorsOk(p.order, p.envs, HashesOf(batch), e);
    }
    RejudgeEntries(Pushed(p.ledger, s, batch), es, h);
    var e :| e in es && Holds(Again(p, s, batch), h, e);
    SurvivorsOk(p.order, p.envs, HashesOf(batch), e);
  }

  lemma ConfirmKeeps(p: Pool, s: Tx, batch: seq<Tx>)
    requires Inv(p) && IsConfirmation(p, s, batch)
    ensures Inv(Confirmed(p, s, batch))
  {
    var q := Again(p, s, batch);
    AgainInv(p, s, batch);
    PushKeepsLedger(p, s, batch);
    if s.hash in q.envs {
      AgainEntries(p, s, batch, s.hash);
    }
    AddSeqKeepsEntries(q, s);
    AddSeqKeepsParents(q, s);
    AddSeqKeepsFlows(q, s);
    AddSeqKeepsBalances(q, s);
  }

  // ---- runs ----

  lemma StepKeeps(p: Pool, e: Event)
    requires Inv(p) && ValidEvent(p, e)
    ensures Inv(Step(p, e))
  {
    match e
    case TxArrives(tx) => AdmitKeeps(p, Envelope(tx, Queue, 1));
    case SeqArrives(s, batch) =>
      if s.hash !in p.envs && Confirmable(p, s) {
        ConfirmKeeps(p, s, batch);
      }
  }

  /** Main result: the invariant holds after every run. */
  lemma {:induction false} RunKeeps(p: Pool, es: seq<Event>)
    requires Inv(p) && ValidRun(p, es)
    ensures Inv(After(p, es))
    decreases |es|
  {
    if es != [] {
      StepKeeps(p, es[0]);
      RunKeeps(Step(p, es[0]), es[1..]);
    }
  }

  lemma InitialInv(d: Ledger, genesis: Tx)
    requires LedgerOk(d) && genesis.kind == Sequencer && genesis.hash in d.txs && d.txs[genesis.hash] == genesis
    ensures Inv(Initial(d, genesis))
  {
    var p := Initial(d, genesis);
    assert Elems(p.order) == p.envs.Keys;
    assert Transfers(p) == {};
  }
}
