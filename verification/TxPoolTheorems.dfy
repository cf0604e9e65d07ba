/** What the invariant gives in every reachable state of the pool. */
module PoolTheorems {
  import opened Types
  import opened Sums
  import opened Ledgers
  import opened LedgerProofs
  import opened Pools
  import opened PoolInvariant
  import opened PoolRuns

  /** A pool that some run of arrivals and confirmations reaches from the genesis. */
  ghost predicate Reachable(p: Pool) {
    exists d: Ledger, genesis: Tx, es: seq<Event> :: ReachedBy(p, d, genesis, es)
  }

  ghost predicate ReachedBy(p: Pool, d: Ledger, genesis: Tx, es: seq<Event>) {
    && LedgerOk(d) && genesis.kind == Sequencer && genesis.hash in d.txs && d.txs[genesis.hash] == genesis
    && ValidRun(Initial(d, genesis), es)
    && p == After(Initial(d, genesis), es)
  }

  /** Every reachable pool satisfies the invariant. */
  lemma ReachableInv(p: Pool)
    requires Reachable(p)
    ensures Inv(p)
  {
    var d: Ledger, genesis: Tx, es: seq<Event> :| ReachedBy(p, d, genesis, es);
    InitialInv(d, genesis);
    RunKeeps(Initial(d, genesis), es);
  }

  // ---- the lookup ----

  /** Each lookup entry sits in exactly one of the three buckets, the one its status names. */
  lemma OneBucketEach(p: Pool, h: Hash)
    requires Reachable(p)
    ensures h in p.envs <==> h in p.order
    ensures h in p.envs <==> h in p.tips || h in p.pendings || h in p.badtxs
    ensures h in p.tips ==> h !in p.pendings && h !in p.badtxs && p.envs[h].status == Tip
    ensures h in p.pendings ==> h !in p.badtxs && p.envs[h].status == Pending
    ensures h in p.badtxs ==> p.envs[h].status == BadTx
    ensures NoDup(p.order)
  {
    hide StatusOk, SeqOk, ParentsOk, FlowsOk, BalancesOk, NoncesOk, LedgerOk;
    ReachableInv(p);
    BucketsOf(p, h);
    assert h in p.order <==> h in Elems(p.order);
  }

  lemma BucketsOf(p: Pool, h: Hash)
    requires StatusOk(p)
    ensures h in p.tips <==> p.Has(h, Tip)
    ensures h in p.pendings <==> p.Has(h, Pending)
    ensures h in p.badtxs <==> p.Has(h, BadTx)
    ensures h in p.envs ==> p.envs[h].status != Queue
  {
  }

  /** Every parent of a tip or pending transaction is confirmed, or earlier in the pool and not bad. */
  lemma GoodParents(p: Pool, h: Hash, q: Hash)
    requires Reachable(p) && (h in p.tips || h in p.pendings) && h in p.envs && q in p.envs[h].tx.parents
    ensures q in p.ledger.txs || p.IsGood(q)
    ensures q in p.ledger.txs || Before(p.order, q, h)
  {
    hide SeqOk, FlowsOk, BalancesOk, NoncesOk, LedgerOk, LookupOk, Before;
    ReachableInv(p);
    assert p.IsGood(h);
  }

  // ---- balances ----

  /** No over-commitment: tip and pending transfers never spend more than the confirmed balance. */
  lemma NoOvercommitment(p: Pool, a: Address, t: Token)
    requires Reachable(p)
    ensures Sum(Transfers(p), Spend(a, t)) <= p.ledger.Balance(a, t)
  {
    ReachableInv(p);
    if tx :| tx in Transfers(p) && tx.sender == a && tx.token == t {
      assert BalanceOk(p, a, t);
    } else {
      NoTransfersNoSum(Transfers(p), a, t);
    }
  }

  lemma {:induction false} SumNormalOnly(s: set<Tx>, n: set<Tx>, a: Address, t: Token)
    requires n == set tx | tx in s && tx.kind == Normal
    ensures Sum(s, Spend(a, t)) == Sum(n, Spend(a, t))
    decreases |s|
  {
    if s - n == {} {
      forall x | x in s ensures x in n {
        assert x !in s - n;
      }
      assert s == n;
    } else {
      var tx := Pick(s - n);
      SumRemove(s, Spend(a, t), tx);
      SumNormalOnly(s - {tx}, n, a, t);
    }
  }

  /** Elders that are all tips or pendings never fail the balance check of their batch. */
  lemma GoodEldersAffordable(p: Pool, elders: set<Tx>)
    requires Reachable(p)
    requires elders <= p.tips.Values + p.pendings.Values
    ensures Affordable(p.ledger, elders)
  {
    forall tx | tx in elders ensures Covered(p.ledger, elders, tx) {
      if tx.kind == Normal {
        var normal := set tx | tx in elders && tx.kind == Normal;
        SumNormalOnly(elders, normal, tx.sender, tx.token);
        SpendSubset(normal, Transfers(p), tx.sender, tx.token);
        NoOvercommitment(p, tx.sender, tx.token);
      }
    }
  }

  // ---- the ledger ----

  /** The confirmed transactions are closed under parents in every reachable state. */
  lemma ConfirmedClosed(p: Pool, h: Hash, q: Hash)
    requires Reachable(p) && h in p.ledger.txs && q in p.ledger.txs[h].parents
    ensures q in p.ledger.txs
  {
    ReachableInv(p);
  }

  lemma BatchNonces(elders: set<Tx>, batch: seq<Tx>, a: Address)
    requires Elems(batch) == BatchSet(elders)
    ensures NoncesOf(Elems(batch), a) == NoncesOf(elders, a)
  {
    forall n ensures n in NoncesOf(Elems(batch), a) <==> n in NoncesOf(elders, a) {
      if n in NoncesOf(elders, a) {
        var tx :| tx in elders && tx.kind != Archive && tx.kind != Sequencer && tx.sender == a && tx.nonce == n;
        assert tx in Elems(batch);
      }
      if n in NoncesOf(Elems(batch), a) {
        var tx :| tx in Elems(batch) && tx.kind != Archive && tx.kind != Sequencer && tx.sender == a && tx.nonce == n;
        assert tx in elders;
      }
    }
  }

  lemma BatchNonce(d: Ledger, s: Tx, elders: set<Tx>, batch: seq<Tx>, a: Address)
    requires BatchOk(d, s, elders) && Lists(batch, BatchSet(elders))
    ensures ProcessAll(d, batch).LatestNonce(a) == d.LatestNonce(a) + |NoncesOf(elders, a)|
  {
    assert NonceRuns(d, s, elders, a);
    BatchNonces(elders, batch, a);
    assert IsRun(NoncesOf(elders, a), d.LatestNonce(a));
    assert forall tx :: tx in batch ==> tx in Elems(batch);
    NonceAfterBatch(d, batch, a);
  }

  lemma PushedNonce(d: Ledger, s: Tx, batch: seq<Tx>, a: Address)
    requires s.kind == Sequencer
    ensures Pushed(d, s, batch).LatestNonce(a) == if a == s.sender
      then Max(ProcessAll(d, batch).LatestNonce(a), s.nonce) else ProcessAll(d, batch).LatestNonce(a)
  {
    StoreAllKeepsState(ProcessAll(d, batch), batch);
  }

  /**
   * A batch that passes the check, pushed in any order: every sender that has transactions in it
   * ends at its old nonce plus their number, the issuer at its sequencer's nonce.
   */
  lemma NoncesAfterPush(d: Ledger, s: Tx, elders: set<Tx>, batch: seq<Tx>, a: Address)
    requires s.kind == Sequencer && BatchOk(d, s, elders) && Lists(batch, BatchSet(elders))
    ensures a != s.sender ==> Pushed(d, s, batch).LatestNonce(a) == d.LatestNonce(a) + |NoncesOf(elders, a)|
    ensures a == s.sender && NoncesOf(elders, a) != {} ==>
      Pushed(d, s, batch).LatestNonce(a) == s.nonce == d.LatestNonce(a) + |NoncesOf(elders, a)| + 1
    ensures a == s.sender && NoncesOf(elders, a) == {} ==>
      Pushed(d, s, batch).LatestNonce(a) == Max(d.LatestNonce(a), s.nonce)
  {
    BatchNonce(d, s, elders, batch, a);
    PushedNonce(d, s, batch, a);
    assert NonceRuns(d, s, elders, a);
  }

  /** A batch that passes the check moves value between accounts and creates or destroys none. */
  lemma PushConserves(d: Ledger, s: Tx, elders: set<Tx>, batch: seq<Tx>, t: Token)
    requires s.kind == Sequencer && BatchOk(d, s, elders) && Lists(batch, BatchSet(elders))
    ensures Supply(Pushed(d, s, batch).balances, t) == Supply(d.balances, t)
  {
    AffordableSubset(d, BatchSet(elders), elders);
    assert batch[..|batch|] == batch;
    BatchConserves(d, batch, |batch|, t);
    PushedBalances(d, s, batch);
  }

  lemma SameBodies(d: Ledger, s: Tx, batch: seq<Tx>, batch': seq<Tx>)
    requires Elems(batch) == Elems(batch') && OneEach(batch)
    ensures Pushed(d, s, batch).txs == Pushed(d, s, batch').txs
  {
    hide Pushed;
    forall tx ensures tx in batch <==> tx in batch' {
      assert tx in Elems(batch) <==> tx in Elems(batch');
    }
    var m, m' := Pushed(d, s, batch).txs, Pushed(d, s, batch').txs;
    forall h ensures h in m <==> h in m' {
      PushedAt(d, s, batch, h);
      PushedAt(d, s, batch', h);
    }
    forall h | h in m ensures m[h] == m'[h] {
      PushedAt(d, s, batch, h);
      PushedAt(d, s, batch', h);
      if tx :| tx in batch && tx.hash == h && h != s.hash {
        StoredInBatch(d, s, batch, tx);
        StoredInBatch(d, s, batch', tx);
      }
    }
  }

  lemma SameState(d: Ledger, s: Tx, elders: set<Tx>, batch: seq<Tx>, batch': seq<Tx>)
    requires s.kind == Sequencer && BatchOk(d, s, elders)
    requires Lists(batch, BatchSet(elders)) && Lists(batch', BatchSet(elders))
    ensures ProcessAll(d, batch).balances == ProcessAll(d, batch').balances
    ensures ProcessAll(d, batch).nonces == ProcessAll(d, batch').nonces
  {
    hide ProcessAll;
    SameKeys(d, batch, batch');
    AffordableSubset(d, BatchSet(elders), elders);
    var e, e' := ProcessAll(d, batch), ProcessAll(d, batch');
    forall k | k in e.balances ensures e.balances[k] == e'.balances[k] {
      FinalBalances(d, BatchSet(elders), batch, batch', k.0, k.1);
      assert e.Balance(k.0, k.1) == e.balances[k] && e'.Balance(k.0, k.1) == e'.balances[k];
    }
    forall a | a in e.nonces ensures e.nonces[a] == e'.nonces[a] {
      BatchNonce(d, s, elders, batch, a);
      BatchNonce(d, s, elders, batch', a);
      assert e.LatestNonce(a) == e.nonces[a] && e'.LatestNonce(a) == e'.nonces[a];
    }
  }

  /** Balances, nonces, stored transactions and height after a confirmation do not depend on the order of the push. */
  lemma PushOrderIndependent(d: Ledger, s: Tx, elders: set<Tx>, batch: seq<Tx>, batch': seq<Tx>)
    requires s.kind == Sequencer && BatchOk(d, s, elders)
    requires Lists(batch, BatchSet(elders)) && Lists(batch', BatchSet(elders)) && OneEach(batch)
    ensures Pushed(d, s, batch).balances == Pushed(d, s, batch').balances
    ensures Pushed(d, s, batch).nonces == Pushed(d, s, batch').nonces
    ensures Pushed(d, s, batch).txs == Pushed(d, s, batch').txs
    ensures Pushed(d, s, batch).height == Pushed(d, s, batch').height == s.height
  {
    SameBodies(d, s, batch, batch');
    SameState(d, s, elders, batch, batch');
    StoreAllKeepsState(ProcessAll(d, batch), batch);
    StoreAllKeepsState(ProcessAll(d, batch'), batch');
    hide ProcessAll, StoreAll, BatchOk;
  }

  // ---- nonces ----

  lemma GoodMember(p: Pool, h: Hash)
    requires StatusOk(p) && p.IsGood(h)
    ensures p.envs[h].tx in GoodTxs(p)
  {
    if p.Has(h, Tip) {
      assert h in p.tips.Keys && p.tips[h] == p.envs[h].tx;
    } else {
      assert h in p.pendings.Keys && p.pendings[h] == p.envs[h].tx;
    }
  }

  /** Two good transactions of one sender never share a nonce. */
  lemma OneTxPerNonce(p: Pool, tx: Tx, tx': Tx)
    requires Reachable(p) && tx in GoodTxs(p) && tx' in GoodTxs(p) && Tracked(tx) && Tracked(tx')
    requires tx.sender == tx'.sender && tx.nonce == tx'.nonce
    ensures tx == tx'
  {
    ReachableInv(p);
    var h := GoodEntry(p, tx);
    var h' := GoodEntry(p, tx');
    assert InFlow(p, tx) && InFlow(p, tx');
  }

  /** The tip and pending nonces of a sender without sequencers run on from its confirmed nonce. */
  lemma NonceRun(p: Pool, a: Address)
    requires Reachable(p) && NoSequencer(p.FlowOf(a))
    ensures IsRun(NoncesOf(GoodTxs(p), a), p.ledger.LatestNonce(a))
  {
    ReachableInv(p);
    FlowNonces(p, a);
  }

  lemma FlowNonces(p: Pool, a: Address)
    requires StatusOk(p) && FlowsOk(p) && NoSequencer(p.FlowOf(a))
    ensures NoncesOf(GoodTxs(p), a) == p.FlowOf(a).txs.Keys
  {
    forall n ensures n in NoncesOf(GoodTxs(p), a) <==> n in p.FlowOf(a).txs.Keys {
      if n in NoncesOf(GoodTxs(p), a) {
        var tx :| tx in GoodTxs(p) && tx.kind != Archive && tx.kind != Sequencer && tx.sender == a && tx.nonce == n;
        var h := GoodEntry(p, tx);
        assert InFlow(p, tx);
      }
      if n in p.FlowOf(a).txs.Keys {
        var tx := p.FlowOf(a).txs[n];
        assert FlowEntryOk(p, a, n, tx);
        GoodMember(p, tx.hash);
      }
    }
  }

  ghost predicate IssuesNone(es: seq<Event>, a: Address) {
    forall e :: e in es && e.SeqArrives? ==> e.s.sender != a
  }

  lemma {:induction false} RejudgeNoSequencer(p: Pool, es: seq<Envelope>, a: Address)
    requires NoSequencer(p.FlowOf(a)) && forall e :: e in es ==> e.tx.kind != Sequencer
    ensures NoSequencer(Rejudge(p, es).FlowOf(a))
  {
    if es != [] {
      RejudgeNoSequencer(p, es[..|es| - 1], a);
      assert es[|es| - 1] in es;
      AdmitNoSequencer(Rejudge(p, es[..|es| - 1]), es[|es| - 1], a);
    }
  }

  lemma AdmitNoSequencer(p: Pool, env: Envelope, a: Address)
    requires NoSequencer(p.FlowOf(a)) && env.tx.kind != Sequencer
    ensures NoSequencer(Admit(p, env).FlowOf(a))
  {
    hide Accept, Judge;
    AcceptedFlows(p, env);
  }

  lemma StepNoSequencer(p: Pool, e: Event, a: Address)
    requires LookupOk(p) && NoSequencer(p.FlowOf(a)) && ValidEvent(p, e) && (e.SeqArrives? ==> e.s.sender != a)
    ensures NoSequencer(Step(p, e).FlowOf(a))
  {
    match e {
      case TxArrives(tx) => AdmitNoSequencer(p, Envelope(tx, Queue, 1), a);
      case SeqArrives(s, batch) =>
        if s.hash !in p.envs && Confirmable(p, s) {
          hide Confirmable;
          var es := Survivors(p.order, p.envs, HashesOf(batch));
          forall e | e in es ensures e.tx.kind != Sequencer {
            SurvivorsOk(p.order, p.envs, HashesOf(batch), e);
          }
          RejudgeNoSequencer(Cleared(Pushed(p.ledger, s, batch)), es, a);
        }
    }
  }

  /** A sender that issues no sequencer during a run keeps a flow without sequencers. */
  lemma {:induction false} RunNoSequencer(p: Pool, es: seq<Event>, a: Address)
    requires Inv(p) && ValidRun(p, es) && IssuesNone(es, a) && NoSequencer(p.FlowOf(a))
    ensures NoSequencer(After(p, es).FlowOf(a))
    decreases |es|
  {
    hide LookupOk, StatusOk, SeqOk, ParentsOk, FlowsOk, BalancesOk, NoncesOk, LedgerOk, ValidEvent, Step, NoSequencer;
    if es != [] {
      var e := es[0];
      StepKeeps(p, e);
      assert e in es;
      StepNoSequencer(p, e, a);
      RunNoSequencer(Step(p, e), es[1..], a);
    }
  }

  /** For every run and every sender that issues no sequencer in it, the pool nonces run without a gap. */
  lemma NonceRunOfRun(d: Ledger, genesis: Tx, es: seq<Event>, a: Address)
    requires ReachedBy(After(Initial(d, genesis), es), d, genesis, es) && IssuesNone(es, a)
    ensures var p := After(Initial(d, genesis), es);
      IsRun(NoncesOf(GoodTxs(p), a), p.ledger.LatestNonce(a))
  {
    InitialInv(d, genesis);
    RunNoSequencer(Initial(d, genesis), es, a);
    NonceRun(After(Initial(d, genesis), es), a);
  }

  // ---- how long a transaction stays ----

  ghost predicate Stays(p: Pool, es: seq<Event>, h: Hash)
    decreases |es|
  {
    h in p.envs && (es != [] ==> Stays(Step(p, es[0]), es[1..], h))
  }

  ghost predicate Confirms(p: Pool, e: Event) {
    e.SeqArrives? && e.s.hash !in p.envs && Confirmable(p, e.s)
  }

  ghost function Confirmations(p: Pool, es: seq<Event>): nat
    decreases |es|
  {
    if es == [] then 0
    else (if Confirms(p, es[0]) then 1 else 0) + Confirmations(Step(p, es[0]), es[1..])
  }

  /** A sequencer does not stay through a confirmation; anything else is judged once more. */
  lemma StepJudges(p: Pool, e: Event, h: Hash)
    requires Inv(p) && ValidEvent(p, e) && h in p.envs && h in Step(p, e).envs
    ensures Step(p, e).envs[h].tx == p.envs[h].tx
    ensures Step(p, e).envs[h].judgeNum == p.envs[h].judgeNum + if Confirms(p, e) then 1 else 0
    ensures p.envs[h].tx.kind == Sequencer ==> !Confirms(p, e)
  {
    hide LookupOk, SeqOk, ParentsOk, FlowsOk, BalancesOk, NoncesOk, LedgerOk;
    match e {
      case TxArrives(tx) => AdmitEntries(p, Envelope(tx, Queue, 1), h);
      case SeqArrives(s, batch) =>
        if Confirms(p, e) {
          AgainEntries(p, s, batch, h);
        }
    }
  }

  lemma {:induction false} JudgedOncePerConfirmation(p: Pool, es: seq<Event>, h: Hash)
    requires Inv(p) && ValidRun(p, es) && Stays(p, es, h)
    ensures Inv(After(p, es)) && h in After(p, es).envs
    ensures After(p, es).envs[h].judgeNum == p.envs[h].judgeNum + Confirmations(p, es)
    ensures p.envs[h].tx.kind == Sequencer ==> Confirmations(p, es) == 0
    decreases |es|
  {
    hide Inv, ValidEvent, Step, Confirms;
    if es != [] {
      var e := es[0];
      StepKeeps(p, e);
      StepJudges(p, e, h);
      JudgedOncePerConfirmation(Step(p, e), es[1..], h);
    }
  }

  /** No transaction stays in the pool through ten confirmations, and no sequencer through one. */
  lemma LeavesBeforeTenth(p: Pool, es: seq<Event>, h: Hash)
    requires Reachable(p) && ValidRun(p, es) && Stays(p, es, h)
    ensures Confirmations(p, es) < 10
    ensures p.envs[h].tx.kind == Sequencer ==> Confirmations(p, es) == 0
  {
    ReachableInv(p);
    JudgedOncePerConfirmation(p, es, h);
    assert EnvelopeOk(p.envs[h], h) && EnvelopeOk(After(p, es).envs[h], h);
  }
}
