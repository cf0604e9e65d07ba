/** What every turn of the pool loop keeps. */
module PoolInvariant {
  import opened Types
  import opened Sums
  import opened Ledgers
  import opened LedgerProofs
  import opened Pools

  // ---- the parts of the invariant ----

  ghost predicate Before(o: seq<Hash>, q: Hash, h: Hash) {
    exists i, j :: 0 <= i < j < |o| && o[i] == q && o[j] == h
  }

  ghost predicate EnvelopeOk(e: Envelope, h: Hash) {
    && e.tx.hash == h
    && 1 <= e.judgeNum <= REJUDGE_THRESHOLD
    && (e.tx.kind != Sequencer ==> h !in e.tx.parents)
  }

  /** The order lists exactly the keys of the lookup map, once each. */
  ghost predicate LookupOk(p: Pool) {
    && Lists(p.order, p.envs.Keys)
    && forall h :: h in p.envs ==> EnvelopeOk(p.envs[h], h)
  }

  ghost predicate BucketOk(envs: map<Hash, Envelope>, m: map<Hash, Tx>, s: Status) {
    && (forall h :: h in m <==> h in envs && envs[h].status == s)
    && (forall h :: h in m ==> m[h] == envs[h].tx)
  }

  /** Every lookup entry sits in the one bucket its status names. */
  ghost predicate StatusOk(p: Pool) {
    && (forall h :: h in p.envs ==> p.envs[h].status != Queue)
    && BucketOk(p.envs, p.tips, Tip) && BucketOk(p.envs, p.pendings, Pending) && BucketOk(p.envs, p.badtxs, BadTx)
  }

  /** A sequencer in the pool is a tip and already confirmed. */
  ghost predicate SeqOk(p: Pool) {
    forall h :: h in p.envs && p.envs[h].tx.kind == Sequencer ==> p.Has(h, Tip) && h in p.ledger.txs
  }

  /** Every parent of a good transaction is confirmed, or good and earlier in the pool. */
  ghost predicate ParentsOk(p: Pool) {
    forall h, q :: p.IsGood(h) && q in p.envs[h].tx.parents ==>
      q in p.ledger.txs || (p.IsGood(q) && Before(p.order, q, h))
  }

  ghost predicate Tracked(tx: Tx) {
    tx.kind != Sequencer && tx.kind != Archive
  }

  ghost predicate InFlow(p: Pool, tx: Tx) {
    tx.sender in p.flows && tx.nonce in p.flows[tx.sender].txs && p.flows[tx.sender].txs[tx.nonce] == tx
  }

  /** A flow entry is a sequencer, or a good pool transaction under its own sender and nonce. */
  ghost predicate FlowEntryOk(p: Pool, a: Address, n: nat, tx: Tx) {
    && tx.sender == a && tx.nonce == n && tx.kind != Archive
    && (tx.kind != Sequencer ==> p.IsGood(tx.hash) && p.envs[tx.hash].tx == tx)
  }

  /** The flows hold exactly the good transactions that carry a nonce, and perhaps sequencers. */
  ghost predicate FlowsOk(p: Pool) {
    && (forall a, n :: a in p.flows && n in p.flows[a].txs ==> FlowEntryOk(p, a, n, p.flows[a].txs[n]))
    && (forall h :: p.IsGood(h) && Tracked(p.envs[h].tx) ==> InFlow(p, p.envs[h].tx))
  }

  /** The transfers among the tips and pendings. */
  ghost function GoodTxs(p: Pool): set<Tx> {
    p.tips.Values + p.pendings.Values
  }

  ghost function Transfers(p: Pool): set<Tx> {
    set tx | tx in GoodTxs(p) && tx.kind == Normal
  }

  ghost predicate BalanceOk(p: Pool, a: Address, t: Token) {
    a in p.flows && t in p.flows[a].balances ==>
      var st := p.flows[a].balances[t];
      && st.origin == p.ledger.Balance(a, t)
      && st.spent == Sum(Transfers(p), Spend(a, t)) <= st.origin
  }

  /** Recorded spending is the true total of the pool's transfers, and stays within the balance. */
  ghost predicate BalancesOk(p: Pool) {
    && (forall a, t :: BalanceOk(p, a, t))
    && (forall tx :: tx in Transfers(p) ==> tx.sender in p.flows && tx.token in p.flows[tx.sender].balances)
  }

  ghost predicate NoSequencer(f: Flow) {
    forall n :: n in f.txs ==> f.txs[n].kind != Sequencer
  }

  /** Without sequencers, the nonces of a flow follow the confirmed nonce without a gap. */
  ghost predicate NoncesOk(p: Pool) {
    forall a :: a in p.flows && NoSequencer(p.flows[a]) ==>
      IsRun(p.flows[a].txs.Keys, p.ledger.LatestNonce(a))
  }

  ghost predicate LedgerOk(d: Ledger) {
    && ClosedUnderParents(d)
    && forall k :: k in d.balances ==> d.balances[k] >= 0
  }

  ghost predicate Inv(p: Pool) {
    && LookupOk(p) && StatusOk(p) && SeqOk(p) && ParentsOk(p)
    && FlowsOk(p) && BalancesOk(p) && NoncesOk(p)
    && LedgerOk(p.ledger)
  }

  // ---- orders ----

  lemma {:induction false} WithoutAbsent(o: seq<Hash>, s: set<Hash>)
    requires forall h :: h in s ==> h !in o
    ensures Without(o, s) == o
  {
    if o != [] {
      WithoutAbsent(o[..|o| - 1], s);
    }
  }

  lemma {:induction false} WithoutElems(o: seq<Hash>, s: set<Hash>)
    requires NoDup(o)
    ensures Lists(Without(o, s), Elems(o) - s)
  {
    if o != [] {
      var front, last := o[..|o| - 1], o[|o| - 1];
      assert o == front + [last];
      WithoutElems(front, s);
      var w := Without(front, s);
      forall i | 0 <= i < |w| ensures w[i] != last {
        assert w[i] in Elems(w) && last !in Elems(front);
      }
      forall x ensures x in Without(o, s) <==> x in Elems(o) - s {
        assert x in w <==> x in Elems(w);
      }
    }
  }

  lemma {:induction false} WithoutBefore(o: seq<Hash>, s: set<Hash>, q: Hash, h: Hash)
    requires NoDup(o) && Before(o, q, h) && q !in s && h !in s
    ensures Before(Without(o, s), q, h)
  {
    var front, last := o[..|o| - 1], o[|o| - 1];
    var i, j :| 0 <= i < j < |o| && o[i] == q && o[j] == h;
    var w, r := Without(front, s), Without(o, s);
    assert front[i] == q;
    if j < |front| {
      assert front[j] == h;
      WithoutBefore(front, s, q, h);
      var i', j' :| 0 <= i' < j' < |w| && w[i'] == q && w[j'] == h;
      assert r[i'] == q && r[j'] == h;
    } else {
      WithoutElems(front, s);
      assert q in Elems(front) && q in Elems(w) && q in w;
      var i' :| 0 <= i' < |w| && w[i'] == q;
      assert r[i'] == q && r[|w|] == h;
    }
  }

  lemma BeforeSnoc(o: seq<Hash>, x: Hash, q: Hash, h: Hash)
    requires Before(o, q, h) || (q in o && h == x)
    ensures Before(o + [x], q, h)
  {
    var r := o + [x];
    if Before(o, q, h) {
      var i, j :| 0 <= i < j < |o| && o[i] == q && o[j] == h;
      assert r[i] == q && r[j] == h;
    } else {
      var i :| 0 <= i < |o| && o[i] == q;
      assert r[i] == q && r[|o|] == h;
    }
  }

  // ---- verdicts ----

  /** A verdict that is not about the parents means that every parent is known and none is bad. */
  lemma {:induction false} JudgedParents(p: Pool, parents: seq<Hash>, q: Hash)
    requires JudgeParents(p, parents) == Good && q in parents
    ensures (q in p.envs && !p.Has(q, BadTx)) || q in p.ledger.txs
    ensures q in p.envs ==> !p.Has(q, BadTx)
  {
    if q != parents[0] {
      JudgedParents(p, parents[1..], q);
    }
  }

  /** A good verdict means that adding to the account flow cannot fail. */
  lemma GoodVerdictIsAccepted(p: Pool, tx: Tx)
    requires Judge(p, tx) == Good && tx.kind != Archive
    ensures FlowAccepts(Opened(p.ledger, p.FlowOf(tx.sender), tx), tx)
  {
  }

  // ---- accepting a good transaction ----

  ghost predicate LeavesWith(p: Pool, tx: Tx, k: Hash) {
    k in tx.parents && p.Has(k, Tip) && p.envs[k].tx.kind == Sequencer
  }

  /** What acceptance does to the lookup map, entry by entry. */
  ghost predicate EntriesMoved(p: Pool, env: Envelope, r: Pool) {
    && (forall k :: k in r.envs <==> k == env.tx.hash || (k in p.envs && !LeavesWith(p, env.tx, k)))
    && r.envs[env.tx.hash] == env.(status := Tip)
    && (forall k :: k in r.envs && k != env.tx.hash ==>
          r.envs[k] == if k in env.tx.parents && p.Has(k, Tip) then p.envs[k].(status := Pending) else p.envs[k])
  }

  ghost predicate FlowsMoved(p: Pool, env: Envelope, r: Pool) {
    && r.ledger == p.ledger
    && r.flows == if env.tx.kind == Archive then p.flows
                  else p.flows[env.tx.sender := FlowAdd(p.ledger, p.FlowOf(env.tx.sender), env.tx)]
  }

  ghost function Demoted(p: Pool, env: Envelope): Pool {
    Demote(Enlist(p, env), Elems(env.tx.parents))
  }

  lemma AcceptFields(p: Pool, env: Envelope)
    ensures Accept(p, env).envs == Demoted(p, env).envs[env.tx.hash := env.(status := Tip)]
    ensures Accept(p, env).tips == Demoted(p, env).tips[env.tx.hash := env.tx]
    ensures Accept(p, env).pendings == Demoted(p, env).pendings && Accept(p, env).badtxs == p.badtxs
    ensures env.tx.hash !in p.pendings ==> env.tx.hash !in p.tips ==> env.tx.hash !in Accept(p, env).pendings
  {
  }

  ghost predicate MovedAt(p: Pool, tx: Tx, k: Hash) {
    k in tx.parents && p.Has(k, Tip)
  }

  /** Which entries the parents of an arrival make leave or move. */
  lemma DemotedSets(p: Pool, env: Envelope, k: Hash)
    requires StatusOk(p) && env.tx.hash !in p.envs && k != env.tx.hash
    ensures var p1, s := Enlist(p, env), Elems(env.tx.parents);
      && (k in TipSequencers(p1, s) <==> LeavesWith(p, env.tx, k))
      && (k in TipTxs(p1, s) <==> MovedAt(p, env.tx, k) && !LeavesWith(p, env.tx, k))
    ensures (k in p.tips <==> p.Has(k, Tip)) && (k in p.tips ==> p.tips[k] == p.envs[k].tx)
    ensures (k in p.pendings <==> p.Has(k, Pending)) && (k in p.pendings ==> p.pendings[k] == p.envs[k].tx)
  {
  }

  /** What acceptance makes of one entry that was there before, or is not there at all. */
  lemma AcceptedAt(p: Pool, env: Envelope, k: Hash)
    requires StatusOk(p) && env.tx.hash !in p.envs && k != env.tx.hash
    ensures var r := Accept(p, env);
      && (k in r.envs <==> k in p.envs && !LeavesWith(p, env.tx, k))
      && (k in r.envs ==> r.envs[k] == if MovedAt(p, env.tx, k) then p.envs[k].(status := Pending) else p.envs[k])
      && (k in r.tips <==> k in p.tips && k !in env.tx.parents)
      && (k in r.tips ==> r.tips[k] == p.tips[k])
      && (k in r.pendings <==> k in p.pendings || (MovedAt(p, env.tx, k) && !LeavesWith(p, env.tx, k)))
      && (k in r.pendings ==> r.pendings[k] == p.envs[k].tx)
  {
    hide Accept, StatusOk, TipSequencers, TipTxs, Without;
    AcceptFields(p, env);
    DemotedSets(p, env, k);
  }

  lemma AcceptedEntries(p: Pool, env: Envelope)
    requires StatusOk(p) && env.tx.hash !in p.envs
    ensures EntriesMoved(p, env, Accept(p, env))
  {
    AcceptFields(p, env);
    hide Accept, StatusOk, Demoted;
    var r, h := Accept(p, env), env.tx.hash;
    forall k ensures k in r.envs <==> k == h || (k in p.envs && !LeavesWith(p, env.tx, k)) {
      if k != h {
        AcceptedAt(p, env, k);
      }
    }
    forall k | k in r.envs && k != h
      ensures r.envs[k] == if k in env.tx.parents && p.Has(k, Tip) then p.envs[k].(status := Pending) else p.envs[k]
    {
      AcceptedAt(p, env, k);
    }
  }

  /** One key of the lookup and the buckets agree. */
  ghost predicate StatusEntry(r: Pool, k: Hash) {
    && (k in r.envs ==> r.envs[k].status != Queue)
    && (k in r.tips <==> r.Has(k, Tip)) && (k in r.tips ==> r.tips[k] == r.envs[k].tx)
    && (k in r.pendings <==> r.Has(k, Pending)) && (k in r.pendings ==> r.pendings[k] == r.envs[k].tx)
    && (k in r.badtxs <==> r.Has(k, BadTx)) && (k in r.badtxs ==> r.badtxs[k] == r.envs[k].tx)
  }

  lemma StatusEntries(r: Pool)
    requires forall k {:trigger StatusEntry(r, k)} :: StatusEntry(r, k)
    ensures StatusOk(r)
  {
    forall k ensures
        && (k in r.envs ==> r.envs[k].status != Queue)
        && (k in r.tips <==> k in r.envs && r.envs[k].status == Tip) && (k in r.tips ==> r.tips[k] == r.envs[k].tx)
        && (k in r.pendings <==> k in r.envs && r.envs[k].status == Pending)
        && (k in r.pendings ==> r.pendings[k] == r.envs[k].tx)
        && (k in r.badtxs <==> k in r.envs && r.envs[k].status == BadTx)
        && (k in r.badtxs ==> r.badtxs[k] == r.envs[k].tx)
    {
      assert StatusEntry(r, k);
    }
  }

  lemma StatusAt(p: Pool, env: Envelope, k: Hash)
    requires StatusOk(p) && env.tx.hash !in p.envs && k != env.tx.hash
    ensures StatusEntry(Accept(p, env), k)
  {
    hide Accept, Demoted;
    AcceptedAt(p, env, k);
    AcceptFields(p, env);
    assert k in p.tips <==> p.Has(k, Tip);
    assert k in p.pendings <==> p.Has(k, Pending);
    assert k in p.badtxs <==> p.Has(k, BadTx);
  }

  lemma StatusAtNew(p: Pool, env: Envelope)
    requires StatusOk(p) && env.tx.hash !in p.envs
    ensures StatusEntry(Accept(p, env), env.tx.hash)
  {
    AcceptFields(p, env);
    hide Accept, Demoted;
  }

  lemma AcceptedStatus(p: Pool, env: Envelope)
    requires StatusOk(p) && env.tx.hash !in p.envs
    ensures StatusOk(Accept(p, env))
  {
    hide *;
    forall k ensures StatusEntry(Accept(p, env), k) {
      if k == env.tx.hash {
        StatusAtNew(p, env);
      } else {
        StatusAt(p, env, k);
      }
    }
    StatusEntries(Accept(p, env));
  }

  lemma AcceptedFlows(p: Pool, env: Envelope)
    ensures FlowsMoved(p, env, Accept(p, env))
  {
  }

  ghost function Gone(p: Pool, env: Envelope): set<Hash> {
    TipSequencers(Enlist(p, env), Elems(env.tx.parents))
  }

  lemma GoneIs(p: Pool, env: Envelope, k: Hash)
    requires StatusOk(p) && env.tx.hash !in p.envs
    ensures k in Gone(p, env) <==> LeavesWith(p, env.tx, k)
  {
  }

  lemma NoDupSnoc(o: seq<Hash>, s: set<Hash>, x: Hash)
    requires Lists(o, s) && x !in s
    ensures Lists(o + [x], s + {x})
  {
    assert forall i :: 0 <= i < |o| ==> o[i] in Elems(o);
  }

  lemma AcceptKeepsLookup(p: Pool, env: Envelope, r: Pool)
    requires LookupOk(p) && env.tx.hash !in p.envs && EnvelopeOk(env, env.tx.hash)
    requires forall k :: k in Gone(p, env) <==> LeavesWith(p, env.tx, k)
    requires EntriesMoved(p, env, r) && r.order == Without(p.order + [env.tx.hash], Gone(p, env))
    ensures LookupOk(r)
  {
    NoDupSnoc(p.order, p.envs.Keys, env.tx.hash);
    WithoutElems(p.order + [env.tx.hash], Gone(p, env));
    var keys := p.envs.Keys + {env.tx.hash} - Gone(p, env);
    forall k ensures k in r.envs.Keys <==> k in keys {
      assert k in Gone(p, env) <==> LeavesWith(p, env.tx, k);
    }
    assert r.envs.Keys == keys;
  }

  lemma AcceptKeepsSeq(p: Pool, env: Envelope, r: Pool)
    requires SeqOk(p) && env.tx.kind != Sequencer && EntriesMoved(p, env, r) && r.ledger == p.ledger
    ensures SeqOk(r)
  {
  }

  lemma AcceptKeepsBefore(p: Pool, env: Envelope, r: Pool, q: Hash, h: Hash)
    requires Lists(p.order, p.envs.Keys) && env.tx.hash !in p.envs
    requires r.order == Without(p.order + [env.tx.hash], Gone(p, env))
    requires q !in Gone(p, env) && h !in Gone(p, env)
    requires Before(p.order, q, h) || (q in p.envs && h == env.tx.hash)
    ensures Before(r.order, q, h)
  {
    assert q in p.envs ==> q in Elems(p.order);
    BeforeSnoc(p.order, env.tx.hash, q, h);
    NoDupSnoc(p.order, p.envs.Keys, env.tx.hash);
    WithoutBefore(p.order + [env.tx.hash], Gone(p, env), q, h);
  }

  /** A good entry stays good, unless it is a sequencer that leaves. */
  lemma StaysGood(p: Pool, env: Envelope, r: Pool, k: Hash)
    requires EntriesMoved(p, env, r) && env.tx.hash !in p.envs && p.IsGood(k) && !LeavesWith(p, env.tx, k)
    ensures r.IsGood(k)
  {
  }

  lemma WasGood(p: Pool, env: Envelope, r: Pool, k: Hash)
    requires EntriesMoved(p, env, r) && r.IsGood(k) && k != env.tx.hash
    ensures p.IsGood(k) && p.envs[k].tx == r.envs[k].tx && !LeavesWith(p, env.tx, k)
  {
  }

  /** A parent that is not confirmed was good before, and stands before the child. */
  lemma GoodParent(p: Pool, env: Envelope, r: Pool, h: Hash, q: Hash)
    requires StatusOk(p) && SeqOk(p) && ParentsOk(p) && EntriesMoved(p, env, r)
    requires env.tx.hash !in p.envs && env.tx.hash !in env.tx.parents
    requires JudgeParents(Enlist(p, env), env.tx.parents) == Good
    requires r.IsGood(h) && q in r.envs[h].tx.parents && q !in p.ledger.txs
    ensures p.IsGood(q) && !LeavesWith(p, env.tx, q)
    ensures Before(p.order, q, h) || (q in p.envs && h == env.tx.hash)
  {
    hide JudgeParents, Before;
    if h == env.tx.hash {
      NewestParent(p, env, q);
    } else {
      WasGood(p, env, r, h);
    }
  }

  lemma NewestParent(p: Pool, env: Envelope, q: Hash)
    requires StatusOk(p) && SeqOk(p) && JudgeParents(Enlist(p, env), env.tx.parents) == Good
    requires env.tx.hash !in p.envs && env.tx.hash !in env.tx.parents
    requires q in env.tx.parents && q !in p.ledger.txs
    ensures p.IsGood(q) && !LeavesWith(p, env.tx, q)
  {
    hide JudgeParents;
    JudgedParents(Enlist(p, env), env.tx.parents, q);
  }

  lemma AcceptParent(p: Pool, env: Envelope, r: Pool, h: Hash, q: Hash)
    requires Lists(p.order, p.envs.Keys) && StatusOk(p) && SeqOk(p) && ParentsOk(p)
    requires env.tx.hash !in p.envs && env.tx.hash !in env.tx.parents
    requires JudgeParents(Enlist(p, env), env.tx.parents) == Good
    requires EntriesMoved(p, env, r) && r.order == Without(p.order + [env.tx.hash], Gone(p, env))
    requires r.IsGood(h) && q in r.envs[h].tx.parents && q !in p.ledger.txs
    ensures r.IsGood(q) && Before(r.order, q, h)
  {
    hide StatusOk, SeqOk, ParentsOk, EntriesMoved, Lists, Before;
    GoodParent(p, env, r, h, q);
    StaysGood(p, env, r, q);
    NotGone(p, env, r, h);
    GoneIs(p, env, q);
    AcceptKeepsBefore(p, env, r, q, h);
  }

  lemma AcceptKeepsParents(p: Pool, env: Envelope, r: Pool)
    requires Lists(p.order, p.envs.Keys) && StatusOk(p) && SeqOk(p) && ParentsOk(p)
    requires env.tx.hash !in p.envs && env.tx.hash !in env.tx.parents
    requires JudgeParents(Enlist(p, env), env.tx.parents) == Good
    requires EntriesMoved(p, env, r) && r.ledger == p.ledger
    requires r.order == Without(p.order + [env.tx.hash], Gone(p, env))
    ensures ParentsOk(r)
  {
    hide StatusOk, SeqOk, EntriesMoved, Lists, Before;
    forall h, q | r.IsGood(h) && q in r.envs[h].tx.parents
      ensures q in r.ledger.txs || (r.IsGood(q) && Before(r.order, q, h))
    {
      if q !in r.ledger.txs {
        AcceptParent(p, env, r, h, q);
      }
    }
  }

  lemma NotGone(p: Pool, env: Envelope, r: Pool, h: Hash)
    requires StatusOk(p) && EntriesMoved(p, env, r) && env.tx.hash !in p.envs && r.IsGood(h)
    ensures h !in Gone(p, env)
  {
    GoneIs(p, env, h);
  }

  lemma AcceptKeepsFlows(p: Pool, env: Envelope, r: Pool)
    requires FlowsOk(p) && env.tx.hash !in p.envs
    requires env.tx.kind != Archive ==> FlowAccepts(Opened(p.ledger, p.FlowOf(env.tx.sender), env.tx), env.tx)
    requires EntriesMoved(p, env, r) && FlowsMoved(p, env, r)
    ensures FlowsOk(r)
  {
    forall a, n | a in r.flows && n in r.flows[a].txs
      ensures FlowEntryOk(r, a, n, r.flows[a].txs[n])
    {
      if r.flows[a].txs[n] != env.tx {
        assert a in p.flows && n in p.flows[a].txs && p.flows[a].txs[n] == r.flows[a].txs[n];
        assert FlowEntryOk(p, a, n, p.flows[a].txs[n]);
      }
    }
    forall h | r.IsGood(h) && Tracked(r.envs[h].tx)
      ensures InFlow(r, r.envs[h].tx)
    {
      if h != env.tx.hash {
        assert p.IsGood(h) && InFlow(p, p.envs[h].tx);
      }
    }
  }

  lemma GoodEntry(p: Pool, tx: Tx) returns (h: Hash)
    requires StatusOk(p) && tx in GoodTxs(p)
    ensures p.IsGood(h) && p.envs[h].tx == tx
  {
    if tx in p.tips.Values {
      h :| h in p.tips && p.tips[h] == tx;
    } else {
      h :| h in p.pendings && p.pendings[h] == tx;
    }
  }

  lemma TransferOf(p: Pool, h: Hash)
    requires StatusOk(p) && p.IsGood(h) && p.envs[h].tx.kind == Normal
    ensures p.envs[h].tx in Transfers(p)
  {
    if p.Has(h, Tip) {
      assert p.tips[h] == p.envs[h].tx && h in p.tips.Keys;
    } else {
      assert p.pendings[h] == p.envs[h].tx && h in p.pendings.Keys;
    }
  }

  lemma AcceptTransfers(p: Pool, env: Envelope, r: Pool)
    requires LookupOk(p) && StatusOk(p) && StatusOk(r) && env.tx.hash !in p.envs && EntriesMoved(p, env, r)
    ensures Transfers(r) == Transfers(p) + if env.tx.kind == Normal then {env.tx} else {}
    ensures env.tx !in Transfers(p)
  {
    forall tx ensures tx in Transfers(r) <==> tx in Transfers(p) || (tx == env.tx && tx.kind == Normal) {
      hide StatusOk, LookupOk, EntriesMoved;
      if tx in Transfers(p) {
        TransferStays(p, env, r, tx);
      }
      if tx in Transfers(r) && tx != env.tx {
        TransferWas(p, env, r, tx);
      }
      if tx == env.tx && tx.kind == Normal {
        TransferNew(env, r, p);
      }
    }
    forall tx | tx in Transfers(p) ensures tx != env.tx {
      var h := GoodEntry(p, tx);
      assert EnvelopeOk(p.envs[h], h);
    }
  }

  lemma TransferStays(p: Pool, env: Envelope, r: Pool, tx: Tx)
    requires StatusOk(p) && StatusOk(r) && env.tx.hash !in p.envs && EntriesMoved(p, env, r) && tx in Transfers(p)
    ensures tx in Transfers(r)
  {
    var h := GoodEntry(p, tx);
    StaysGood(p, env, r, h);
    TransferOf(r, h);
  }

  lemma TransferWas(p: Pool, env: Envelope, r: Pool, tx: Tx)
    requires StatusOk(p) && StatusOk(r) && EntriesMoved(p, env, r) && tx in Transfers(r) && tx != env.tx
    ensures tx in Transfers(p)
  {
    var h := GoodEntry(r, tx);
    WasGood(p, env, r, h);
    TransferOf(p, h);
  }

  lemma TransferNew(env: Envelope, r: Pool, p: Pool)
    requires StatusOk(r) && EntriesMoved(p, env, r) && env.tx.kind == Normal
    ensures env.tx in Transfers(r)
  {
    TransferOf(r, env.tx.hash);
  }

  lemma NoTransfersNoSum(s: set<Tx>, a: Address, t: Token)
    requires forall tx :: tx in s ==> !(tx.kind == Normal && tx.sender == a && tx.token == t)
    ensures Sum(s, Spend(a, t)) == 0
    decreases |s|
  {
    if s != {} {
      NoTransfersNoSum(s - {Pick(s)}, a, t);
    }
  }

  lemma AcceptKeepsBalances(p: Pool, env: Envelope, r: Pool)
    requires BalancesOk(p) && FlowsMoved(p, env, r)
    requires env.tx.kind != Archive ==> FlowAccepts(Opened(p.ledger, p.FlowOf(env.tx.sender), env.tx), env.tx)
    requires env.tx !in Transfers(p)
    requires Transfers(r) == Transfers(p) + if env.tx.kind == Normal then {env.tx} else {}
    ensures BalancesOk(r)
  {
    hide BalanceOk, Sum;
    forall a, t ensures BalanceOk(r, a, t) {
      AcceptedBalance(p, env, r, a, t);
    }
  }

  lemma AcceptedBalance(p: Pool, env: Envelope, r: Pool, a: Address, t: Token)
    requires BalancesOk(p) && FlowsMoved(p, env, r)
    requires env.tx.kind != Archive ==> FlowAccepts(Opened(p.ledger, p.FlowOf(env.tx.sender), env.tx), env.tx)
    requires env.tx !in Transfers(p)
    requires Transfers(r) == Transfers(p) + if env.tx.kind == Normal then {env.tx} else {}
    ensures BalanceOk(r, a, t)
  {
    hide Transfers, Sum;
    assert Transfers(p) + {} == Transfers(p);
    assert BalanceOk(p, a, t);
    if env.tx.kind == Normal {
      SumAdd(Transfers(p), Spend(a, t), env.tx);
      if a == env.tx.sender && t == env.tx.token && !(a in p.flows && t in p.flows[a].balances) {
        NoTransfersNoSum(Transfers(p), a, t);
      }
    }
  }

  lemma AcceptKeepsNonces(p: Pool, env: Envelope, r: Pool)
    requires NoncesOk(p) && FlowsMoved(p, env, r)
    requires env.tx.kind != Archive ==> JudgeAccount(p.ledger, p.FlowOf(env.tx.sender), env.tx) == Good
    ensures NoncesOk(r)
  {
    var tx := env.tx;
    forall a | a in r.flows && NoSequencer(r.flows[a])
      ensures IsRun(r.flows[a].txs.Keys, r.ledger.LatestNonce(a))
    {
      if a == tx.sender && tx.kind != Archive {
        var f := p.FlowOf(a);
        AddedTxs(p.ledger, f, tx);
        forall n | n in f.txs ensures f.txs[n].kind != Sequencer {
          assert r.flows[a].txs[n] == f.txs[n];
        }
        ExtendRun(f.txs, r.flows[a].txs, p.ledger.LatestNonce(a), tx);
      }
    }
  }

  lemma RunMax(s: set<nat>, low: nat)
    requires IsRun(s, low) && s != {}
    ensures MaxOf(s) == low + |s|
  {
    assert low + |s| in s;
  }

  lemma RunSnoc(s: set<nat>, low: nat)
    requires IsRun(s, low)
    ensures IsRun(s + {low + |s| + 1}, low)
  {
  }

  lemma AddedTxs(d: Ledger, f: Flow, tx: Tx)
    requires FlowAccepts(Opened(d, f, tx), tx)
    ensures FlowAdd(d, f, tx).txs == f.txs[tx.nonce := tx]
  {
  }

  lemma ExtendRun(f: map<nat, Tx>, g: map<nat, Tx>, low: nat, tx: Tx)
    requires g == f[tx.nonce := tx] && tx.nonce !in f
    requires tx.nonce == 1 + if f.Keys != {} then MaxOf(f.Keys) else low
    requires IsRun(f.Keys, low)
    ensures IsRun(g.Keys, low)
  {
    assert g.Keys == f.Keys + {tx.nonce};
    if f.Keys != {} {
      RunMax(f.Keys, low);
    }
    RunSnoc(f.Keys, low);
  }

  // ---- one transaction offered to the pool ----

  lemma ShelveKeepsLookup(p: Pool, env: Envelope)
    requires LookupOk(p) && env.tx.hash !in p.envs && EnvelopeOk(env, env.tx.hash)
    ensures LookupOk(Shelve(p, env))
  {
    NoDupSnoc(p.order, p.envs.Keys, env.tx.hash);
    assert Shelve(p, env).envs.Keys == p.envs.Keys + {env.tx.hash};
  }

  lemma ShelveKeepsStatus(p: Pool, env: Envelope)
    requires StatusOk(p) && SeqOk(p) && env.tx.hash !in p.envs && env.tx.kind != Sequencer
    ensures StatusOk(Shelve(p, env)) && SeqOk(Shelve(p, env))
  {
    hide StatusOk;
    forall k ensures StatusEntry(Shelve(p, env), k) {
      ShelvedAt(p, env, k);
    }
    StatusEntries(Shelve(p, env));
  }

  lemma ShelvedAt(p: Pool, env: Envelope, k: Hash)
    requires StatusOk(p) && env.tx.hash !in p.envs
    ensures StatusEntry(Shelve(p, env), k)
  {
    assert k in p.tips <==> p.Has(k, Tip);
    assert k in p.pendings <==> p.Has(k, Pending);
    assert k in p.badtxs <==> p.Has(k, BadTx);
  }

  lemma ShelveKeepsParents(p: Pool, env: Envelope)
    requires ParentsOk(p) && env.tx.hash !in p.envs
    ensures ParentsOk(Shelve(p, env))
  {
    var r := Shelve(p, env);
    forall h, q | r.IsGood(h) && q in r.envs[h].tx.parents
      ensures q in r.ledger.txs || (r.IsGood(q) && Before(r.order, q, h))
    {
      assert p.IsGood(h) && q in p.envs[h].tx.parents;
      if q !in r.ledger.txs {
        BeforeSnoc(p.order, env.tx.hash, q, h);
      }
    }
  }

  lemma ShelveKeepsFlows(p: Pool, env: Envelope)
    requires FlowsOk(p) && BalancesOk(p) && NoncesOk(p) && env.tx.hash !in p.envs
    ensures FlowsOk(Shelve(p, env)) && BalancesOk(Shelve(p, env)) && NoncesOk(Shelve(p, env))
  {
    var r := Shelve(p, env);
    assert Transfers(r) == Transfers(p);
    forall a, n | a in r.flows && n in r.flows[a].txs ensures FlowEntryOk(r, a, n, r.flows[a].txs[n]) {
      assert FlowEntryOk(p, a, n, p.flows[a].txs[n]);
    }
    forall h | r.IsGood(h) && Tracked(r.envs[h].tx) ensures InFlow(r, r.envs[h].tx) {
      assert p.IsGood(h) && InFlow(p, p.envs[h].tx);
    }
    forall a, t ensures BalanceOk(r, a, t) {
      assert BalanceOk(p, a, t);
    }
  }

  lemma ShelveKeeps(p: Pool, env: Envelope)
    requires Inv(p) && env.tx.hash !in p.envs && env.tx.kind != Sequencer && EnvelopeOk(env, env.tx.hash)
    ensures Inv(Shelve(p, env)) && Shelve(p, env).ledger == p.ledger
  {
    hide LookupOk, StatusOk, SeqOk, ParentsOk, FlowsOk, BalancesOk, NoncesOk, LedgerOk, EnvelopeOk;
    ShelveKeepsLookup(p, env);
    ShelveKeepsStatus(p, env);
    ShelveKeepsParents(p, env);
    ShelveKeepsFlows(p, env);
  }

  lemma GoneAre(p: Pool, env: Envelope)
    requires StatusOk(p) && env.tx.hash !in p.envs
    ensures forall k :: k in Gone(p, env) <==> LeavesWith(p, env.tx, k)
  {
    forall k ensures k in Gone(p, env) <==> LeavesWith(p, env.tx, k) {
      GoneIs(p, env, k);
    }
  }

  lemma AcceptKeepsEntries(p: Pool, env: Envelope, r: Pool)
    requires LookupOk(p) && StatusOk(p) && SeqOk(p) && ParentsOk(p) && r == Accept(p, env)
    requires env.tx.hash !in p.envs && env.tx.kind != Sequencer && EnvelopeOk(env, env.tx.hash)
    requires JudgeParents(Enlist(p, env), env.tx.parents) == Good
    ensures EntriesMoved(p, env, r) && LookupOk(r) && StatusOk(r) && SeqOk(r) && ParentsOk(r)
  {
    assert Lists(p.order, p.envs.Keys) && env.tx.hash !in env.tx.parents;
    assert r.order == Without(p.order + [env.tx.hash], Gone(p, env)) && r.ledger == p.ledger;
    hide LookupOk, StatusOk, SeqOk, ParentsOk, EntriesMoved, Accept;
    AcceptedEntries(p, env);
    GoneAre(p, env);
    AcceptKeepsLookup(p, env, r);
    AcceptedStatus(p, env);
    AcceptKeepsSeq(p, env, r);
    AcceptKeepsParents(p, env, r);
  }

  lemma AcceptKeepsAccounts(p: Pool, env: Envelope, r: Pool)
    requires LookupOk(p) && StatusOk(p) && FlowsOk(p) && BalancesOk(p) && NoncesOk(p) && r == Accept(p, env)
    requires env.tx.hash !in p.envs && EntriesMoved(p, env, r) && StatusOk(r)
    requires env.tx.kind != Archive ==> JudgeAccount(p.ledger, p.FlowOf(env.tx.sender), env.tx) == Good
    ensures FlowsOk(r) && BalancesOk(r) && NoncesOk(r)
  {
    hide LookupOk, StatusOk, FlowsOk, BalancesOk, NoncesOk, EntriesMoved, Accept;
    AcceptedFlows(p, env);
    AcceptKeepsFlows(p, env, r);
    AcceptTransfers(p, env, r);
    AcceptKeepsBalances(p, env, r);
    AcceptKeepsNonces(p, env, r);
  }

  lemma AcceptKeeps(p: Pool, env: Envelope)
    requires Inv(p) && env.tx.hash !in p.envs && env.tx.kind != Sequencer && EnvelopeOk(env, env.tx.hash)
    requires Judge(Enlist(p, env), env.tx) == Good
    ensures Inv(Accept(p, env)) && Accept(p, env).ledger == p.ledger
  {
    var r := Accept(p, env);
    hide LookupOk, StatusOk, SeqOk, ParentsOk, FlowsOk, BalancesOk, NoncesOk, LedgerOk, EntriesMoved, EnvelopeOk;
    AcceptKeepsEntries(p, env, r);
    AcceptKeepsAccounts(p, env, r);
  }

  /** Offering any transaction keeps the invariant. */
  lemma AdmitKeeps(p: Pool, env: Envelope)
    requires Inv(p) && env.tx.kind != Sequencer && EnvelopeOk(env, env.tx.hash)
    ensures Inv(Admit(p, env)) && Admit(p, env).ledger == p.ledger
  {
    hide Inv, EnvelopeOk;
    if env.tx.hash !in p.envs {
      match Judge(Enlist(p, env), env.tx)
      case Fatal =>
      case Bad => ShelveKeeps(p, env);
      case Good => AcceptKeeps(p, env);
    }
  }
}
