/** The pool as an object that is updated in place, step by step, and what its steps amount to. */
module PoolObject {
  import opened Types
  import opened Graph
  import opened Ledgers
  import opened Pools
  import opened FlowObjects
  import opened PoolInvariant
  import opened PoolRuns
  import opened BatchCheck

  // ---- orders and demotion, one element at a time ----

  lemma {:induction false} WithoutAt(o: seq<Hash>, i: nat)
    requires NoDup(o) && i < |o|
    ensures Without(o, {o[i]}) == o[..i] + o[i + 1..]
  {
    var front := o[..|o| - 1];
    if i == |front| {
      WithoutAbsent(front, {o[i]});
      assert o[..i] + o[i + 1..] == front;
    } else {
      WithoutAt(front, i);
      assert o[..i] == front[..i] && o[i + 1..] == front[i + 1..] + [o[|o| - 1]];
      assert o[..i] + o[i + 1..] == front[..i] + front[i + 1..] + [o[|o| - 1]];
    }
  }

  lemma {:induction false} WithoutTwice(o: seq<Hash>, s: set<Hash>, t: set<Hash>)
    ensures Without(Without(o, s), t) == Without(o, s + t)
  {
    if o != [] {
      var front, last := o[..|o| - 1], o[|o| - 1];
      WithoutTwice(front, s, t);
      var w := Without(front, s);
      if last !in s {
        assert (w + [last])[..|w|] == w;
      }
    }
  }

  /** What the commit loop does with one parent. */
  function DemoteOne(p: Pool, q: Hash): Pool {
    if !p.Has(q, Tip) || q !in p.tips then p
    else if p.tips[q].kind == Sequencer then
      p.(tips := p.tips - {q}, order := Without(p.order, {q}), envs := p.envs - {q})
    else
      p.(tips := p.tips - {q}, pendings := p.pendings[q := p.tips[q]],
         envs := p.envs[q := p.envs[q].(status := Pending)])
  }

  lemma DemoteNone(p: Pool)
    ensures Demote(p, {}) == p
  {
    assert TipSequencers(p, {}) == {} && TipTxs(p, {}) == {};
    WithoutAbsent(p.order, {});
    var r := Demote(p, {});
    assert r.envs == p.envs && r.tips == p.tips && r.pendings == p.pendings;
  }

  lemma DemoteAgain(p: Pool, s: set<Hash>, q: Hash)
    requires q in s || !p.Has(q, Tip) || q !in p.tips
    ensures Demote(p, s + {q}) == DemoteOne(Demote(p, s), q)
  {
    assert TipSequencers(p, s + {q}) == TipSequencers(p, s);
    assert TipTxs(p, s + {q}) == TipTxs(p, s);
  }

  lemma DemoteSequencer(p: Pool, s: set<Hash>, q: Hash)
    requires q !in s && p.Has(q, Tip) && q in p.tips && p.tips[q].kind == Sequencer
    ensures Demote(p, s + {q}) == DemoteOne(Demote(p, s), q)
  {
    var r, one := Demote(p, s + {q}), DemoteOne(Demote(p, s), q);
    assert TipSequencers(p, s + {q}) == TipSequencers(p, s) + {q};
    assert TipTxs(p, s + {q}) == TipTxs(p, s);
    WithoutTwice(p.order, TipSequencers(p, s), {q});
    assert r.envs == one.envs;
    assert r.tips == one.tips;
  }

  lemma DemoteTxSets(p: Pool, s: set<Hash>, q: Hash)
    requires q !in s && p.Has(q, Tip) && q in p.tips && p.tips[q].kind != Sequencer
    ensures TipSequencers(p, s + {q}) == TipSequencers(p, s)
    ensures TipTxs(p, s + {q}) == TipTxs(p, s) + {q}
    ensures q !in TipSequencers(p, s) && q !in TipTxs(p, s) && forall h :: h in TipTxs(p, s) ==> h in p.tips
  {
  }

  lemma DemoteTxEnvs(p: Pool, s: set<Hash>, q: Hash)
    requires q !in s && p.Has(q, Tip) && q in p.tips && p.tips[q].kind != Sequencer
    ensures Demote(p, s + {q}).envs == Demote(p, s).envs[q := p.envs[q].(status := Pending)]
    ensures q in Demote(p, s).envs && Demote(p, s).envs[q] == p.envs[q]
  {
    DemoteTxSets(p, s, q);
    hide Without, TipSequencers, TipTxs;
  }

  lemma DemoteTx(p: Pool, s: set<Hash>, q: Hash)
    requires q !in s && p.Has(q, Tip) && q in p.tips && p.tips[q].kind != Sequencer
    ensures Demote(p, s + {q}) == DemoteOne(Demote(p, s), q)
  {
    hide Demote;
    DemoteTxEnvs(p, s, q);
    DemoteTxBuckets(p, s, q);
  }

  lemma DemoteTxBuckets(p: Pool, s: set<Hash>, q: Hash)
    requires q !in s && p.Has(q, Tip) && q in p.tips && p.tips[q].kind != Sequencer
    ensures var r, one := Demote(p, s + {q}), Demote(p, s);
      && q in one.tips && one.tips[q] == p.tips[q] && r.tips == one.tips - {q}
      && r.pendings == one.pendings[q := p.tips[q]]
      && r.order == one.order && r.badtxs == one.badtxs && r.flows == one.flows && r.ledger == one.ledger
  {
    hide Without, TipSequencers, TipTxs;
    DemoteTxSets(p, s, q);
  }

  /** Demoting a set is demoting its members one after the other. */
  lemma DemoteStep(p: Pool, s: set<Hash>, q: Hash)
    ensures Demote(p, s + {q}) == DemoteOne(Demote(p, s), q)
  {
    if q in s || !p.Has(q, Tip) || q !in p.tips {
      DemoteAgain(p, s, q);
    } else if p.tips[q].kind == Sequencer {
      DemoteSequencer(p, s, q);
    } else {
      DemoteTx(p, s, q);
    }
  }

  lemma DemoteNext(p: Pool, parents: seq<Hash>, i: nat)
    requires NoDup(p.order) && i < |parents|
    ensures NoDup(Demote(p, Elems(parents[..i])).order)
    ensures Demote(p, Elems(parents[..i + 1])) == DemoteOne(Demote(p, Elems(parents[..i])), parents[i])
  {
    assert parents[..i + 1] == parents[..i] + [parents[i]];
    assert Elems(parents[..i + 1]) == Elems(parents[..i]) + {parents[i]};
    DemoteStep(p, Elems(parents[..i]), parents[i]);
    WithoutElems(p.order, TipSequencers(p, Elems(parents[..i])));
  }

  /** The first position of `h`, or the length of the order. */
  method FindFromFront(o: seq<Hash>, h: Hash) returns (i: nat)
    ensures i <= |o| && h !in o[..i] && (i < |o| ==> o[i] == h)
  {
    i := 0;
    while i < |o| && o[i] != h
      invariant 0 <= i <= |o| && h !in o[..i]
    {
      i := i + 1;
    }
  }

  /** The last position of `h`, or -1. */
  method FindFromEnd(o: seq<Hash>, h: Hash) returns (i: int)
    ensures -1 <= i < |o| && (i >= 0 ==> o[i] == h)
    ensures forall j :: i < j < |o| ==> o[j] != h
  {
    i := |o| - 1;
    while i >= 0 && o[i] != h
      invariant -1 <= i < |o|
      invariant forall j :: i < j < |o| ==> o[j] != h
    {
      i := i - 1;
    }
  }

  class TxPool {
    var order: seq<Hash>
    var envs: map<Hash, Envelope>
    var tips: map<Hash, Tx>
    var pendings: map<Hash, Tx>
    var badtxs: map<Hash, Tx>
    var flows: AccountFlows
    const dag: Dag

    ghost function State(): Pool
      reads this, dag, flows
    {
      Pool(order, envs, tips, pendings, badtxs, flows.view, dag.View())
    }

    /** The flows are the same object, with new parts at most. */
    twostate predicate FlowsGrew()
      reads this, flows, flows.cells, flows.lists
    {
      flows == old(flows) && flows.Valid() && fresh(flows.cells - old(flows.cells))
        && fresh(flows.lists - old(flows.lists))
    }

    constructor (d: Dag, genesis: Tx)
      ensures dag == d && flows.Valid() && fresh(flows) && flows.cells == {} && flows.lists == {}
      ensures State() == Initial(d.View(), genesis)
      ensures order == [genesis.hash] && envs == map[genesis.hash := Envelope(genesis, Tip, 1)]
      ensures tips == map[genesis.hash := genesis] && pendings == map[] && badtxs == map[] && flows.view == map[]
    {
      order, envs := [genesis.hash], map[genesis.hash := Envelope(genesis, Tip, 1)];
      tips, pendings, badtxs := map[genesis.hash := genesis], map[], map[];
      flows := new AccountFlows();
      dag := d;
    }

    // ---- judging ----

    method JudgeParentsOf(tx: Tx) returns (q: Quality)
      ensures q == JudgeParents(State(), tx.parents)
    {
      var i := 0;
      while i < |tx.parents|
        invariant 0 <= i <= |tx.parents|
        invariant JudgeParents(State(), tx.parents) == JudgeParents(State(), tx.parents[i..])
      {
        var h := tx.parents[i];
        if h in envs {
          if envs[h].status == BadTx {
            return Bad;
          }
        } else if h !in dag.txs {
          return Fatal;
        }
        i := i + 1;
      }
      q := Good;
    }

    /** isBadTx; looking for the latest nonce sorts the heap of the sender. */
    method IsBadTx(tx: Tx) returns (q: Quality)
      requires flows.Valid()
      modifies flows.lists
      ensures flows.Valid() && q == Judge(State(), tx)
    {
      q := JudgeParentsOf(tx);
      if q != Good || tx.kind == Archive {
        return;
      }
      ghost var f := State().FlowOf(tx.sender);
      var inPool := flows.GetTxByNonce(tx.sender, tx.nonce);
      if inPool.Some? {
        return if inPool.value.hash == tx.hash then Fatal else Bad;
      }
      if (tx.sender, tx.nonce) in dag.byNonce && dag.byNonce[(tx.sender, tx.nonce)] in dag.txs {
        return Fatal;
      }
      var ok, latest := flows.GetLatestNonce(tx.sender);
      if !ok {
        latest := if tx.sender in dag.nonces then dag.nonces[tx.sender] else 0;
      }
      assert latest + 1 == NextNonce(dag.View(), f, tx.sender);
      if tx.nonce != latest + 1 {
        return Fatal;
      }
      if tx.kind == Normal {
        q := JudgeBalance(tx);
      } else {
        q := Good;
      }
    }

    method JudgeBalance(tx: Tx) returns (q: Quality)
      requires flows.Valid()
      ensures var st := BalanceStateOf(dag.View(), State().FlowOf(tx.sender), tx.sender, tx.token);
        q == if tx.value > st.origin then Fatal else if st.spent + tx.value > st.origin then Bad else Good
    {
      var balance := if (tx.sender, tx.token) in dag.balances then dag.balances[(tx.sender, tx.token)] else 0;
      var known := flows.GetBalanceState(tx.sender, tx.token);
      var st := if known.Some? then known.value else BalanceState(0, balance);
      q := if tx.value > st.origin then Fatal else if st.spent + tx.value > st.origin then Bad else Good;
    }

    // ---- committing ----

    /** The commit loop's treatment of one parent. */
    method MoveParent(q: Hash)
      requires NoDup(order)
      modifies this`order, this`envs, this`tips, this`pendings
      ensures State() == DemoteOne(old(State()), q)
    {
      if q !in envs || envs[q].status != Tip || q !in tips {
        return;
      }
      var parent := tips[q];
      tips := tips - {q};
      if parent.kind == Sequencer {
        var i := FindFromFront(order, q);
        if i < |order| {
          WithoutAt(order, i);
          order := order[..i] + order[i + 1..];
        } else {
          assert order[..i] == order;
          WithoutAbsent(order, {q});
        }
        envs := envs - {q};
      } else {
        pendings := pendings[q := parent];
        envs := envs[q := envs[q].(status := Pending)];
      }
    }

    method MoveParents(parents: seq<Hash>)
      requires NoDup(order)
      modifies this`order, this`envs, this`tips, this`pendings
      ensures State() == Demote(old(State()), Elems(parents))
    {
      ghost var p := State();
      DemoteNone(p);
      assert Elems(parents[..0]) == {};
      var i := 0;
      hide Demote, DemoteOne;
      while i < |parents|
        invariant 0 <= i <= |parents|
        invariant State() == Demote(p, Elems(parents[..i]))
      {
        DemoteNext(p, parents, i);
        MoveParent(parents[i]);
        i := i + 1;
      }
      assert parents[..i] == parents;
    }

    method AddFlow(tx: Tx)
      requires flows.Valid()
      modifies flows, flows.cells, flows.lists
      ensures FlowsGrew() && State() == AddToFlows(old(State()), tx)
    {
      hide FlowAdd;
      if tx.kind != Archive {
        flows.OpenFlow(tx.sender);
      }
      flows.Add(tx, dag);
    }

    /** Takes the newest lookup entry out again. */
    method Unlist(tx: Tx, ghost p: Pool, ghost env: Envelope)
      requires Lists(p.order, p.envs.Keys) && env.tx == tx && tx.hash !in p.envs
      requires State() == Enlist(p, env)
      modifies this`order, this`envs
      ensures State() == p
    {
      var i := FindFromEnd(order, tx.hash);
      assert order[|order| - 1] == tx.hash;
      order := order[..i] + order[i + 1..];
      envs := envs - {tx.hash};
      assert order == p.order && envs == p.envs;
    }

    method CommitBad(tx: Tx, ghost p: Pool, ghost env: Envelope)
      requires StatusOk(p) && env.tx == tx && tx.hash !in p.envs && State() == Enlist(p, env)
      modifies this`badtxs, this`envs
      ensures State() == Shelve(p, env)
    {
      if tx.hash !in badtxs {
        badtxs := badtxs[tx.hash := tx];
      }
      envs := envs[tx.hash := envs[tx.hash].(status := BadTx)];
      assert envs == p.envs[tx.hash := env.(status := BadTx)];
    }

    method CommitGood(tx: Tx, ghost p: Pool, ghost env: Envelope)
      requires flows.Valid() && Lists(p.order, p.envs.Keys) && StatusOk(p)
      requires env.tx == tx && tx.hash !in p.envs && env.status == Queue && State() == Enlist(p, env)
      modifies this, flows, flows.cells, flows.lists
      ensures FlowsGrew() && State() == Accept(p, env)
    {
      hide Demote, StatusOk, AddToFlows, Lists;
      OrderOk(p, env);
      MoveParents(tx.parents);
      AddFlow(tx);
      DemoteSelf(p, env);
      if tx.hash !in tips {
        tips := tips[tx.hash := tx];
      }
      envs := envs[tx.hash := envs[tx.hash].(status := Tip)];
    }

    /** commit, for a transaction the loop has just put into the lookup. */
    method Commit(tx: Tx, ghost p: Pool, ghost env: Envelope) returns (ok: bool)
      requires flows.Valid() && Lists(p.order, p.envs.Keys) && StatusOk(p)
      requires env.tx == tx && tx.hash !in p.envs && env.status == Queue && State() == Enlist(p, env)
      modifies this, flows, flows.cells, flows.lists
      ensures FlowsGrew() && State() == Admit(p, env)
      ensures ok <==> Judge(Enlist(p, env), tx) != Fatal
    {
      hide Judge, Accept, Shelve, StatusOk, Lists;
      var quality := IsBadTx(tx);
      ok := quality != Fatal;
      match quality
      case Fatal => Unlist(tx, p, env);
      case Bad => CommitBad(tx, p, env);
      case Good => CommitGood(tx, p, env);
    }

    // ---- confirming ----

    /** seekElders, on this pool and its ledger. */
    method SeekElders(s: Tx) returns (ok: bool, elders: map<Hash, Tx>)
      ensures ok <==> AllKnown(State(), s)
      ensures ok ==> elders.Values == Elders(State(), s)
      ensures ok ==> forall h :: h in elders ==> h in envs && elders[h] == envs[h].tx
    {
      var found: map<Hash, Envelope>;
      ok, found := Explore(envs, (e: Envelope) => e.tx.parents, dag.txs.Keys, s.parents, Edges(State()));
      elders := map h | h in found :: found[h].tx;
      if ok {
        EldersAre(State(), s, elders);
      } else {
        ghost var h: Hash :| Reached(Edges(State()), s.parents, h) && h !in envs && h !in dag.txs.Keys;
      }
    }

    /** Takes the confirmed transactions out of the lookup map, but not out of the order. */
    method DropFromMap(batch: seq<Tx>)
      modifies this`envs
      ensures envs == old(envs) - HashesOf(batch)
    {
      var i := 0;
      while i < |batch|
        invariant 0 <= i <= |batch|
        invariant envs == old(envs) - HashesOf(batch[..i])
      {
        assert batch[..i + 1] == batch[..i] + [batch[i]];
        assert HashesOf(batch[..i + 1]) == HashesOf(batch[..i]) + {batch[i].hash};
        envs := envs - {batch[i].hash};
        i := i + 1;
      }
      assert batch[..i] == batch;
    }

    method Gather() returns (left: seq<Envelope>)
      ensures left == Leftovers(order, envs)
    {
      left := [];
      var i := 0;
      while i < |order|
        invariant 0 <= i <= |order|
        invariant left == Leftovers(order[..i], envs)
      {
        assert order[..i + 1][..i] == order[..i];
        var h := order[i];
        if h in envs && envs[h].tx.kind != Sequencer {
          left := left + [envs[h]];
        }
        i := i + 1;
      }
      assert order[..i] == order;
    }

    /** Puts one envelope back into the lookup and commits it. */
    method RejudgeNext(env: Envelope)
      requires flows.Valid() && Lists(order, envs.Keys) && StatusOk(State()) && env.tx.hash !in envs
        && env.status == Queue
      modifies this, flows, flows.cells, flows.lists
      ensures FlowsGrew() && State() == Admit(old(State()), env)
    {
      ghost var q := State();
      order, envs := order + [env.tx.hash], envs[env.tx.hash := env];
      var _ := Commit(env.tx, q, env);
    }

    /** Offers the leftovers to the cleared pool again, one after the other. */
    method RejudgeAll(left: seq<Envelope>, ghost d: Ledger)
      requires flows.Valid() && LedgerOk(d) && State() == Cleared(d) && Judgeable(Ready(left))
      modifies this, flows, flows.cells, flows.lists
      ensures FlowsGrew() && State() == Rejudge(Cleared(d), Ready(left))
    {
      hide Rejudge, Judgeable, Ready, LedgerOk;
      RejudgeNone(left, d);
      var i := 0;
      while i < |left|
        invariant 0 <= i <= |left| && FlowsGrew()
        invariant State() == Rejudge(Cleared(d), Ready(left[..i]))
      {
        RejudgeAt(left, i, d);
        i := i + 1;
      }
      assert left[..i] == left;
    }

    /** An envelope that has been judged ten times is thrown away. */
    method RejudgeAt(left: seq<Envelope>, i: nat, ghost d: Ledger)
      requires flows.Valid() && LedgerOk(d) && Judgeable(Ready(left)) && i < |left|
      requires State() == Rejudge(Cleared(d), Ready(left[..i]))
      modifies this, flows, flows.cells, flows.lists
      ensures FlowsGrew() && State() == Rejudge(Cleared(d), Ready(left[..i + 1]))
    {
      hide Rejudge, Judgeable, Ready, LedgerOk, StatusOk, Lists;
      if left[i].judgeNum < REJUDGE_THRESHOLD {
        var env := left[i].(status := Queue, judgeNum := left[i].judgeNum + 1);
        NextIsReady(d, left, i, env, State());
        ReadySnoc(left, i, env);
        RejudgeSnoc(Cleared(d), Ready(left[..i]), env);
        RejudgeNext(env);
      } else {
        NotReady(left, i);
      }
    }

    /** solveConflicts: after a push, everything left is judged again and the sequencer re-enters the lookup. */
    method SolveConflicts(s: Tx, batch: seq<Tx>, ghost p: Pool, ghost d: Ledger)
      requires LookupOk(p) && s.kind == Sequencer && s.hash !in p.envs && LedgerOk(d)
      requires State() == Enlist(p, Envelope(s, Queue, 1)).(ledger := d)
      modifies this
      ensures flows.Valid() && fresh(flows) && fresh(flows.cells) && fresh(flows.lists)
      ensures State() == Enlist(Rejudge(Cleared(d), Survivors(p.order, p.envs, HashesOf(batch))), Envelope(s, Queue, 1))
    {
      hide LookupOk, Survivors, Rejudge, Judgeable, Ready, Leftovers, LedgerOk;
      var seqEnv := envs[s.hash];
      DropFromMap(batch);
      var left := Gather();
      LeftoversAre(p, s, HashesOf(batch), envs);
      SurvivorsJudgeable(p, HashesOf(batch));
      ClearAll(d);
      RejudgeAll(left, d);
      order, envs := order + [s.hash], envs[s.hash := seqEnv];
    }

    method ClearAll(ghost d: Ledger)
      requires dag.View() == d
      modifies this
      ensures flows.Valid() && fresh(flows) && flows.cells == {} && flows.lists == {} && State() == Cleared(d)
    {
      order, envs, tips, pendings, badtxs := [], map[], map[], map[], map[];
      flows := new AccountFlows();
    }

    /** isBadSeq, seekElders and verifyConfirmBatch: nothing changes yet. */
    method ConfirmHelper(s: Tx, ghost p: Pool) returns (ok: bool, batch: seq<Tx>)
      requires LookupOk(p) && s.kind == Sequencer && s.hash !in p.envs && State() == Enlist(p, Envelope(s, Queue, 1))
      ensures ok <==> Confirmable(p, s)
      ensures ok ==> IsConfirmation(p, s, batch)
    {
      ok, batch := false, [];
      if (s.sender, s.nonce) in dag.byNonce && dag.byNonce[(s.sender, s.nonce)] in dag.txs {
        return;
      }
      if dag.height + 1 != s.height {
        return;
      }
      var known, elders := SeekElders(s);
      if !known {
        return;
      }
      EldersKeyed(p, s, elders);
      ok, batch := VerifyConfirmBatch(dag.View(), s, elders);
    }

    /** The sequencer, already in the lookup, becomes a tip and enters its sender's flow. */
    method AddSequencer(s: Tx, ghost q: Pool)
      requires flows.Valid() && State() == Enlist(q, Envelope(s, Queue, 1)) && s.hash !in q.envs && s.hash !in q.tips
      modifies this, flows, flows.cells, flows.lists
      ensures FlowsGrew() && State() == AddSeq(q, s)
    {
      AddFlow(s);
      if s.hash !in tips {
        tips := tips[s.hash := s];
      }
      envs := envs[s.hash := envs[s.hash].(status := Tip)];
      assert envs == q.envs[s.hash := Envelope(s, Tip, 1)];
    }

    /** The part of confirm that follows a successful check. */
    method Advance(s: Tx, batch: seq<Tx>, ghost p: Pool, ghost q: Pool)
      requires LookupOk(p) && s.kind == Sequencer && s.hash !in p.envs && State() == Enlist(p, Envelope(s, Queue, 1))
      requires p.ledger.height + 1 == s.height && LedgerOk(Pushed(p.ledger, s, batch))
      requires q == Again(p, s, batch) && s.hash !in q.envs && s.hash !in q.tips
      modifies this, dag
      ensures flows.Valid() && fresh(flows) && fresh(flows.cells) && fresh(flows.lists)
      ensures State() == AddSeq(q, s)
    {
      hide LookupOk, LedgerOk, Pushed, Rejudge, Survivors, AddSeq;
      var pushed := dag.Push(s, batch);
      SolveConflicts(s, batch, p, Pushed(p.ledger, s, batch));
      AddSequencer(s, q);
    }

    /** confirm, for a sequencer the loop has just put into the lookup. */
    method Confirm(s: Tx, ghost p: Pool) returns (ok: bool, batch: seq<Tx>)
      requires flows.Valid() && Inv(p) && s.kind == Sequencer && s.hash !in p.envs
      requires State() == Enlist(p, Envelope(s, Queue, 1))
      modifies this, dag
      ensures flows.Valid()
      ensures ok <==> Confirmable(p, s)
      ensures ok ==> IsConfirmation(p, s, batch) && State() == Confirmed(p, s, batch)
      ensures !ok ==> State() == old(State())
    {
      ok, batch := ConfirmHelper(s, p);
      if ok {
        PushKeepsLedger(p, s, batch);
        FreshSequencer(p, s, batch);
        Advance(s, batch, p, Again(p, s, batch));
      }
    }

    // ---- the loop ----

    /** One turn of the loop: a duplicate is refused, a sequencer confirmed, anything else committed. */
    method Arrive(tx: Tx) returns (ok: bool, ghost e: Event)
      requires flows.Valid() && Inv(State()) && tx.hash !in tx.parents
      modifies this, dag, flows, flows.cells, flows.lists
      ensures flows.Valid()
      ensures e == (if tx.kind == Sequencer
        then SeqArrives(tx, if e.SeqArrives? then e.batch else []) else TxArrives(tx))
      ensures ValidEvent(old(State()), e) && State() == Step(old(State()), e)
      ensures Inv(State())
      ensures !ok ==> State() == old(State())
      ensures ok <==> tx.hash !in old(envs) && if tx.kind == Sequencer then Confirmable(old(State()), tx)
        else Judge(Enlist(old(State()), Envelope(tx, Queue, 1)), tx) != Fatal
    {
      hide Inv, Step, ValidEvent, Confirmable, Judge;
      ghost var p := State();
      if tx.hash in envs {
        e := if tx.kind == Sequencer then SeqArrives(tx, []) else TxArrives(tx);
        DuplicateStep(p, tx, e);
        return false, e;
      }
      if tx.kind == Sequencer {
        ok, e := ArriveSequencer(tx);
      } else {
        ok := ArriveTx(tx);
        e := TxArrives(tx);
      }
      StepKeeps(p, e);
    }

    method ArriveTx(tx: Tx) returns (ok: bool)
      requires flows.Valid() && Inv(State()) && tx.hash !in tx.parents && tx.kind != Sequencer && tx.hash !in envs
      modifies this, flows, flows.cells, flows.lists
      ensures FlowsGrew() && ValidEvent(old(State()), TxArrives(tx)) && State() == Step(old(State()), TxArrives(tx))
      ensures !ok ==> State() == old(State())
      ensures ok <==> Judge(Enlist(old(State()), Envelope(tx, Queue, 1)), tx) != Fatal
    {
      hide SeqOk, ParentsOk, FlowsOk, BalancesOk, NoncesOk, LedgerOk, StatusOk, Judge, Accept;
      ghost var p := State();
      order, envs := order + [tx.hash], envs[tx.hash := Envelope(tx, Queue, 1)];
      ok := Commit(tx, p, Envelope(tx, Queue, 1));
    }

    method ArriveSequencer(tx: Tx) returns (ok: bool, ghost e: Event)
      requires flows.Valid() && Inv(State()) && tx.kind == Sequencer && tx.hash !in envs
      modifies this, dag
      ensures flows.Valid() && e.SeqArrives? && e.s == tx
      ensures ValidEvent(old(State()), e) && State() == Step(old(State()), e)
      ensures !ok ==> State() == old(State())
      ensures ok <==> Confirmable(old(State()), tx)
    {
      hide Inv, Confirmable, Confirmed;
      ghost var p := State();
      order, envs := order + [tx.hash], envs[tx.hash := Envelope(tx, Queue, 1)];
      var batch;
      ok, batch := Confirm(tx, p);
      if !ok {
        ListedOnce(p);
        Unlist(tx, p, Envelope(tx, Queue, 1));
      }
      e := SeqArrives(tx, batch);
    }
  }

  lemma DuplicateStep(p: Pool, tx: Tx, e: Event)
    requires tx.hash in p.envs && tx.hash !in tx.parents
    requires e == if tx.kind == Sequencer then SeqArrives(tx, []) else TxArrives(tx)
    ensures ValidEvent(p, e) && Step(p, e) == p
  {
  }

  lemma ListedOnce(p: Pool)
    requires Inv(p)
    ensures Lists(p.order, p.envs.Keys)
  {
  }

  lemma OrderOk(p: Pool, env: Envelope)
    requires Lists(p.order, p.envs.Keys) && env.tx.hash !in p.envs
    ensures NoDup(Enlist(p, env).order)
  {
    NoDupSnoc(p.order, p.envs.Keys, env.tx.hash);
  }

  // ---- what is left after a confirmation ----

  function Leftovers(o: seq<Hash>, envs: map<Hash, Envelope>): seq<Envelope> {
    if o == [] then []
    else
      var front, h := Leftovers(o[..|o| - 1], envs), o[|o| - 1];
      if h in envs && envs[h].tx.kind != Sequencer then front + [envs[h]] else front
  }

  /** The envelopes below the threshold, counted up once more. */
  function Ready(es: seq<Envelope>): seq<Envelope> {
    if es == [] then []
    else
      var front, e := Ready(es[..|es| - 1]), es[|es| - 1];
      if e.judgeNum < REJUDGE_THRESHOLD then front + [e.(status := Queue, judgeNum := e.judgeNum + 1)] else front
  }

  lemma {:induction false} ReadyPrefix(es: seq<Envelope>, i: nat)
    requires i <= |es|
    ensures Ready(es[..i]) <= Ready(es)
    decreases |es| - i
  {
    if i < |es| {
      assert es[..i + 1][..i] == es[..i];
      ReadyPrefix(es, i + 1);
    } else {
      assert es[..i] == es;
    }
  }

  lemma {:induction false} SurvivorsAreReady(o: seq<Hash>, envs: map<Hash, Envelope>, left: map<Hash, Envelope>,
      gone: set<Hash>)
    requires forall h :: h in envs ==> EnvelopeOk(envs[h], h)
    requires forall h :: h in o ==> (h in left <==> h in envs && h !in gone) && (h in left ==> left[h] == envs[h])
    ensures Survivors(o, envs, gone) == Ready(Leftovers(o, left))
  {
    if o != [] {
      var front, h := o[..|o| - 1], o[|o| - 1];
      SurvivorsAreReady(front, envs, left, gone);
      assert h in envs ==> EnvelopeOk(envs[h], h);
      var ls := Leftovers(front, left);
      if h in left && left[h].tx.kind != Sequencer {
        assert (ls + [left[h]])[..|ls|] == ls;
      }
    }
  }

  lemma LeftoversAre(p: Pool, s: Tx, gone: set<Hash>, left: map<Hash, Envelope>)
    requires LookupOk(p) && s.kind == Sequencer && s.hash !in p.envs
    requires left == Enlist(p, Envelope(s, Queue, 1)).envs - gone
    ensures Survivors(p.order, p.envs, gone) == Ready(Leftovers(p.order + [s.hash], left))
  {
    var o := p.order + [s.hash];
    assert o[..|o| - 1] == p.order;
    forall h | h in p.order ensures (h in left <==> h in p.envs && h !in gone) && (h in left ==> left[h] == p.envs[h]) {
      assert h in Elems(p.order);
    }
    SurvivorsAreReady(p.order, p.envs, left, gone);
  }

  lemma ReadySnoc(left: seq<Envelope>, i: nat, env: Envelope)
    requires i < |left| && left[i].judgeNum < REJUDGE_THRESHOLD
    requires env == left[i].(status := Queue, judgeNum := left[i].judgeNum + 1)
    ensures var rs, es := Ready(left[..i]), Ready(left);
      |rs| < |es| && es[..|rs|] == rs && es[|rs|] == env && Ready(left[..i + 1]) == rs + [env]
  {
    var rs := Ready(left[..i]);
    assert left[..i + 1][..i] == left[..i];
    assert Ready(left[..i + 1]) == rs + [env];
    ReadyPrefix(left, i + 1);
    assert (rs + [env])[..|rs|] == rs;
  }

  lemma NotReady(left: seq<Envelope>, i: nat)
    requires i < |left| && left[i].judgeNum >= REJUDGE_THRESHOLD
    ensures Ready(left[..i + 1]) == Ready(left[..i])
  {
    assert left[..i + 1][..i] == left[..i];
  }

  lemma RejudgeNone(left: seq<Envelope>, d: Ledger)
    ensures Rejudge(Cleared(d), Ready(left[..0])) == Cleared(d)
  {
    assert left[..0] == [];
  }

  /** The next leftover below the threshold is the next one to judge, and it is not in the pool yet. */
  lemma NextIsReady(d: Ledger, left: seq<Envelope>, i: nat, env: Envelope, q: Pool)
    requires LedgerOk(d) && Judgeable(Ready(left)) && i < |left| && left[i].judgeNum < REJUDGE_THRESHOLD
    requires env == left[i].(status := Queue, judgeNum := left[i].judgeNum + 1)
    requires q == Rejudge(Cleared(d), Ready(left[..i]))
    ensures Lists(q.order, q.envs.Keys) && StatusOk(q) && env.tx.hash !in q.envs
  {
    ReadySnoc(left, i, env);
    NextIsFresh(d, Ready(left), |Ready(left[..i])|);
  }

  lemma FreshSequencer(p: Pool, s: Tx, batch: seq<Tx>)
    requires Inv(p) && IsConfirmation(p, s, batch)
    ensures s.hash !in Again(p, s, batch).envs && s.hash !in Again(p, s, batch).tips
  {
    AgainInv(p, s, batch);
    if s.hash in Again(p, s, batch).envs {
      AgainEntries(p, s, batch, s.hash);
    }
  }

  lemma EldersKeyed(p: Pool, s: Tx, elders: map<Hash, Tx>)
    requires LookupOk(p)
    requires forall h :: h in elders ==>
      h in Enlist(p, Envelope(s, Queue, 1)).envs && elders[h] == Enlist(p, Envelope(s, Queue, 1)).envs[h].tx
    ensures Keyed(elders)
  {
    forall h | h in elders ensures elders[h].hash == h {
      assert h in p.envs ==> EnvelopeOk(p.envs[h], h);
    }
  }

  lemma EldersAre(p: Pool, s: Tx, elders: map<Hash, Tx>)
    requires forall h :: h in elders <==> h in p.envs && Reached(Edges(p), s.parents, h)
    requires forall h :: h in elders ==> elders[h] == p.envs[h].tx
    ensures elders.Values == Elders(p, s)
  {
    forall tx | tx in Elders(p, s) ensures tx in elders.Values {
      var h :| h in p.envs && Reached(Edges(p), s.parents, h) && p.envs[h].tx == tx;
      assert h in elders && elders[h] == tx;
    }
    forall tx | tx in elders.Values ensures tx in Elders(p, s) {
      var h :| h in elders && elders[h] == tx;
    }
  }

  lemma DemoteSelf(p: Pool, env: Envelope)
    requires StatusOk(p) && env.tx.hash !in p.envs && env.status == Queue
    ensures var q := Demote(Enlist(p, env), Elems(env.tx.parents));
      env.tx.hash in q.envs && q.envs[env.tx.hash] == env && env.tx.hash !in q.tips
  {
  }
}
