/** What an arrival or a confirmation does, said without naming how it is computed. */
module PoolOutcomes {
  import opened Types
  import opened Sums
  import opened Graph
  import opened Ledgers
  import opened LedgerProofs
  import opened Pools
  import opened PoolInvariant
  import opened PoolRuns
  import opened PoolTheorems

  // ---- the verdict on the parents ----

  ghost predicate ParentFine(p: Pool, q: Hash) {
    if q in p.envs then p.envs[q].status != BadTx else q in p.ledger.txs
  }

  /** The first parent that is not fine is the one at `i`. */
  ghost predicate FirstOff(p: Pool, parents: seq<Hash>, i: int) {
    0 <= i < |parents| && !ParentFine(p, parents[i]) && forall j :: 0 <= j < i ==> ParentFine(p, parents[j])
  }

  /** Parents are fine if all are; otherwise the first one that is not decides, bad or unknown. */
  lemma {:induction false} ParentsVerdict(p: Pool, parents: seq<Hash>)
    ensures (forall i :: 0 <= i < |parents| ==> ParentFine(p, parents[i])) <==> JudgeParents(p, parents) == Good
    ensures forall i {:trigger FirstOff(p, parents, i)} :: FirstOff(p, parents, i) ==>
      JudgeParents(p, parents) == if parents[i] in p.envs then Bad else Fatal
  {
    if parents != [] {
      var rest := parents[1..];
      ParentsVerdict(p, rest);
      assert forall i :: 0 <= i < |rest| ==> rest[i] == parents[i + 1];
      assert forall i :: 0 < i < |parents| ==> parents[i] == rest[i - 1];
      forall i | FirstOff(p, parents, i) && i > 0
        ensures JudgeParents(p, parents) == if parents[i] in p.envs then Bad else Fatal
      {
        assert ParentFine(p, parents[0]);
        assert FirstOff(p, rest, i - 1);
      }
    }
  }

  ghost predicate AllFine(p: Pool, tx: Tx) {
    forall i :: 0 <= i < |tx.parents| ==> ParentFine(p, tx.parents[i])
  }

  /** Putting an arrival into the lookup changes nothing about its parents. */
  lemma ParentsOfArrival(p: Pool, env: Envelope)
    requires env.tx.hash !in env.tx.parents
    ensures JudgeParents(Enlist(p, env), env.tx.parents) == Good <==> AllFine(p, env.tx)
    ensures forall i {:trigger FirstOff(p, env.tx.parents, i)} :: FirstOff(p, env.tx.parents, i) ==>
      JudgeParents(Enlist(p, env), env.tx.parents) == if env.tx.parents[i] in p.envs then Bad else Fatal
  {
    hide JudgeParents;
    var p1, ps := Enlist(p, env), env.tx.parents;
    ParentsVerdict(p1, ps);
    forall i | 0 <= i < |ps| ensures ParentFine(p1, ps[i]) == ParentFine(p, ps[i]) {
      assert ps[i] in ps;
    }
    forall i | FirstOff(p, ps, i) ensures FirstOff(p1, ps, i) && (ps[i] in p1.envs <==> ps[i] in p.envs) {
      assert ps[i] in ps;
    }
  }

  /** The verdict when a parent is bad or unknown: the first such parent decides. */
  lemma ParentDecides(p: Pool, env: Envelope, i: int)
    requires env.tx.hash !in env.tx.parents && FirstOff(p, env.tx.parents, i)
    ensures Judge(Enlist(p, env), env.tx) == if env.tx.parents[i] in p.envs then Bad else Fatal
  {
    hide JudgeParents, FirstOff, JudgeAccount;
    ParentsOfArrival(p, env);
  }

  lemma ArchiveVerdict(p: Pool, env: Envelope)
    requires env.tx.hash !in env.tx.parents && AllFine(p, env.tx) && env.tx.kind == Archive
    ensures Judge(Enlist(p, env), env.tx) == Good
  {
    hide JudgeParents, JudgeAccount;
    ParentsOfArrival(p, env);
  }

  // ---- the verdict on the account ----

  /** The next nonce of a flow: one above the highest, or above the confirmed one if it is empty. */
  lemma NextNonceIs(d: Ledger, f: Flow, a: Address, n: nat)
    ensures n == NextNonce(d, f, a) <==>
      if f.txs == map[] then n == d.LatestNonce(a) + 1
      else n > 0 && n - 1 in f.txs && forall m :: m in f.txs ==> m < n
  {
    if f.txs != map[] {
      var x :| x in f.txs;
      assert x in f.txs.Keys;
      assert MaxOf(f.txs.Keys) in f.txs;
    }
  }

  lemma RunNext(s: set<nat>, low: nat)
    requires IsRun(s, low) && s != {}
    ensures MaxOf(s) == low + |s|
  {
    assert low + |s| in s;
  }

  /** What the pool records of a sender without sequencers is what its good transactions amount to. */
  lemma AccountIs(p: Pool, a: Address, t: Token)
    requires Inv(p) && NoSequencer(p.FlowOf(a))
    ensures p.FlowOf(a).txs.Keys == NoncesOf(GoodTxs(p), a)
    ensures NextNonce(p.ledger, p.FlowOf(a), a) == p.ledger.LatestNonce(a) + |NoncesOf(GoodTxs(p), a)| + 1
    ensures BalanceStateOf(p.ledger, p.FlowOf(a), a, t)
         == BalanceState(Sum(Transfers(p), Spend(a, t)), p.ledger.Balance(a, t))
  {
    FlowNonces(p, a);
    var f := p.FlowOf(a);
    if f.txs.Keys != {} {
      RunNext(f.txs.Keys, p.ledger.LatestNonce(a));
    }
    SpentIs(p, a, t);
  }

  lemma SpentIs(p: Pool, a: Address, t: Token)
    requires BalancesOk(p)
    ensures BalanceStateOf(p.ledger, p.FlowOf(a), a, t)
         == BalanceState(Sum(Transfers(p), Spend(a, t)), p.ledger.Balance(a, t))
  {
    assert BalanceOk(p, a, t);
    if t !in p.FlowOf(a).balances {
      NoTransfersNoSum(Transfers(p), a, t);
    }
  }

  /** The verdict on a transaction whose parents are fine, when its sender may have issued sequencers as well. */
  lemma FlowVerdict(p: Pool, env: Envelope)
    requires Inv(p) && env.tx.hash !in env.tx.parents && AllFine(p, env.tx) && Tracked(env.tx)
    ensures var tx, d, txs := env.tx, p.ledger, p.FlowOf(env.tx.sender).txs;
      var balance := d.Balance(tx.sender, tx.token);
      Judge(Enlist(p, env), tx) ==
        if tx.nonce in txs then if txs[tx.nonce].hash == tx.hash then Fatal else Bad
        else if (tx.sender, tx.nonce) in d.byNonce && d.byNonce[(tx.sender, tx.nonce)] in d.txs then Fatal
        else if txs == map[] && tx.nonce != d.LatestNonce(tx.sender) + 1 then Fatal
        else if txs != map[] && !(tx.nonce > 0 && tx.nonce - 1 in txs && forall m :: m in txs ==> m < tx.nonce)
          then Fatal
        else if tx.kind != Normal then Good
        else if tx.value > balance then Fatal
        else if Sum(Transfers(p), Spend(tx.sender, tx.token)) + tx.value > balance then Bad
        else Good
  {
    hide LookupOk, StatusOk, SeqOk, ParentsOk, FlowsOk, NoncesOk, LedgerOk, BalancesOk;
    hide JudgeParents, NextNonce, BalanceStateOf, Transfers, AllFine;
    ParentsOfArrival(p, env);
    NextNonceIs(p.ledger, p.FlowOf(env.tx.sender), env.tx.sender, env.tx.nonce);
    SpentIs(p, env.tx.sender, env.tx.token);
  }

  /** A nonce that a good transaction of the sender has: it is another transaction's. */
  lemma TakenByOther(p: Pool, tx: Tx)
    requires Inv(p) && tx.hash !in p.envs && NoSequencer(p.FlowOf(tx.sender)) && tx.nonce in p.FlowOf(tx.sender).txs
    ensures p.FlowOf(tx.sender).txs[tx.nonce].hash != tx.hash
  {
    hide LookupOk, StatusOk, SeqOk, ParentsOk, BalancesOk, NoncesOk, LedgerOk;
    var f := p.FlowOf(tx.sender);
    assert FlowEntryOk(p, tx.sender, tx.nonce, f.txs[tx.nonce]);
  }

  /**
   * Main result: the exact verdict on a transaction whose parents are fine. The nonce must be free, not confirmed
   * and the next one; the value must fit the balance, and so must all good transfers of the sender together.
   */
  lemma Verdict(p: Pool, env: Envelope)
    requires Inv(p) && env.tx.hash !in p.envs && env.tx.hash !in env.tx.parents && AllFine(p, env.tx)
    requires Tracked(env.tx) && NoSequencer(p.FlowOf(env.tx.sender))
    ensures var tx, d := env.tx, p.ledger;
      var taken, balance := NoncesOf(GoodTxs(p), tx.sender), d.Balance(tx.sender, tx.token);
      Judge(Enlist(p, env), tx) ==
        if tx.nonce in taken then Bad
        else if (tx.sender, tx.nonce) in d.byNonce && d.byNonce[(tx.sender, tx.nonce)] in d.txs then Fatal
        else if tx.nonce != d.LatestNonce(tx.sender) + |taken| + 1 then Fatal
        else if tx.kind != Normal then Good
        else if tx.value > balance then Fatal
        else if Sum(Transfers(p), Spend(tx.sender, tx.token)) + tx.value > balance then Bad
        else Good
  {
    hide Inv, JudgeParents, NextNonce, BalanceStateOf, GoodTxs, Transfers, AllFine, NoSequencer;
    ParentsOfArrival(p, env);
    AccountIs(p, env.tx.sender, env.tx.token);
    if env.tx.nonce in p.FlowOf(env.tx.sender).txs {
      TakenByOther(p, env.tx);
    }
  }

  // ---- what the verdict leads to ----

  /** A known transaction and a fatal one change nothing; a bad one is put aside and touches nothing else. */
  lemma Refused(p: Pool, env: Envelope)
    ensures var r, h := Admit(p, env), env.tx.hash;
      && (h in p.envs || Judge(Enlist(p, env), env.tx) == Fatal ==> r == p)
      && (h !in p.envs && Judge(Enlist(p, env), env.tx) == Bad ==>
        && r.order == p.order + [h] && r.envs == p.envs[h := Envelope(env.tx, BadTx, env.judgeNum)]
        && r.badtxs == p.badtxs[h := env.tx] && r.tips == p.tips && r.pendings == p.pendings
        && r.flows == p.flows && r.ledger == p.ledger)
  {
    hide Judge, Accept;
  }

  /** A good one becomes a tip; of its parents, tip sequencers leave and other tips become pending. */
  lemma Accepted(p: Pool, env: Envelope)
    requires Inv(p) && env.tx.hash !in p.envs && Judge(Enlist(p, env), env.tx) == Good
    ensures var r, h, parents := Admit(p, env), env.tx.hash, env.tx.parents;
      && r.ledger == p.ledger && r.badtxs == p.badtxs
      && h in r.envs && r.envs[h] == Envelope(env.tx, Tip, env.judgeNum) && h in r.tips && r.tips[h] == env.tx
      && (forall k :: k != h ==>
        (k in r.envs <==> k in p.envs && !(k in parents && p.Has(k, Tip) && p.envs[k].tx.kind == Sequencer)))
      && (forall k :: k != h && k in r.envs ==>
        r.envs[k] == if k in parents && p.Has(k, Tip) then p.envs[k].(status := Pending) else p.envs[k])
  {
    hide Judge, LookupOk, SeqOk, ParentsOk, FlowsOk, BalancesOk, NoncesOk, LedgerOk, StatusOk;
    AcceptedEntries(p, env);
    AcceptFields(p, env);
    AcceptedFlows(p, env);
    hide Accept, Demoted;
  }

  /** The arrival is the last in the order; what stays keeps its place. */
  lemma AcceptedOrder(p: Pool, env: Envelope, q: Hash, k: Hash)
    requires Inv(p) && env.tx.hash !in p.envs && Judge(Enlist(p, env), env.tx) == Good
    ensures var r := Admit(p, env);
      && |r.order| > 0 && r.order[|r.order| - 1] == env.tx.hash
      && (Before(p.order, q, k) && q in r.envs && k in r.envs ==> Before(r.order, q, k))
  {
    hide Judge, SeqOk, ParentsOk, FlowsOk, BalancesOk, NoncesOk, LedgerOk, Before, StatusOk;
    var r, o := Admit(p, env), p.order + [env.tx.hash];
    assert o[..|o| - 1] == p.order;
    GoneIs(p, env, env.tx.hash);
    assert r.order == Without(o, Gone(p, env));
    AcceptedEntries(p, env);
    if Before(p.order, q, k) && q in r.envs && k in r.envs {
      InOrder(p.order, q, k);
      assert q in Elems(p.order) && k in Elems(p.order);
      GoneIs(p, env, q);
      GoneIs(p, env, k);
      NoDupSnoc(p.order, p.envs.Keys, env.tx.hash);
      BeforeSnoc(p.order, env.tx.hash, q, k);
      WithoutBefore(o, Gone(p, env), q, k);
    }
  }

  lemma InOrder(o: seq<Hash>, q: Hash, k: Hash)
    requires Before(o, q, k)
    ensures q in o && k in o
  {
  }

  /** A good transaction that carries a nonce enters the flow of its sender; a transfer adds to the spending. */
  lemma AcceptedFlow(p: Pool, env: Envelope, a: Address)
    requires env.tx.hash !in p.envs && Judge(Enlist(p, env), env.tx) == Good
    ensures var r, tx := Admit(p, env), env.tx;
      && (tx.kind == Archive || a != tx.sender ==> r.FlowOf(a) == p.FlowOf(a))
      && (tx.kind != Archive && a == tx.sender ==>
        && r.FlowOf(a).txs == p.FlowOf(a).txs[tx.nonce := tx] && tx.nonce !in p.FlowOf(a).txs
        && (tx.kind != Normal ==> r.FlowOf(a).balances == p.FlowOf(a).balances)
        && (tx.kind == Normal ==>
          var st := if tx.token in p.FlowOf(a).balances then p.FlowOf(a).balances[tx.token]
            else BalanceState(0, p.ledger.Balance(a, tx.token));
          r.FlowOf(a).balances == p.FlowOf(a).balances[tx.token := BalanceState(st.spent + tx.value, st.origin)]))
  {
    hide Judge, Accept, FlowAdd;
    AcceptedFlows(p, env);
    if env.tx.kind != Archive {
      GoodVerdictIsAccepted(Enlist(p, env), env.tx);
      FlowGrows(p.ledger, p.FlowOf(env.tx.sender), env.tx);
    }
  }

  lemma FlowGrows(d: Ledger, f: Flow, tx: Tx)
    requires FlowAccepts(Opened(d, f, tx), tx)
    ensures var r := FlowAdd(d, f, tx);
      && r.txs == f.txs[tx.nonce := tx] && tx.nonce !in f.txs
      && (tx.kind != Normal ==> r.balances == f.balances)
      && (tx.kind == Normal ==>
        var st := if tx.token in f.balances then f.balances[tx.token]
          else BalanceState(0, d.Balance(tx.sender, tx.token));
        r.balances == f.balances[tx.token := BalanceState(st.spent + tx.value, st.origin)])
  {
  }

  // ---- what a confirmation keeps ----

  /** Every unconfirmed transaction that has been judged fewer than ten times is judged again. */
  lemma {:induction false} SurvivorAt(o: seq<Hash>, envs: map<Hash, Envelope>, gone: set<Hash>, h: Hash)
    returns (k: nat)
    requires h in o && h in envs && envs[h].tx.hash == h && h !in gone
    requires envs[h].tx.kind != Sequencer && envs[h].judgeNum < 10
    ensures k < |Survivors(o, envs, gone)|
    ensures Survivors(o, envs, gone)[k] == Envelope(envs[h].tx, Queue, envs[h].judgeNum + 1)
  {
    var front, last := o[..|o| - 1], o[|o| - 1];
    if h == last {
      k := |Survivors(front, envs, gone)|;
    } else {
      assert h in front;
      k := SurvivorAt(front, envs, gone, h);
    }
  }

  ghost predicate Judged(p: Pool, h: Hash, q: Quality) {
    && (q == Good <==> p.IsGood(h))
    && (q == Bad <==> p.Has(h, BadTx))
    && (q == Fatal <==> h !in p.envs)
  }

  /** A verdict stands, whatever is offered later. */
  lemma VerdictStands(p: Pool, env: Envelope, h: Hash, q: Quality)
    requires Inv(p) && Judged(p, h, q) && h != env.tx.hash && env.tx.hash !in p.envs && EnvelopeOk(env, env.tx.hash)
    requires h in p.envs ==> p.envs[h].tx.kind != Sequencer
    ensures Judged(Admit(p, env), h, q)
    ensures h in p.envs <==> h in Admit(p, env).envs
    ensures h in p.envs ==> Admit(p, env).envs[h].tx == p.envs[h].tx
  {
    hide Inv, Judge, Admit;
    match Judge(Enlist(p, env), env.tx)
    case Fatal => Refused(p, env);
    case Bad => Refused(p, env);
    case Good => Accepted(p, env);
  }

  lemma VerdictGiven(p: Pool, env: Envelope)
    requires Inv(p) && env.tx.hash !in p.envs
    ensures Judged(Admit(p, env), env.tx.hash, Judge(Enlist(p, env), env.tx))
    ensures env.tx.hash in Admit(p, env).envs ==> Admit(p, env).envs[env.tx.hash].tx == env.tx
  {
    hide Inv, Judge, Admit;
    match Judge(Enlist(p, env), env.tx)
    case Fatal => Refused(p, env);
    case Bad => Refused(p, env);
    case Good => Accepted(p, env);
  }

  /** Rejudging: each leftover ends up as it is judged in its turn. */
  lemma {:induction false} RejudgedAs(d: Ledger, es: seq<Envelope>, i: nat, k: nat)
    requires LedgerOk(d) && Judgeable(es) && i < k <= |es|
    ensures var p := Rejudge(Cleared(d), es[..i]);
      Judged(Rejudge(Cleared(d), es[..k]), es[i].tx.hash, Judge(Enlist(p, es[i]), es[i].tx))
    ensures es[i].tx.hash in Rejudge(Cleared(d), es[..k]).envs ==>
      Rejudge(Cleared(d), es[..k]).envs[es[i].tx.hash].tx == es[i].tx
    decreases k
  {
    hide Inv, Judge, Admit, Judged, Rejudge, Judgeable;
    var p, last := Rejudge(Cleared(d), es[..k - 1]), es[k - 1];
    NextTurn(d, es, k - 1);
    if i == k - 1 {
      VerdictGiven(p, last);
    } else {
      NextTurn(d, es, i);
      OtherHash(es, i, k - 1);
      RejudgedAs(d, es, i, k - 1);
      VerdictStands(p, last, es[i].tx.hash, Judge(Enlist(Rejudge(Cleared(d), es[..i]), es[i]), es[i].tx));
    }
  }

  lemma OtherHash(es: seq<Envelope>, i: nat, k: nat)
    requires Judgeable(es) && i < k < |es|
    ensures es[i].tx.hash != es[k].tx.hash
  {
  }

  /** The next leftover is new to the pool as rejudged so far, and is offered to it. */
  lemma NextTurn(d: Ledger, es: seq<Envelope>, k: nat)
    requires LedgerOk(d) && Judgeable(es) && k < |es|
    ensures Inv(Rejudge(Cleared(d), es[..k])) && es[k].tx.hash !in Rejudge(Cleared(d), es[..k]).envs
    ensures Rejudge(Cleared(d), es[..k + 1]) == Admit(Rejudge(Cleared(d), es[..k]), es[k])
    ensures es[k].tx.kind != Sequencer && EnvelopeOk(es[k], es[k].tx.hash)
  {
    hide Inv, Admit, Rejudge;
    ClearedInv(d);
    assert forall e :: e in es[..k] ==> e in es;
    assert es[k] in es;
    RejudgeKeeps(Cleared(d), es[..k]);
    NextIsFresh(d, es, k);
    assert es[..k + 1] == es[..k] + [es[k]];
    RejudgeSnoc(Cleared(d), es[..k], es[k]);
  }

  /**
   * Main result: a confirmation keeps every unconfirmed transaction that is not judged fatal now. The transactions
   * before it in the pool are offered first; it is then judged against them and the new ledger.
   */
  lemma LeftoverJudged(p: Pool, s: Tx, batch: seq<Tx>, h: Hash) returns (before: seq<Envelope>)
    requires Inv(p) && IsConfirmation(p, s, batch)
    requires h in p.envs && h !in HashesOf(batch) && p.envs[h].tx.kind != Sequencer && p.envs[h].judgeNum < 10
    ensures forall e :: e in before ==> Before(p.order, e.tx.hash, h)
    ensures forall k ::
      (k in p.envs && Before(p.order, k, h) && k !in HashesOf(batch)
        && p.envs[k].tx.kind != Sequencer && p.envs[k].judgeNum < 10) ==>
      Envelope(p.envs[k].tx, Queue, p.envs[k].judgeNum + 1) in before
    ensures var q, e := Rejudge(Cleared(Pushed(p.ledger, s, batch)), before),
        Envelope(p.envs[h].tx, Queue, p.envs[h].judgeNum + 1);
      Judged(Confirmed(p, s, batch), h, Judge(Enlist(q, e), e.tx))
  {
    hide SeqOk, ParentsOk, FlowsOk, BalancesOk, NoncesOk, LedgerOk, StatusOk;
    hide Judge, Judged, Pushed, Rejudge, Confirmable;
    var d, es := Pushed(p.ledger, s, batch), Survivors(p.order, p.envs, HashesOf(batch));
    PushKeepsLedger(p, s, batch);
    SurvivorsJudgeable(p, HashesOf(batch));
    assert h in Elems(p.order) && EnvelopeOk(p.envs[h], h);
    var k := SurvivorAt(p.order, p.envs, HashesOf(batch), h);
    before := es[..k];
    forall e | e in before ensures Before(p.order, e.tx.hash, h) {
      var i :| 0 <= i < k && es[i] == e;
      SurvivorsInOrder(p.order, p.envs, HashesOf(batch), i, k);
    }
    forall x | x in p.envs && Before(p.order, x, h) && x !in HashesOf(batch)
      && p.envs[x].tx.kind != Sequencer && p.envs[x].judgeNum < 10
      ensures Envelope(p.envs[x].tx, Queue, p.envs[x].judgeNum + 1) in before
    {
      EarlierIsBefore(p, HashesOf(batch), x, h, k);
    }
    RejudgedAs(d, es, k, |es|);
    assert es[..|es|] == es;
    SequencerApart(p, s, batch, h, Judge(Enlist(Rejudge(Cleared(d), before), es[k]), es[k].tx));
  }

  lemma EarlierIsBefore(p: Pool, gone: set<Hash>, x: Hash, h: Hash, k: nat)
    requires LookupOk(p) && x in p.envs && Before(p.order, x, h) && x !in gone
    requires p.envs[x].tx.kind != Sequencer && p.envs[x].judgeNum < 10
    requires k < |Survivors(p.order, p.envs, gone)| && Survivors(p.order, p.envs, gone)[k].tx.hash == h
    ensures Envelope(p.envs[x].tx, Queue, p.envs[x].judgeNum + 1) in Survivors(p.order, p.envs, gone)[..k]
  {
    hide Before;
    var es := Survivors(p.order, p.envs, gone);
    assert x in Elems(p.order) && EnvelopeOk(p.envs[x], x);
    var i := SurvivorAt(p.order, p.envs, gone, x);
    BeforeAsymmetric(p.order, x, h);
    if i > k {
      SurvivorsInOrder(p.order, p.envs, gone, k, i);
    }
    assert es[..k][i] == es[i];
  }

  /** Adding the sequencer leaves the others as they are. */
  lemma SequencerApart(p: Pool, s: Tx, batch: seq<Tx>, h: Hash, q: Quality)
    requires h != s.hash && Judged(Again(p, s, batch), h, q)
    ensures Judged(Confirmed(p, s, batch), h, q)
  {
    hide Pushed, Rejudge, Survivors;
  }

  /** The new sequencer is a tip, the last in the order, and what its confirmation has stored. */
  lemma SequencerIn(p: Pool, s: Tx, batch: seq<Tx>)
    requires Inv(p) && IsConfirmation(p, s, batch)
    ensures var r := Confirmed(p, s, batch);
      && s.hash in r.envs && r.envs[s.hash] == Envelope(s, Tip, 1) && s.hash in r.tips && r.tips[s.hash] == s
      && |r.order| > 0 && r.order[|r.order| - 1] == s.hash
      && r.ledger.height == s.height && s.hash in r.ledger.txs && r.ledger.txs[s.hash] == s
  {
    hide SeqOk, ParentsOk, FlowsOk, BalancesOk, NoncesOk, LedgerOk, StatusOk, Confirmable, Pushed, Rejudge, Survivors;
    AgainInv(p, s, batch);
    PushedSequencer(p.ledger, s, batch);
  }

  // ---- when a sequencer is confirmed ----

  /** What a sequencer reaches through pool transactions. */
  ghost predicate Under(p: Pool, s: Tx, h: Hash) {
    Reached(Edges(Enlist(p, Envelope(s, Queue, 1))), s.parents, h)
  }

  /** For every sender and token, what the elders spend is covered, and not only for those that spend. */
  lemma AffordableIs(d: Ledger, s: set<Tx>)
    requires forall k :: k in d.balances ==> d.balances[k] >= 0
    ensures Affordable(d, s) <==> forall a, t :: Sum(s, Spend(a, t)) <= d.Balance(a, t)
  {
    if Affordable(d, s) {
      forall a, t ensures Sum(s, Spend(a, t)) <= d.Balance(a, t) {
        if tx :| tx in s && tx.kind == Normal && tx.sender == a && tx.token == t {
          assert Covered(d, s, tx);
        } else {
          NoTransfersNoSum(s, a, t);
        }
      }
    }
    if forall a, t :: Sum(s, Spend(a, t)) <= d.Balance(a, t) {
      forall tx | tx in s ensures Covered(d, s, tx) {
        assert Sum(s, Spend(tx.sender, tx.token)) <= d.Balance(tx.sender, tx.token);
      }
    }
  }

  /**
   * Main result: a sequencer is confirmed exactly if its nonce is not in use, its height is the next one, all it
   * reaches is known, no elder has its sender and nonce, every balance covers what the elders spend, and the
   * nonces of each sender run on from the confirmed one, its own up to the one before it.
   */
  lemma ConfirmableIff(p: Pool, s: Tx)
    requires Inv(p) && s.kind == Sequencer && s.hash !in p.envs
    ensures var d, elders := p.ledger, Elders(Enlist(p, Envelope(s, Queue, 1)), s);
      Confirmable(p, s) <==>
        && !((s.sender, s.nonce) in d.byNonce && d.byNonce[(s.sender, s.nonce)] in d.txs)
        && s.height == d.height + 1
        && (forall h :: Under(p, s, h) ==> h in p.envs || h == s.hash || h in d.txs)
        && (forall tx :: tx in elders && tx.sender == s.sender && tx.nonce == s.nonce ==> tx.kind == Archive)
        && (forall a, t :: Sum(elders, Spend(a, t)) <= d.Balance(a, t))
        && (forall a {:trigger NoncesOf(elders, a)} :: IsRun(NoncesOf(elders, a), d.LatestNonce(a)))
        && (NoncesOf(elders, s.sender) != {} ==>
          s.nonce == d.LatestNonce(s.sender) + |NoncesOf(elders, s.sender)| + 1)
  {
    hide LookupOk, StatusOk, SeqOk, ParentsOk, FlowsOk, BalancesOk, NoncesOk, Affordable, Reached, NoncesOf;
    var d, p1 := p.ledger, Enlist(p, Envelope(s, Queue, 1));
    var elders := Elders(p1, s);
    AffordableIs(d, elders);
    KnownIs(p, s);
    RunsAre(d, s, elders);
    hide Elders, AllKnown, Under;
  }

  lemma KnownIs(p: Pool, s: Tx)
    ensures AllKnown(Enlist(p, Envelope(s, Queue, 1)), s) <==>
      forall h :: Under(p, s, h) ==> h in p.envs || h == s.hash || h in p.ledger.txs
  {
  }

  lemma RunsAre(d: Ledger, s: Tx, elders: set<Tx>)
    ensures (forall a :: NonceRuns(d, s, elders, a)) <==>
      && (forall a {:trigger NoncesOf(elders, a)} :: IsRun(NoncesOf(elders, a), d.LatestNonce(a)))
      && (NoncesOf(elders, s.sender) != {} ==>
        s.nonce == d.LatestNonce(s.sender) + |NoncesOf(elders, s.sender)| + 1)
  {
    hide NoncesOf;
    if forall a :: NonceRuns(d, s, elders, a) {
      forall a ensures IsRun(NoncesOf(elders, a), d.LatestNonce(a)) {
        assert NonceRuns(d, s, elders, a);
      }
      assert NonceRuns(d, s, elders, s.sender);
    }
  }

  /** In every run the height of the ledger goes up by one with each confirmation. */
  lemma {:induction false} RunHeights(p: Pool, es: seq<Event>)
    requires Inv(p) && ValidRun(p, es)
    ensures After(p, es).ledger.height == p.ledger.height + Confirmations(p, es)
    decreases |es|
  {
    hide Inv, ValidEvent, Step, Confirms;
    if es != [] {
      StepKeeps(p, es[0]);
      StepHeight(p, es[0]);
      RunHeights(Step(p, es[0]), es[1..]);
    }
  }

  lemma StepHeight(p: Pool, e: Event)
    requires Inv(p) && ValidEvent(p, e)
    ensures Step(p, e).ledger.height == p.ledger.height + if Confirms(p, e) then 1 else 0
  {
    hide SeqOk, ParentsOk, FlowsOk, BalancesOk, NoncesOk, LedgerOk, StatusOk, LookupOk, Pushed, Rejudge, Survivors;
    match e {
      case TxArrives(tx) => AdmitKeeps(p, Envelope(tx, Queue, 1));
      case SeqArrives(s, batch) =>
        if Confirms(p, e) {
          AgainInv(p, s, batch);
          PushedSequencer(p.ledger, s, batch);
        }
    }
  }
}
