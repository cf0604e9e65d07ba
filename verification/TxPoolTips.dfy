/** The tips are exactly the good transactions that no good transaction builds on. */
module PoolTips {
  import opened Types
  import opened Graph
  import opened Ledgers
  import opened LedgerProofs
  import opened Pools
  import opened PoolInvariant
  import opened PoolRuns
  import opened PoolTheorems

  ghost predicate Child(p: Pool, c: Hash, h: Hash) {
    p.IsGood(c) && h in p.envs[c].tx.parents
  }

  ghost predicate HasGoodChild(p: Pool, h: Hash) {
    exists c :: Child(p, c, h)
  }

  ghost predicate TipsExact(p: Pool) {
    forall h :: p.IsGood(h) ==> (p.Has(h, Tip) <==> !HasGoodChild(p, h))
  }

  /** Some transaction in the pool, good or bad, names `h` as a parent. */
  ghost predicate Named(p: Pool, h: Hash) {
    exists c :: c in p.envs && h in p.envs[c].tx.parents
  }

  ghost predicate NamedByBad(p: Pool, h: Hash) {
    exists c :: p.Has(c, BadTx) && h in p.envs[c].tx.parents
  }

  /** The parents of a sequencer are no longer good: they have left the pool, or come back as bad. */
  ghost predicate SequencersApart(p: Pool) {
    forall h, q :: h in p.envs && p.envs[h].tx.kind == Sequencer && q in p.envs[h].tx.parents ==> !p.IsGood(q)
  }

  /** What is both in the pool and confirmed is one transaction, and no archive. */
  ghost predicate KnownOnce(p: Pool) {
    forall h :: h in p.envs && h in p.ledger.txs ==> p.envs[h].tx.kind != Archive && p.ledger.txs[h] == p.envs[h].tx
  }

  ghost predicate TipsInv(p: Pool) {
    TipsExact(p) && SequencersApart(p) && KnownOnce(p) && Indexed(p.ledger)
  }

  /** An archive is not confirmed yet; any other hash, if it is confirmed, names the same transaction. */
  ghost predicate Admissible(d: Ledger, tx: Tx) {
    tx.hash in d.txs ==> tx.kind != Archive && d.txs[tx.hash] == tx
  }

  // ---- accepting ----

  /** Only archives are judged good again once they are confirmed. */
  lemma GoodIsNew(p: Pool, env: Envelope)
    requires Indexed(p.ledger) && Admissible(p.ledger, env.tx) && Judge(Enlist(p, env), env.tx) == Good
    ensures env.tx.hash !in p.ledger.txs
  {
    hide JudgeParents, NextNonce;
  }

  /** A transaction that is neither in the pool nor confirmed has no good child. */
  lemma NewcomerHasNoChild(p: Pool, h: Hash)
    requires ParentsOk(p) && h !in p.envs && h !in p.ledger.txs
    ensures !HasGoodChild(p, h)
  {
    assert forall c :: p.IsGood(c) ==> h !in p.envs[c].tx.parents;
  }

  /** So whoever in the pool names it already is bad. */
  lemma NamedMeansBad(p: Pool, h: Hash)
    requires StatusOk(p) && ParentsOk(p) && h !in p.envs && h !in p.ledger.txs
    ensures Named(p, h) <==> NamedByBad(p, h)
  {
    NewcomerHasNoChild(p, h);
    if Named(p, h) {
      var c :| c in p.envs && h in p.envs[c].tx.parents;
      assert p.IsGood(c) ==> Child(p, c, h);
      assert p.Has(c, BadTx);
    }
  }

  lemma ChildWas(p: Pool, env: Envelope, r: Pool, c: Hash, k: Hash)
    requires EntriesMoved(p, env, r) && StatusOk(p) && env.tx.hash !in p.envs && c != env.tx.hash && Child(r, c, k)
    ensures Child(p, c, k)
  {
  }

  lemma ChildStays(p: Pool, env: Envelope, r: Pool, c: Hash, k: Hash)
    requires EntriesMoved(p, env, r) && SequencersApart(p) && env.tx.hash !in p.envs && Child(p, c, k)
    requires p.IsGood(k) || (k == env.tx.hash && (c in env.tx.parents ==> k !in p.envs[c].tx.parents))
    ensures Child(r, c, k)
  {
  }

  /** Acceptance keeps the children of every good entry, and adds the new transaction's parents. */
  lemma AcceptChildren(p: Pool, env: Envelope, r: Pool, k: Hash)
    requires StatusOk(p) && SequencersApart(p) && EntriesMoved(p, env, r) && env.tx.hash !in p.envs
    requires p.IsGood(k) || k == env.tx.hash
    ensures p.IsGood(k) ==> (HasGoodChild(r, k) <==> HasGoodChild(p, k) || k in env.tx.parents)
    ensures k == env.tx.hash && k !in env.tx.parents && HasGoodChild(r, k) ==> HasGoodChild(p, k)
  {
    if HasGoodChild(r, k) {
      var c :| Child(r, c, k);
      if c != env.tx.hash {
        ChildWas(p, env, r, c, k);
      }
    }
    if p.IsGood(k) {
      if HasGoodChild(p, k) {
        var c :| Child(p, c, k);
        ChildStays(p, env, r, c, k);
      }
      if k in env.tx.parents {
        assert Child(r, env.tx.hash, k);
      }
    }
  }

  lemma AcceptTipsExact(p: Pool, env: Envelope, r: Pool)
    requires StatusOk(p) && TipsExact(p) && SequencersApart(p) && EntriesMoved(p, env, r)
    requires env.tx.hash !in p.envs && env.tx.hash !in env.tx.parents && !HasGoodChild(p, env.tx.hash)
    ensures TipsExact(r)
  {
    hide HasGoodChild;
    forall h | r.IsGood(h) ensures r.Has(h, Tip) <==> !HasGoodChild(r, h) {
      AcceptChildren(p, env, r, h);
    }
  }

  lemma AcceptTipsLost(p: Pool, env: Envelope, r: Pool)
    requires SequencersApart(p) && EntriesMoved(p, env, r) && env.tx.hash !in p.envs
    requires forall c :: c in env.tx.parents && c in p.envs ==> env.tx.hash !in p.envs[c].tx.parents
    requires HasGoodChild(p, env.tx.hash)
    ensures !TipsExact(r)
  {
    var c :| Child(p, c, env.tx.hash);
    ChildStays(p, env, r, c, env.tx.hash);
    assert r.Has(env.tx.hash, Tip) && r.IsGood(env.tx.hash);
  }

  /** Exactly when acceptance keeps the tips exact: no good pool transaction names the newcomer already. */
  lemma AcceptTipsIff(p: Pool, env: Envelope)
    requires StatusOk(p) && TipsInv(p) && env.tx.hash !in p.envs && env.tx.hash !in env.tx.parents
    requires forall c :: c in env.tx.parents && c in p.envs ==> env.tx.hash !in p.envs[c].tx.parents
    ensures TipsExact(Accept(p, env)) <==> !HasGoodChild(p, env.tx.hash)
  {
    hide Accept, StatusOk, EntriesMoved, TipsExact, SequencersApart, HasGoodChild;
    AcceptedEntries(p, env);
    if HasGoodChild(p, env.tx.hash) {
      AcceptTipsLost(p, env, Accept(p, env));
    } else {
      AcceptTipsExact(p, env, Accept(p, env));
    }
  }

  /** The parents of a sequencer in the pool are confirmed, so a newcomer is none of them. */
  lemma NotASequencersParent(p: Pool, h: Hash, q: Hash)
    requires StatusOk(p) && SeqOk(p) && ParentsOk(p) && SequencersApart(p)
    requires h in p.envs && p.envs[h].tx.kind == Sequencer && q !in p.ledger.txs
    ensures q !in p.envs[h].tx.parents
  {
    assert p.Has(h, Tip) && p.IsGood(h);
  }

  lemma AcceptApart(p: Pool, env: Envelope, r: Pool)
    requires StatusOk(p) && SeqOk(p) && ParentsOk(p) && SequencersApart(p) && KnownOnce(p)
    requires EntriesMoved(p, env, r) && r.ledger == p.ledger
    requires env.tx.hash !in p.envs && env.tx.kind != Sequencer && env.tx.hash !in p.ledger.txs
    ensures SequencersApart(r) && KnownOnce(r)
  {
    hide StatusOk, SeqOk, ParentsOk;
    forall h, q | h in r.envs && r.envs[h].tx.kind == Sequencer && q in r.envs[h].tx.parents ensures !r.IsGood(q) {
      assert h in p.envs && p.envs[h].tx == r.envs[h].tx;
      NotASequencersParent(p, h, env.tx.hash);
      assert !p.IsGood(q) && q != env.tx.hash;
      assert q in r.envs ==> q in p.envs && r.envs[q].status == p.envs[q].status;
    }
  }

  lemma ShelveTips(p: Pool, env: Envelope)
    requires TipsInv(p) && env.tx.hash !in p.envs && env.tx.kind != Sequencer && Admissible(p.ledger, env.tx)
    ensures TipsInv(Shelve(p, env))
  {
    var r := Shelve(p, env);
    forall h | r.IsGood(h) ensures r.Has(h, Tip) <==> !HasGoodChild(r, h) {
      assert p.IsGood(h);
      assert forall c :: Child(r, c, h) <==> Child(p, c, h);
    }
    forall h, q | h in r.envs && r.envs[h].tx.kind == Sequencer && q in r.envs[h].tx.parents ensures !r.IsGood(q) {
      assert h in p.envs && !p.IsGood(q);
    }
  }

  /** Offering a transaction keeps the tips exact, unless it is an archive that is confirmed. */
  lemma AdmitTips(p: Pool, env: Envelope)
    requires Inv(p) && TipsInv(p) && env.tx.kind != Sequencer && env.tx.hash !in env.tx.parents
    requires env.tx.hash in p.envs || Admissible(p.ledger, env.tx)
    ensures TipsInv(Admit(p, env))
  {
    hide LookupOk, StatusOk, SeqOk, ParentsOk, FlowsOk, BalancesOk, NoncesOk, LedgerOk;
    hide Judge, Shelve, TipsExact, SequencersApart, KnownOnce, Indexed, Admissible;
    if env.tx.hash !in p.envs {
      match Judge(Enlist(p, env), env.tx)
      case Fatal =>
      case Bad => ShelveTips(p, env);
      case Good =>
        GoodIsNew(p, env);
        AcceptedEntries(p, env);
        NewcomerHasNoChild(p, env.tx.hash);
        AcceptTipsExact(p, env, Accept(p, env));
        AcceptApart(p, env, Accept(p, env));
    }
  }

  // ---- confirming ----

  lemma ClearedTips(d: Ledger)
    requires Indexed(d)
    ensures TipsInv(Cleared(d))
  {
  }

  lemma {:induction false} RejudgeTips(d: Ledger, es: seq<Envelope>)
    requires LedgerOk(d) && Indexed(d)
    requires forall e :: e in es ==> e.tx.kind != Sequencer && EnvelopeOk(e, e.tx.hash) && Admissible(d, e.tx)
    ensures TipsInv(Rejudge(Cleared(d), es))
  {
    hide Inv, TipsInv, Admit, Admissible, Indexed;
    if es == [] {
      ClearedTips(d);
    } else {
      var front, last := es[..|es| - 1], es[|es| - 1];
      RejudgeTips(d, front);
      ClearedInv(d);
      RejudgeKeeps(Cleared(d), front);
      assert last in es;
      AdmitTips(Rejudge(Cleared(d), front), last);
    }
  }

  /** A sequencer whose parents have left the pool keeps the tips exact, exactly if it has no good child. */
  lemma AddSeqTips(p: Pool, s: Tx)
    requires StatusOk(p) && TipsExact(p) && s.kind == Sequencer && s.hash !in p.envs
    requires s.hash !in s.parents && forall q :: q in s.parents ==> q !in p.envs
    ensures TipsExact(AddSeq(p, s)) <==> !HasGoodChild(p, s.hash)
  {
    var r := AddSeq(p, s);
    forall h, c | h in p.envs || h == s.hash ensures Child(r, c, h) <==> Child(p, c, h) {
    }
    assert r.IsGood(s.hash) && r.Has(s.hash, Tip);
    assert HasGoodChild(r, s.hash) <==> HasGoodChild(p, s.hash);
    forall h | r.IsGood(h) && h != s.hash ensures r.Has(h, Tip) <==> !HasGoodChild(r, h) {
      assert p.IsGood(h) && (r.Has(h, Tip) <==> p.Has(h, Tip));
      assert HasGoodChild(r, h) <==> HasGoodChild(p, h);
    }
  }

  lemma AddSeqApart(p: Pool, s: Tx)
    requires KnownOnce(p) && s.kind == Sequencer && s.hash !in p.envs && s.hash !in s.parents
    requires s.hash in p.ledger.txs && p.ledger.txs[s.hash] == s
    requires (forall h :: h in p.envs ==> p.envs[h].tx.kind != Sequencer) && forall q :: q in s.parents ==> q !in p.envs
    ensures SequencersApart(AddSeq(p, s)) && KnownOnce(AddSeq(p, s)) && AddSeq(p, s).ledger == p.ledger
  {
  }

  lemma SurvivorsAdmissible(p: Pool, s: Tx, batch: seq<Tx>, e: Envelope)
    requires LookupOk(p) && KnownOnce(p) && s.hash !in p.envs && e in Survivors(p.order, p.envs, HashesOf(batch))
    ensures e.tx.kind != Sequencer && EnvelopeOk(e, e.tx.hash) && Admissible(Pushed(p.ledger, s, batch), e.tx)
  {
    SurvivorsOk(p.order, p.envs, HashesOf(batch), e);
    PushedAt(p.ledger, s, batch, e.tx.hash);
  }

  /** What the confirmation has left before the sequencer is added: no sequencer, and no parent of it. */
  lemma AgainTips(p: Pool, s: Tx, batch: seq<Tx>)
    requires Inv(p) && TipsInv(p) && IsConfirmation(p, s, batch)
    ensures TipsInv(Again(p, s, batch))
    ensures forall h :: h in Again(p, s, batch).envs ==> h in p.envs && Again(p, s, batch).envs[h].tx == p.envs[h].tx
    ensures forall h :: h in Again(p, s, batch).envs ==> Again(p, s, batch).envs[h].tx.kind != Sequencer
    ensures forall q :: q in s.parents ==> q !in Again(p, s, batch).envs
  {
    hide StatusOk, SeqOk, ParentsOk, FlowsOk, BalancesOk, NoncesOk, LedgerOk, Indexed, Admissible;
    PushKeepsLedger(p, s, batch);
    PushIndexed(p.ledger, s, batch);
    forall e | e in Survivors(p.order, p.envs, HashesOf(batch))
      ensures e.tx.kind != Sequencer && EnvelopeOk(e, e.tx.hash) && Admissible(Pushed(p.ledger, s, batch), e.tx)
    {
      SurvivorsAdmissible(p, s, batch, e);
    }
    RejudgeTips(Pushed(p.ledger, s, batch), Survivors(p.order, p.envs, HashesOf(batch)));
    forall h | h in Again(p, s, batch).envs
      ensures h in p.envs && Again(p, s, batch).envs[h].tx == p.envs[h].tx
      ensures p.envs[h].tx.kind != Sequencer && h !in HashesOf(batch)
    {
      AgainEntries(p, s, batch, h);
    }
    forall h | h in s.parents ensures h !in Again(p, s, batch).envs {
      ReachedRoot(Edges(Enlist(p, Envelope(s, Queue, 1))), s.parents, h);
      ElderStored(p, s, batch, h);
    }
  }

  /** A sequencer that is confirmable is not confirmed. */
  lemma SeqIsNew(p: Pool, s: Tx)
    requires Indexed(p.ledger) && s.kind == Sequencer && Admissible(p.ledger, s) && GoodSeq(p.ledger, s)
    ensures s.hash !in p.ledger.txs
  {
  }

  /**
   * A confirmation keeps the tips exact, exactly if nothing rejudged as good builds on the new sequencer.
   * Only a bad pool transaction that names the sequencer before it arrives can become such a one.
   */
  lemma ConfirmTips(p: Pool, s: Tx, batch: seq<Tx>)
    requires Inv(p) && TipsInv(p) && IsConfirmation(p, s, batch) && s.hash !in s.parents && Admissible(p.ledger, s)
    ensures TipsInv(Confirmed(p, s, batch)) <==> !HasGoodChild(Again(p, s, batch), s.hash)
    ensures TipsExact(Confirmed(p, s, batch)) <==> !HasGoodChild(Again(p, s, batch), s.hash)
    ensures !NamedByBad(p, s.hash) ==> TipsInv(Confirmed(p, s, batch))
  {
    hide TipsExact, SequencersApart, KnownOnce, Again, AddSeq, HasGoodChild, Named, NamedByBad, Indexed;
    hide LookupOk, StatusOk, SeqOk, ParentsOk, FlowsOk, BalancesOk, NoncesOk, LedgerOk, Admissible, AllKnown, BatchOk;
    var q := Again(p, s, batch);
    SeqIsNew(p, s);
    AgainTips(p, s, batch);
    AgainStatus(p, s, batch);
    PushKeepsLedger(p, s, batch);
    ConfirmedIs(p, s, batch);
    AddSeqTips(q, s);
    AddSeqApart(q, s);
    NamedMeansBad(p, s.hash);
    if !Named(p, s.hash) {
      UnnamedHasNoChild(p, q, s.hash);
    }
  }

  lemma AgainStatus(p: Pool, s: Tx, batch: seq<Tx>)
    requires Inv(p) && IsConfirmation(p, s, batch)
    ensures StatusOk(Again(p, s, batch)) && s.hash !in Again(p, s, batch).envs
    ensures Again(p, s, batch).ledger == Pushed(p.ledger, s, batch)
  {
    AgainInv(p, s, batch);
    forall h | h in Again(p, s, batch).envs ensures h != s.hash {
      AgainEntries(p, s, batch, h);
    }
  }

  lemma UnnamedHasNoChild(p: Pool, q: Pool, h: Hash)
    requires !Named(p, h) && forall c :: c in q.envs ==> c in p.envs && q.envs[c].tx == p.envs[c].tx
    ensures !HasGoodChild(q, h)
  {
    assert forall c :: c in q.envs ==> h !in p.envs[c].tx.parents;
  }

  lemma ConfirmedIs(p: Pool, s: Tx, batch: seq<Tx>)
    ensures Confirmed(p, s, batch) == AddSeq(Again(p, s, batch), s)
  {
  }

  // ---- runs ----

  /** No archive arrives that is confirmed, and no sequencer after a bad transaction that names it. */
  ghost predicate InTime(p: Pool, e: Event) {
    match e
    case TxArrives(tx) => tx.hash in p.envs || Admissible(p.ledger, tx)
    case SeqArrives(s, _) =>
      s.hash !in s.parents && (s.hash in p.envs || (Admissible(p.ledger, s) && !NamedByBad(p, s.hash)))
  }

  ghost predicate AllInTime(p: Pool, es: seq<Event>)
    decreases |es|
  {
    es != [] ==> InTime(p, es[0]) && AllInTime(Step(p, es[0]), es[1..])
  }

  lemma StepTips(p: Pool, e: Event)
    requires Inv(p) && TipsInv(p) && ValidEvent(p, e) && InTime(p, e)
    ensures TipsInv(Step(p, e))
  {
    hide Inv, TipsInv, Confirmable, Confirmed, Admit, Admissible, NamedByBad;
    match e {
      case TxArrives(tx) => AdmitTips(p, Envelope(tx, Queue, 1));
      case SeqArrives(s, batch) =>
        if s.hash !in p.envs && Confirmable(p, s) {
          ConfirmTips(p, s, batch);
        }
    }
  }

  /** Main result: in every run of such arrivals the tips stay exact. */
  lemma {:induction false} RunTips(p: Pool, es: seq<Event>)
    requires Inv(p) && TipsInv(p) && ValidRun(p, es) && AllInTime(p, es)
    ensures TipsInv(After(p, es))
    decreases |es|
  {
    hide Inv, TipsInv, ValidEvent, InTime, Step;
    if es != [] {
      StepKeeps(p, es[0]);
      StepTips(p, es[0]);
      RunTips(Step(p, es[0]), es[1..]);
    }
  }

  lemma InitialTips(d: Ledger, genesis: Tx)
    requires genesis.kind == Sequencer && genesis.hash !in genesis.parents && Indexed(d)
    requires genesis.hash in d.txs && d.txs[genesis.hash] == genesis
    ensures TipsInv(Initial(d, genesis))
  {
    assert forall c :: !Child(Initial(d, genesis), c, genesis.hash);
  }

  /** From the genesis on: a good transaction is a tip exactly while nothing good builds on it. */
  lemma TipsOfRun(d: Ledger, genesis: Tx, es: seq<Event>, h: Hash)
    requires ReachedBy(After(Initial(d, genesis), es), d, genesis, es)
    requires genesis.hash !in genesis.parents && Indexed(d) && AllInTime(Initial(d, genesis), es)
    ensures var p := After(Initial(d, genesis), es); p.IsGood(h) ==> (p.Has(h, Tip) <==> !HasGoodChild(p, h))
  {
    InitialInv(d, genesis);
    InitialTips(d, genesis);
    RunTips(Initial(d, genesis), es);
  }
}
