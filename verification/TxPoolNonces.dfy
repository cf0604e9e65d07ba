/** A confirmed nonce is never used again. */
module PoolNonces {
  import opened Types
  import opened Graph
  import opened Ledgers
  import opened LedgerProofs
  import opened Pools
  import opened PoolInvariant
  import opened PoolRuns
  import opened PoolTheorems

  /** Sequencers carry a nonce as well; only archives do not. */
  ghost predicate SameNonce(tx: Tx, tx': Tx) {
    tx.kind != Archive && tx'.kind != Archive && tx.sender == tx'.sender && tx.nonce == tx'.nonce
  }

  /** No stored transaction is ahead of the confirmed nonce of its sender. */
  ghost predicate NoncesBelow(d: Ledger) {
    forall h :: h in d.txs && d.txs[h].kind != Archive ==> d.txs[h].nonce <= d.LatestNonce(d.txs[h].sender)
  }

  /** No two stored transactions share sender and nonce. */
  ghost predicate NonceOnce(d: Ledger) {
    forall h, k :: h in d.txs && k in d.txs && SameNonce(d.txs[h], d.txs[k]) ==> h == k
  }

  ghost predicate BatchDistinct(batch: seq<Tx>) {
    forall tx, tx' :: tx in batch && tx' in batch && SameNonce(tx, tx') ==> tx.hash == tx'.hash
  }

  // ---- one push ----

  lemma PushNoncesBelow(d: Ledger, s: Tx, batch: seq<Tx>)
    requires NoncesBelow(d) && s.kind == Sequencer
    ensures NoncesBelow(Pushed(d, s, batch))
  {
    var r := Pushed(d, s, batch);
    forall h | h in r.txs && r.txs[h].kind != Archive ensures r.txs[h].nonce <= r.LatestNonce(r.txs[h].sender) {
      var a := r.txs[h].sender;
      PushedAt(d, s, batch, h);
      PushedNonce(d, s, batch, a);
      assert batch[..|batch|] == batch;
      PrefixNonce(d, batch, |batch|, a);
    }
  }

  /** The nonces of a checked batch are all ahead of what is confirmed, and none is that of the sequencer. */
  lemma BatchAbove(d: Ledger, s: Tx, elders: set<Tx>, batch: seq<Tx>, tx: Tx)
    requires BatchOk(d, s, elders) && Lists(batch, BatchSet(elders)) && tx in batch && tx.kind != Archive
    ensures tx.nonce > d.LatestNonce(tx.sender) && !SameNonce(tx, s)
  {
    assert tx in Elems(batch);
    assert tx in elders && tx.nonce in NoncesOf(elders, tx.sender);
    assert NonceRuns(d, s, elders, tx.sender);
  }

  /** A confirmation, of the batch or of the sequencer itself, uses no nonce that an earlier one has used. */
  lemma NeverReused(d: Ledger, s: Tx, elders: set<Tx>, batch: seq<Tx>, tx: Tx, h: Hash)
    requires NoncesBelow(d) && Indexed(d) && GoodSeq(d, s)
    requires BatchOk(d, s, elders) && Lists(batch, BatchSet(elders)) && (tx in batch || tx == s) && h in d.txs
    ensures !SameNonce(tx, d.txs[h])
  {
    if tx in batch && tx.kind != Archive {
      BatchAbove(d, s, elders, batch, tx);
    }
  }

  /** In the ledger after a push, a nonce is used once exactly if it is used once in the batch. */
  lemma PushNonceOnce(d: Ledger, s: Tx, elders: set<Tx>, batch: seq<Tx>)
    requires NonceOnce(d) && NoncesBelow(d) && Indexed(d) && s.kind == Sequencer && GoodSeq(d, s)
    requires BatchOk(d, s, elders) && Lists(batch, BatchSet(elders))
    requires OneEach(batch)
    requires forall tx :: tx in batch ==> tx.hash != s.hash
    ensures NonceOnce(Pushed(d, s, batch)) <==> BatchDistinct(batch)
  {
    hide BatchOk, Lists, NonceOnce, NoncesBelow, Indexed, GoodSeq;
    if BatchDistinct(batch) {
      PushKeepsOnce(d, s, elders, batch);
    } else {
      PushUsesTwice(d, s, batch);
    }
  }

  lemma PushUsesTwice(d: Ledger, s: Tx, batch: seq<Tx>)
    requires OneEach(batch) && !BatchDistinct(batch) && forall tx :: tx in batch ==> tx.hash != s.hash
    ensures !NonceOnce(Pushed(d, s, batch))
  {
    hide NonceOnce, Pushed;
    var tx, tx' :| tx in batch && tx' in batch && SameNonce(tx, tx') && tx.hash != tx'.hash;
    StoredInBatch(d, s, batch, tx);
    StoredInBatch(d, s, batch, tx');
    UsedTwice(Pushed(d, s, batch), tx.hash, tx'.hash);
  }

  lemma UsedTwice(d: Ledger, h: Hash, k: Hash)
    requires h in d.txs && k in d.txs && SameNonce(d.txs[h], d.txs[k]) && h != k
    ensures !NonceOnce(d)
  {
  }

  /** What is stored after a push: the sequencer, a transaction of the batch, or what was there before. */
  lemma StoredIs(d: Ledger, s: Tx, batch: seq<Tx>, h: Hash)
    requires h in Pushed(d, s, batch).txs
    ensures var tx := Pushed(d, s, batch).txs[h];
      (h == s.hash && tx == s) || (tx in batch && tx.hash == h) || (h in d.txs && tx == d.txs[h])
  {
    hide Pushed;
    PushedAt(d, s, batch, h);
  }

  lemma PushKeepsOnce(d: Ledger, s: Tx, elders: set<Tx>, batch: seq<Tx>)
    requires NonceOnce(d) && NoncesBelow(d) && Indexed(d) && GoodSeq(d, s) && BatchDistinct(batch)
    requires BatchOk(d, s, elders) && Lists(batch, BatchSet(elders))
    ensures NonceOnce(Pushed(d, s, batch))
  {
    hide BatchOk, Lists, Pushed, NonceOnce, NoncesBelow, Indexed, GoodSeq;
    var r := Pushed(d, s, batch);
    forall h, k | h in r.txs && k in r.txs && SameNonce(r.txs[h], r.txs[k]) ensures h == k {
      OneOwner(d, s, elders, batch, h, k);
    }
    OnceIf(r);
  }

  lemma OnceIf(d: Ledger)
    requires forall h, k :: h in d.txs && k in d.txs && SameNonce(d.txs[h], d.txs[k]) ==> h == k
    ensures NonceOnce(d)
  {
  }

  lemma OneOwner(d: Ledger, s: Tx, elders: set<Tx>, batch: seq<Tx>, h: Hash, k: Hash)
    requires NonceOnce(d) && NoncesBelow(d) && Indexed(d) && GoodSeq(d, s) && BatchDistinct(batch)
    requires BatchOk(d, s, elders) && Lists(batch, BatchSet(elders))
    requires h in Pushed(d, s, batch).txs && k in Pushed(d, s, batch).txs
    requires SameNonce(Pushed(d, s, batch).txs[h], Pushed(d, s, batch).txs[k])
    ensures h == k
  {
    hide BatchOk, Lists, Pushed, NoncesBelow, Indexed, GoodSeq;
    var tx, tx' := Pushed(d, s, batch).txs[h], Pushed(d, s, batch).txs[k];
    StoredIs(d, s, batch, h);
    StoredIs(d, s, batch, k);
    if tx in batch || tx == s {
      ApartFromOld(d, s, elders, batch, tx, k);
    }
    if tx' in batch || tx' == s {
      ApartFromOld(d, s, elders, batch, tx', h);
    }
  }

  /** What a confirmation stores shares its nonce neither with an older entry nor across batch and sequencer. */
  lemma ApartFromOld(d: Ledger, s: Tx, elders: set<Tx>, batch: seq<Tx>, tx: Tx, k: Hash)
    requires NoncesBelow(d) && Indexed(d) && GoodSeq(d, s)
    requires BatchOk(d, s, elders) && Lists(batch, BatchSet(elders)) && (tx in batch || tx == s)
    ensures k in d.txs ==> !SameNonce(tx, d.txs[k])
    ensures tx in batch ==> !SameNonce(tx, s)
  {
    hide BatchOk, Lists, NoncesBelow, Indexed, GoodSeq;
    if k in d.txs {
      NeverReused(d, s, elders, batch, tx, k);
    }
    if tx in batch && tx.kind != Archive {
      BatchAbove(d, s, elders, batch, tx);
    }
  }

  /** The whole ledger is the same, whatever the order, if the batch uses each nonce once. */
  lemma PushSameLedger(d: Ledger, s: Tx, elders: set<Tx>, batch: seq<Tx>, batch': seq<Tx>)
    requires s.kind == Sequencer && BatchOk(d, s, elders) && BatchDistinct(batch)
    requires Lists(batch, BatchSet(elders)) && Lists(batch', BatchSet(elders)) && OneEach(batch)
    ensures Pushed(d, s, batch) == Pushed(d, s, batch')
  {
    PushOrderIndependent(d, s, elders, batch, batch');
    hide BatchOk;
    forall tx ensures tx in batch <==> tx in batch' {
      assert tx in Elems(batch) <==> tx in Elems(batch');
    }
    forall tx | tx in batch ensures tx.kind != Sequencer {
      assert tx in Elems(batch);
    }
    var e, e' := ProcessAll(d, batch), ProcessAll(d, batch');
    ProcessAllKeepsTxs(d, batch);
    ProcessAllKeepsTxs(d, batch');
    forall k ensures IndexAt(e.byNonce, StoreAll(e, batch).byNonce, batch, k)
      && IndexAt(e'.byNonce, StoreAll(e', batch').byNonce, batch', k)
    {
      IndexedAt(e, batch, k);
      IndexedAt(e', batch', k);
    }
    SameIndex(d.byNonce, StoreAll(e, batch).byNonce, StoreAll(e', batch').byNonce, batch, batch');
    hide ProcessAll, StoreAll;
  }

  ghost predicate Uses(tx: Tx, k: (Address, nat)) {
    tx.kind != Archive && tx.sender == k.0 && tx.nonce == k.1
  }

  /** The index leads to some transaction of the batch that uses the key, or where it led before. */
  ghost predicate IndexAt(before: map<(Address, nat), Hash>, index: map<(Address, nat), Hash>, batch: seq<Tx>,
      k: (Address, nat))
  {
    if exists tx :: tx in batch && Uses(tx, k) then
      k in index && exists tx :: tx in batch && Uses(tx, k) && index[k] == tx.hash
    else (k in index <==> k in before) && (k in before ==> index[k] == before[k])
  }

  lemma {:induction false} IndexedAt(d: Ledger, batch: seq<Tx>, k: (Address, nat))
    ensures IndexAt(d.byNonce, StoreAll(d, batch).byNonce, batch, k)
  {
    if batch != [] {
      var front, last := batch[..|batch| - 1], batch[|batch| - 1];
      IndexedAt(d, front, k);
      assert forall tx :: tx in batch <==> tx in front || tx == last;
      if Uses(last, k) {
        assert k == (last.sender, last.nonce);
      }
    }
  }

  lemma SameIndex(before: map<(Address, nat), Hash>, index: map<(Address, nat), Hash>,
      index': map<(Address, nat), Hash>, batch: seq<Tx>, batch': seq<Tx>)
    requires (forall tx :: tx in batch <==> tx in batch') && BatchDistinct(batch)
    requires forall tx :: tx in batch ==> tx.kind != Sequencer
    requires forall k :: IndexAt(before, index, batch, k) && IndexAt(before, index', batch', k)
    ensures index == index'
  {
    forall k ensures k in index <==> k in index' {
      assert IndexAt(before, index, batch, k) && IndexAt(before, index', batch', k);
    }
    forall k | k in index ensures index[k] == index'[k] {
      assert IndexAt(before, index, batch, k) && IndexAt(before, index', batch', k);
      if exists tx :: tx in batch && Uses(tx, k) {
        var tx :| tx in batch && Uses(tx, k) && index[k] == tx.hash;
        var tx' :| tx' in batch' && Uses(tx', k) && index'[k] == tx'.hash;
        assert SameNonce(tx, tx');
      }
    }
  }

  // ---- runs ----

  /** Whatever is confirmed next, sequencer included, was not confirmed before, and nor was its nonce. */
  lemma ConfirmedOnce(p: Pool, s: Tx, batch: seq<Tx>, tx: Tx)
    requires NoncesBelow(p.ledger) && Indexed(p.ledger) && IsConfirmation(p, s, batch)
    requires (tx in batch || tx == s) && tx.kind != Archive
    ensures tx.hash in p.ledger.txs ==> p.ledger.txs[tx.hash] != tx
    ensures forall h :: h in p.ledger.txs ==> !SameNonce(tx, p.ledger.txs[h])
    ensures tx in batch ==> !SameNonce(tx, s)
  {
    hide NoncesBelow, Indexed, BatchOk, Lists, Elders;
    var elders := Elders(Enlist(p, Envelope(s, Queue, 1)), s);
    forall h | h in p.ledger.txs ensures !SameNonce(tx, p.ledger.txs[h]) {
      NeverReused(p.ledger, s, elders, batch, tx, h);
    }
    ApartFromOld(p.ledger, s, elders, batch, tx, s.hash);
  }

  lemma StepLedger(p: Pool, e: Event)
    requires Inv(p) && ValidEvent(p, e)
    ensures Confirms(p, e) ==> IsConfirmation(p, e.s, e.batch) && Step(p, e).ledger == Pushed(p.ledger, e.s, e.batch)
    ensures !Confirms(p, e) ==> Step(p, e).ledger == p.ledger
  {
    match e {
      case TxArrives(tx) => AdmitKeeps(p, Envelope(tx, Queue, 1));
      case SeqArrives(s, batch) =>
        if Confirms(p, e) {
          AgainInv(p, s, batch);
        }
    }
  }

  /** Main result: in every run, stored transactions stay at or below the confirmed nonce of their sender. */
  lemma {:induction false} RunNoncesBelow(p: Pool, es: seq<Event>)
    requires Inv(p) && ValidRun(p, es) && NoncesBelow(p.ledger)
    ensures NoncesBelow(After(p, es).ledger)
    decreases |es|
  {
    hide Inv, NoncesBelow, ValidEvent, Step, Confirms, Pushed;
    if es != [] {
      StepKeeps(p, es[0]);
      StepNoncesBelow(p, es[0]);
      RunNoncesBelow(Step(p, es[0]), es[1..]);
    }
  }

  lemma StepNoncesBelow(p: Pool, e: Event)
    requires Inv(p) && ValidEvent(p, e) && NoncesBelow(p.ledger)
    ensures NoncesBelow(Step(p, e).ledger)
  {
    hide Inv, NoncesBelow, ValidEvent, Step, Pushed;
    StepLedger(p, e);
    if Confirms(p, e) {
      PushNoncesBelow(p.ledger, e.s, e.batch);
    }
  }

  lemma StepIndexed(p: Pool, e: Event)
    requires Inv(p) && ValidEvent(p, e) && Indexed(p.ledger)
    ensures Indexed(Step(p, e).ledger)
  {
    hide Inv, Indexed, ValidEvent, Step, Pushed;
    StepLedger(p, e);
    if Confirms(p, e) {
      PushIndexed(p.ledger, e.s, e.batch);
    }
  }

  /** In every run the index by sender and nonce stays complete. */
  lemma {:induction false} RunIndexed(p: Pool, es: seq<Event>)
    requires Inv(p) && ValidRun(p, es) && Indexed(p.ledger)
    ensures Indexed(After(p, es).ledger)
    decreases |es|
  {
    hide Inv, Indexed, ValidEvent, Step;
    if es != [] {
      StepKeeps(p, es[0]);
      StepIndexed(p, es[0]);
      RunIndexed(Step(p, es[0]), es[1..]);
    }
  }

  // ---- confirming distinct nonces ----

  /** No two elders of a confirmation share sender and nonce. */
  ghost predicate DistinctElders(p: Pool, e: Event) {
    Confirms(p, e) ==> BatchDistinct(e.batch)
  }

  ghost predicate AllDistinct(p: Pool, es: seq<Event>)
    decreases |es|
  {
    es != [] ==> DistinctElders(p, es[0]) && AllDistinct(Step(p, es[0]), es[1..])
  }

  /** A hash that is confirmed names the same transaction as before. */
  ghost predicate SameNames(p: Pool, e: Event) {
    Confirms(p, e) ==>
      forall tx :: (tx in e.batch || tx == e.s) && tx.hash in p.ledger.txs ==> p.ledger.txs[tx.hash] == tx
  }

  ghost predicate AllSameNames(p: Pool, es: seq<Event>)
    decreases |es|
  {
    es != [] ==> SameNames(p, es[0]) && AllSameNames(Step(p, es[0]), es[1..])
  }

  lemma StepNonceOnce(p: Pool, e: Event)
    requires Inv(p) && ValidEvent(p, e) && DistinctElders(p, e)
    requires NoncesBelow(p.ledger) && Indexed(p.ledger) && NonceOnce(p.ledger)
    ensures NonceOnce(Step(p, e).ledger)
  {
    hide Inv, NoncesBelow, Indexed, NonceOnce, ValidEvent, Step, Pushed;
    hide BatchDistinct, Elders, BatchOk, GoodSeq, AllKnown;
    StepLedger(p, e);
    if Confirms(p, e) {
      PushKeepsOnce(p.ledger, e.s, Elders(Enlist(p, Envelope(e.s, Queue, 1)), e.s), e.batch);
    }
  }

  /** Main result: no nonce of a sender is confirmed twice in a run whose confirmations have distinct nonces each. */
  lemma {:induction false} RunNonceOnce(p: Pool, es: seq<Event>)
    requires Inv(p) && ValidRun(p, es) && AllDistinct(p, es)
    requires NoncesBelow(p.ledger) && Indexed(p.ledger) && NonceOnce(p.ledger)
    ensures NonceOnce(After(p, es).ledger)
    decreases |es|
  {
    hide Inv, NoncesBelow, Indexed, NonceOnce, ValidEvent, DistinctElders, Step;
    if es != [] {
      StepKeeps(p, es[0]);
      StepNoncesBelow(p, es[0]);
      StepIndexed(p, es[0]);
      StepNonceOnce(p, es[0]);
      RunNonceOnce(Step(p, es[0]), es[1..]);
    }
  }

  /** A batch is stored entry by entry: its hashes differ, also from that of the sequencer. */
  lemma BatchHashes(p: Pool, s: Tx, batch: seq<Tx>)
    requires LookupOk(p) && IsConfirmation(p, s, batch)
    ensures OneEach(batch) && forall tx :: tx in batch ==> tx.hash != s.hash
  {
    var p1 := Enlist(p, Envelope(s, Queue, 1));
    forall tx | tx in batch ensures tx.hash in p.envs && p.envs[tx.hash].tx == tx {
      assert tx in Elems(batch);
      var h :| h in p1.envs && Reached(Edges(p1), s.parents, h) && p1.envs[h].tx == tx;
      assert EnvelopeOk(p.envs[h], h);
    }
  }

  /** What a sender has used twice stays stored. */
  lemma StaysTwice(p: Pool, s: Tx, batch: seq<Tx>)
    requires NoncesBelow(p.ledger) && Indexed(p.ledger) && IsConfirmation(p, s, batch)
    requires SameNames(p, SeqArrives(s, batch)) && !NonceOnce(p.ledger)
    ensures !NonceOnce(Pushed(p.ledger, s, batch))
  {
    hide NoncesBelow, Indexed, Pushed, Confirmable, Lists;
    var d := p.ledger;
    var h, k :| h in d.txs && k in d.txs && SameNonce(d.txs[h], d.txs[k]) && h != k;
    EntryStays(p, s, batch, h);
    EntryStays(p, s, batch, k);
    UsedTwice(Pushed(d, s, batch), h, k);
  }

  lemma EntryStays(p: Pool, s: Tx, batch: seq<Tx>, h: Hash)
    requires SameNames(p, SeqArrives(s, batch)) && IsConfirmation(p, s, batch) && h in p.ledger.txs
    ensures h in Pushed(p.ledger, s, batch).txs && Pushed(p.ledger, s, batch).txs[h] == p.ledger.txs[h]
  {
    hide Pushed, Confirmable, Lists;
    PushedAt(p.ledger, s, batch, h);
    StoredIs(p.ledger, s, batch, h);
  }

  lemma StepOnceIff(p: Pool, e: Event)
    requires Inv(p) && ValidEvent(p, e) && SameNames(p, e) && NoncesBelow(p.ledger) && Indexed(p.ledger)
    ensures NonceOnce(Step(p, e).ledger) <==> NonceOnce(p.ledger) && DistinctElders(p, e)
  {
    hide StatusOk, SeqOk, ParentsOk, FlowsOk, BalancesOk, NoncesOk, LedgerOk, LookupOk;
    hide NoncesBelow, Indexed, NonceOnce, ValidEvent, Step, Pushed, BatchDistinct, Elders, BatchOk, GoodSeq, AllKnown;
    StepLedger(p, e);
    if Confirms(p, e) {
      BatchHashes(p, e.s, e.batch);
      if !NonceOnce(p.ledger) {
        StaysTwice(p, e.s, e.batch);
      } else if BatchDistinct(e.batch) {
        StepNonceOnce(p, e);
      } else {
        PushUsesTwice(p.ledger, e.s, e.batch);
      }
    }
  }

  /** Main result: exactly when a run uses each nonce of a sender once. */
  lemma {:induction false} RunOnceIff(p: Pool, es: seq<Event>)
    requires Inv(p) && ValidRun(p, es) && AllSameNames(p, es) && NoncesBelow(p.ledger) && Indexed(p.ledger)
    ensures NonceOnce(After(p, es).ledger) <==> NonceOnce(p.ledger) && AllDistinct(p, es)
    decreases |es|
  {
    hide Inv, NoncesBelow, Indexed, NonceOnce, ValidEvent, DistinctElders, SameNames, Step;
    if es != [] {
      StepKeeps(p, es[0]);
      StepNoncesBelow(p, es[0]);
      StepIndexed(p, es[0]);
      StepOnceIff(p, es[0]);
      RunOnceIff(Step(p, es[0]), es[1..]);
    }
  }

  // ---- confirming good transactions ----

  /** What a sequencer confirms was good. */
  ghost predicate EldersGood(p: Pool, e: Event) {
    Confirms(p, e) ==> forall tx :: tx in e.batch ==> tx in GoodTxs(p)
  }

  ghost predicate AllEldersGood(p: Pool, es: seq<Event>)
    decreases |es|
  {
    es != [] ==> EldersGood(p, es[0]) && AllEldersGood(Step(p, es[0]), es[1..])
  }

  lemma GoodDistinct(p: Pool, e: Event)
    requires Inv(p) && ValidEvent(p, e) && EldersGood(p, e)
    ensures DistinctElders(p, e)
  {
    hide LookupOk, SeqOk, ParentsOk, BalancesOk, NoncesOk, LedgerOk, Confirmable;
    if Confirms(p, e) {
      forall tx, tx' | tx in e.batch && tx' in e.batch && SameNonce(tx, tx') ensures tx == tx' {
        assert tx in Elems(e.batch) && tx' in Elems(e.batch);
        var h := GoodEntry(p, tx);
        var h' := GoodEntry(p, tx');
        assert InFlow(p, tx) && InFlow(p, tx');
      }
    }
  }

  /** Confirming good transactions only is enough. */
  lemma {:induction false} GoodRunDistinct(p: Pool, es: seq<Event>)
    requires Inv(p) && ValidRun(p, es) && AllEldersGood(p, es)
    ensures AllDistinct(p, es)
    decreases |es|
  {
    hide Inv, ValidEvent, EldersGood, DistinctElders, Step;
    if es != [] {
      StepKeeps(p, es[0]);
      GoodDistinct(p, es[0]);
      GoodRunDistinct(Step(p, es[0]), es[1..]);
    }
  }

  // ---- nonces in pool and ledger ----

  /** No good transaction has a nonce that is confirmed. */
  ghost predicate NonceFresh(p: Pool, h: Hash) {
    p.IsGood(h) && Tracked(p.envs[h].tx) ==> !p.ledger.HasNonce(p.envs[h].tx.sender, p.envs[h].tx.nonce)
  }

  ghost predicate IsSeq(p: Pool, h: Hash) {
    h in p.envs && p.envs[h].tx.kind == Sequencer
  }

  /** Besides, there is one sequencer at most, and it is the one that is stored under its hash. */
  ghost predicate FreshInv(p: Pool) {
    && Indexed(p.ledger)
    && (forall h {:trigger NonceFresh(p, h)} :: NonceFresh(p, h))
    && (forall h :: IsSeq(p, h) ==> h in p.ledger.txs && p.ledger.txs[h] == p.envs[h].tx)
    && (forall h, k :: IsSeq(p, h) && IsSeq(p, k) ==> h == k)
  }

  lemma AcceptFresh(p: Pool, env: Envelope, r: Pool)
    requires FreshInv(p) && EntriesMoved(p, env, r) && r.ledger == p.ledger
    requires env.tx.kind != Sequencer && env.tx.hash !in p.envs
    requires Tracked(env.tx) ==> !p.ledger.HasNonce(env.tx.sender, env.tx.nonce)
    ensures FreshInv(r)
  {
    forall h ensures NonceFresh(r, h) {
      assert NonceFresh(p, h);
    }
    assert forall h :: IsSeq(r, h) ==> IsSeq(p, h);
  }

  lemma JudgedNew(p: Pool, env: Envelope)
    requires Judge(Enlist(p, env), env.tx) == Good && Tracked(env.tx)
    ensures !p.ledger.HasNonce(env.tx.sender, env.tx.nonce)
  {
    hide JudgeParents;
  }

  lemma ShelveFresh(p: Pool, env: Envelope)
    requires FreshInv(p) && env.tx.kind != Sequencer && env.tx.hash !in p.envs
    ensures FreshInv(Shelve(p, env))
  {
    var r := Shelve(p, env);
    forall h ensures NonceFresh(r, h) {
      assert NonceFresh(p, h);
    }
    assert forall h :: IsSeq(r, h) ==> IsSeq(p, h);
  }

  lemma AdmitFresh(p: Pool, env: Envelope)
    requires Inv(p) && FreshInv(p) && env.tx.kind != Sequencer && EnvelopeOk(env, env.tx.hash)
    ensures FreshInv(Admit(p, env))
  {
    hide LookupOk, SeqOk, ParentsOk, FlowsOk, BalancesOk, NoncesOk, LedgerOk, FreshInv, EntriesMoved, Judge, Shelve;
    if env.tx.hash !in p.envs {
      match Judge(Enlist(p, env), env.tx) {
        case Good =>
          if Tracked(env.tx) {
            JudgedNew(p, env);
          }
          AdmitKeeps(p, env);
          AcceptedEntries(p, env);
          AcceptFresh(p, env, Accept(p, env));
        case Bad => ShelveFresh(p, env);
        case Fatal =>
      }
    }
  }

  lemma {:induction false} RejudgeFresh(p: Pool, es: seq<Envelope>)
    requires Inv(p) && FreshInv(p)
    requires forall e :: e in es ==> e.tx.kind != Sequencer && EnvelopeOk(e, e.tx.hash)
    ensures FreshInv(Rejudge(p, es))
  {
    hide Inv, FreshInv, Admit;
    if es != [] {
      RejudgeFresh(p, es[..|es| - 1]);
      RejudgeKeeps(p, es[..|es| - 1]);
      assert es[|es| - 1] in es;
      AdmitFresh(Rejudge(p, es[..|es| - 1]), es[|es| - 1]);
    }
  }

  lemma ClearedFresh(d: Ledger)
    requires Indexed(d)
    ensures FreshInv(Cleared(d))
  {
  }

  lemma AgainFresh(p: Pool, s: Tx, batch: seq<Tx>)
    requires Inv(p) && FreshInv(p) && IsConfirmation(p, s, batch)
    ensures FreshInv(Again(p, s, batch)) && forall h :: !IsSeq(Again(p, s, batch), h)
  {
    hide SeqOk, ParentsOk, FlowsOk, BalancesOk, NoncesOk, LedgerOk, StatusOk, Confirmable, Lists, Pushed, Rejudge;
    PushIndexed(p.ledger, s, batch);
    PushKeepsLedger(p, s, batch);
    var d, es := Pushed(p.ledger, s, batch), Survivors(p.order, p.envs, HashesOf(batch));
    ClearedInv(d);
    ClearedFresh(d);
    forall e | e in es ensures e.tx.kind != Sequencer && EnvelopeOk(e, e.tx.hash) {
      SurvivorsOk(p.order, p.envs, HashesOf(batch), e);
    }
    RejudgeFresh(Cleared(d), es);
    forall h ensures !IsSeq(Again(p, s, batch), h) {
      if h in Again(p, s, batch).envs {
        AgainEntries(p, s, batch, h);
      }
    }
  }

  lemma AddSeqFresh(p: Pool, s: Tx)
    requires FreshInv(p) && (forall h :: !IsSeq(p, h)) && s.kind == Sequencer && s.hash !in p.envs
    requires s.hash in p.ledger.txs && p.ledger.txs[s.hash] == s
    ensures FreshInv(AddSeq(p, s))
  {
    var r := AddSeq(p, s);
    forall h ensures NonceFresh(r, h) {
      assert NonceFresh(p, h);
    }
    forall h | IsSeq(r, h) ensures h == s.hash {
      assert !IsSeq(p, h);
    }
  }

  lemma StepFresh(p: Pool, e: Event)
    requires Inv(p) && FreshInv(p) && ValidEvent(p, e)
    ensures FreshInv(Step(p, e))
  {
    hide Inv, FreshInv, Admit, Confirmable, AddSeq, Rejudge, Pushed, Lists;
    match e {
      case TxArrives(tx) => AdmitFresh(p, Envelope(tx, Queue, 1));
      case SeqArrives(s, batch) =>
        if Confirms(p, e) {
          ConfirmFresh(p, s, batch);
        }
    }
  }

  lemma ConfirmFresh(p: Pool, s: Tx, batch: seq<Tx>)
    requires Inv(p) && FreshInv(p) && IsConfirmation(p, s, batch)
    ensures FreshInv(Confirmed(p, s, batch))
  {
    hide SeqOk, ParentsOk, FlowsOk, BalancesOk, NoncesOk, LedgerOk, StatusOk, LookupOk;
    hide FreshInv, Confirmable, AddSeq, Rejudge, Pushed, Lists;
    AgainFresh(p, s, batch);
    AgainInv(p, s, batch);
    PushKeepsLedger(p, s, batch);
    if s.hash in Again(p, s, batch).envs {
      AgainEntries(p, s, batch, s.hash);
    }
    AddSeqFresh(Again(p, s, batch), s);
  }

  /** The new sequencer enters the flow of its sender, so that the next nonce of the sender is above it. */
  lemma SequencerInFlow(p: Pool, s: Tx, batch: seq<Tx>)
    requires Inv(p) && FreshInv(p) && IsConfirmation(p, s, batch)
    ensures InFlow(Confirmed(p, s, batch), s)
    ensures NextNonce(Confirmed(p, s, batch).ledger, Confirmed(p, s, batch).FlowOf(s.sender), s.sender) > s.nonce
  {
    hide FlowsOk, SeqOk, ParentsOk, BalancesOk, NoncesOk, LedgerOk, StatusOk, LookupOk;
    hide FreshInv, Confirmable, Rejudge, Pushed, Lists;
    var q := Again(p, s, batch);
    AgainInv(p, s, batch);
    AgainFresh(p, s, batch);
    PushedSequencer(p.ledger, s, batch);
    NoSequencerLeft(p, s, batch);
    if s.nonce in q.FlowOf(s.sender).txs {
      FlowFresh(q, s.sender, s.nonce);
    }
    assert InFlow(Confirmed(p, s, batch), s);
    assert s.nonce in Confirmed(p, s, batch).FlowOf(s.sender).txs.Keys;
  }

  lemma FlowFresh(p: Pool, a: Address, n: nat)
    requires FlowsOk(p) && FreshInv(p) && NoSequencer(p.FlowOf(a)) && n in p.FlowOf(a).txs
    ensures !p.ledger.HasNonce(a, n)
  {
    var tx := p.FlowOf(a).txs[n];
    assert FlowEntryOk(p, a, n, tx);
    assert NonceFresh(p, tx.hash);
  }

  lemma NoSequencerLeft(p: Pool, s: Tx, batch: seq<Tx>)
    requires Inv(p) && IsConfirmation(p, s, batch)
    ensures NoSequencer(Again(p, s, batch).FlowOf(s.sender))
  {
    hide SeqOk, ParentsOk, FlowsOk, BalancesOk, NoncesOk, LedgerOk, StatusOk, Confirmable, Rejudge, Pushed, Lists;
    var es := Survivors(p.order, p.envs, HashesOf(batch));
    forall e | e in es ensures e.tx.kind != Sequencer {
      SurvivorsOk(p.order, p.envs, HashesOf(batch), e);
    }
    RejudgeNoSequencer(Cleared(Pushed(p.ledger, s, batch)), es, s.sender);
  }

  lemma {:induction false} RunFresh(p: Pool, es: seq<Event>)
    requires Inv(p) && FreshInv(p) && ValidRun(p, es)
    ensures FreshInv(After(p, es))
    decreases |es|
  {
    hide Inv, FreshInv, ValidEvent, Step;
    if es != [] {
      StepKeeps(p, es[0]);
      StepFresh(p, es[0]);
      RunFresh(Step(p, es[0]), es[1..]);
    }
  }

  /** Main result: in every run, no two tips or pendings, the sequencer included, share sender and nonce. */
  lemma OneGoodPerNonce(d: Ledger, genesis: Tx, es: seq<Event>, tx: Tx, tx': Tx)
    requires ReachedBy(After(Initial(d, genesis), es), d, genesis, es) && Indexed(d)
    requires var p := After(Initial(d, genesis), es); tx in GoodTxs(p) && tx' in GoodTxs(p) && SameNonce(tx, tx')
    ensures tx == tx'
  {
    hide Inv, FreshInv, ValidRun, GoodTxs;
    var p := After(Initial(d, genesis), es);
    InitialInv(d, genesis);
    InitialFresh(d, genesis);
    RunKeeps(Initial(d, genesis), es);
    RunFresh(Initial(d, genesis), es);
    OneGood(p, tx, tx');
  }

  lemma InitialFresh(d: Ledger, genesis: Tx)
    requires Indexed(d) && genesis.kind == Sequencer && genesis.hash in d.txs && d.txs[genesis.hash] == genesis
    ensures FreshInv(Initial(d, genesis))
  {
  }

  lemma OneGood(p: Pool, tx: Tx, tx': Tx)
    requires Inv(p) && FreshInv(p) && tx in GoodTxs(p) && tx' in GoodTxs(p) && SameNonce(tx, tx')
    ensures tx == tx'
  {
    hide SeqOk, ParentsOk, BalancesOk, NoncesOk, LedgerOk, GoodTxs;
    var h := GoodEntry(p, tx);
    var h' := GoodEntry(p, tx');
    assert NonceFresh(p, h) && NonceFresh(p, h');
    assert IsSeq(p, h) <==> tx.kind == Sequencer;
    assert IsSeq(p, h') <==> tx'.kind == Sequencer;
    if Tracked(tx) && Tracked(tx') {
      assert InFlow(p, tx) && InFlow(p, tx');
    }
  }

  // ---- from the genesis on ----

  /** What the genesis sequencer is: no parents, height and nonce zero; balances are not negative. */
  ghost predicate IsStart(genesis: Tx, balances: map<(Address, Token), int>) {
    && genesis.kind == Sequencer && genesis.parents == [] && genesis.nonce == 0
    && forall k :: k in balances ==> balances[k] >= 0
  }

  lemma StartOk(genesis: Tx, balances: map<(Address, Token), int>)
    requires IsStart(genesis, balances)
    ensures var d := AtGenesis(genesis, balances);
      && LedgerOk(d) && Indexed(d) && NoncesBelow(d) && NonceOnce(d)
      && genesis.hash in d.txs && d.txs[genesis.hash] == genesis
  {
  }

  /** Main result: from the genesis on, with nothing assumed of the ledger, in every run. */
  lemma NoncesFromGenesis(genesis: Tx, balances: map<(Address, Token), int>, es: seq<Event>)
    requires IsStart(genesis, balances) && ValidRun(Initial(AtGenesis(genesis, balances), genesis), es)
    ensures var d := AtGenesis(genesis, balances);
      var p := After(Initial(d, genesis), es);
      && ReachedBy(p, d, genesis, es) && NoncesBelow(p.ledger) && Indexed(p.ledger)
      && (AllDistinct(Initial(d, genesis), es) || AllEldersGood(Initial(d, genesis), es) ==> NonceOnce(p.ledger))
      && (AllSameNames(Initial(d, genesis), es) ==> (NonceOnce(p.ledger) <==> AllDistinct(Initial(d, genesis), es)))
  {
    hide NoncesBelow, NonceOnce, Indexed, LedgerOk, Inv, ValidRun, AllEldersGood, AllDistinct, AllSameNames;
    StartOk(genesis, balances);
    var d := AtGenesis(genesis, balances);
    var p := Initial(d, genesis);
    InitialInv(d, genesis);
    RunNoncesBelow(p, es);
    RunIndexed(p, es);
    if AllEldersGood(p, es) {
      GoodRunDistinct(p, es);
    }
    if AllDistinct(p, es) {
      RunNonceOnce(p, es);
    }
    if AllSameNames(p, es) {
      RunOnceIff(p, es);
    }
  }
}
