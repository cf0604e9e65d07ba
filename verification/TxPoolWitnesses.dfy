/** Runs from the genesis after which the pool or the ledger is not as one would expect. */
module PoolWitnesses {
  import opened Types
  import opened Graph
  import opened Ledgers
  import opened LedgerProofs
  import opened Pools
  import opened PoolInvariant
  import opened PoolRuns
  import opened PoolTheorems
  import opened PoolTips
  import opened PoolNonces

  ghost predicate IsGenesis(g: Tx) {
    g.kind == Sequencer && g.parents == []
  }

  lemma GenesisOk(g: Tx)
    requires IsGenesis(g)
    ensures LedgerOk(AtGenesis(g, map[])) && Indexed(AtGenesis(g, map[]))
    ensures Inv(Initial(AtGenesis(g, map[]), g)) && TipsInv(Initial(AtGenesis(g, map[]), g))
  {
    InitialInv(AtGenesis(g, map[]), g);
    InitialTips(AtGenesis(g, map[]), g);
  }

  lemma FourSteps(p0: Pool, p1: Pool, p2: Pool, p3: Pool, p4: Pool, e0: Event, e1: Event, e2: Event, e3: Event)
    requires ValidEvent(p0, e0) && Step(p0, e0) == p1 && ValidEvent(p1, e1) && Step(p1, e1) == p2
    requires ValidEvent(p2, e2) && Step(p2, e2) == p3 && ValidEvent(p3, e3) && Step(p3, e3) == p4
    ensures ValidRun(p0, [e0, e1, e2, e3]) && After(p0, [e0, e1, e2, e3]) == p4
  {
    hide ValidEvent, Step;
    assert [e0, e1, e2, e3][1..] == [e1, e2, e3];
    assert [e1, e2, e3][1..] == [e2, e3];
    assert [e2, e3][1..] == [e3];
    assert [e3][1..] == [];
    assert ValidRun(p4, []) && After(p4, []) == p4;
    assert ValidRun(p3, [e3]) && After(p3, [e3]) == p4;
    assert ValidRun(p2, [e2, e3]) && After(p2, [e2, e3]) == p4;
    assert ValidRun(p1, [e1, e2, e3]) && After(p1, [e1, e2, e3]) == p4;
  }

  /** A pool of one tip and nothing else. */
  function OneTip(env: Envelope, flows: map<Address, Flow>, d: Ledger): Pool {
    var h := env.tx.hash;
    Pool([h], map[h := env.(status := Tip)], map[h := env.tx], map[], map[], flows, d)
  }

  /** An archive whose parents are confirmed becomes the only tip of an empty pool. */
  lemma ArchiveAlone(d: Ledger, env: Envelope)
    requires env.tx.kind == Archive && env.tx.hash !in env.tx.parents && forall q :: q in env.tx.parents ==> q in d.txs
    ensures Admit(Cleared(d), env) == OneTip(env, map[], d)
  {
    hide Demote, JudgeParents;
    var p1 := Enlist(Cleared(d), env);
    ConfirmedParents(p1, env.tx.parents);
    NoTipNoMove(p1, Elems(env.tx.parents));
    assert p1.order == [env.tx.hash];
  }

  /** Without tips nothing moves. */
  lemma NoTipNoMove(p: Pool, s: set<Hash>)
    requires p.tips == map[]
    ensures Demote(p, s) == p
  {
    assert TipSequencers(p, s) == {} && TipTxs(p, s) == {};
    WithoutAbsent(p.order, {});
  }

  lemma {:induction false} ConfirmedParents(p: Pool, parents: seq<Hash>)
    requires forall q :: q in parents ==> q !in p.envs && q in p.ledger.txs
    ensures JudgeParents(p, parents) == Good
  {
    if parents != [] {
      ConfirmedParents(p, parents[1..]);
    }
  }

  /** If all but the newest entry have been confirmed, that one is judged again. */
  lemma LoneSurvivor(front: seq<Hash>, h: Hash, envs: map<Hash, Envelope>, gone: set<Hash>)
    requires forall k :: k in front ==> k in gone && (k in envs ==> envs[k].tx.hash == k)
    requires h in envs && Survives(envs[h], gone)
    ensures Survivors(front + [h], envs, gone) == [envs[h].(status := Queue, judgeNum := envs[h].judgeNum + 1)]
  {
    assert (front + [h])[..|front|] == front;
    NoSurvivor(front, envs, gone);
  }

  lemma {:induction false} NoSurvivor(o: seq<Hash>, envs: map<Hash, Envelope>, gone: set<Hash>)
    requires forall k :: k in o ==> k in gone && (k in envs ==> envs[k].tx.hash == k)
    ensures Survivors(o, envs, gone) == []
  {
    if o != [] {
      assert o[|o| - 1] in o;
      NoSurvivor(o[..|o| - 1], envs, gone);
    }
  }

  lemma RejudgeOne(p: Pool, e: Envelope)
    ensures Rejudge(p, [e]) == Admit(p, e)
  {
    hide Admit;
    assert [e][..0] == [] && Rejudge(p, []) == p;
  }

  // ---- the first arrival ----

  lemma JudgeOnGenesis(g: Tx, tx: Tx)
    requires IsGenesis(g) && tx.parents == [g.hash] && tx.hash != g.hash && (tx.kind == Archive || tx.kind == Campaign)
    requires tx.kind == Campaign ==> tx.nonce == 1 && (tx.sender, 1) != (g.sender, g.nonce)
    ensures Judge(Enlist(Initial(AtGenesis(g, map[]), g), Envelope(tx, Queue, 1)), tx) == Good
  {
    var p1 := Enlist(Initial(AtGenesis(g, map[]), g), Envelope(tx, Queue, 1));
    assert tx.parents[1..] == [];
    assert JudgeParents(p1, []) == Good && JudgeParents(p1, tx.parents) == Good;
    assert p1.FlowOf(tx.sender) == Flow(map[], map[]) && p1.ledger.LatestNonce(tx.sender) == 0;
  }

  ghost function FlowsWith(tx: Tx): map<Address, Flow> {
    if tx.kind == Archive then map[] else map[tx.sender := Flow(map[], map[tx.nonce := tx])]
  }

  /** A transaction on top of the genesis alone: the genesis leaves. */
  lemma OnGenesis(g: Tx, tx: Tx)
    requires IsGenesis(g) && tx.parents == [g.hash] && tx.hash != g.hash && (tx.kind == Archive || tx.kind == Campaign)
    requires tx.kind == Campaign ==> tx.nonce == 1 && (tx.sender, 1) != (g.sender, g.nonce)
    ensures Step(Initial(AtGenesis(g, map[]), g), TxArrives(tx))
         == OneTip(Envelope(tx, Queue, 1), FlowsWith(tx), AtGenesis(g, map[]))
  {
    hide Judge, Demote, AddToFlows;
    JudgeOnGenesis(g, tx);
    GenesisLeaves(g, tx);
    assert Elems(tx.parents) == {g.hash};
    FirstInFlows(
      Pool([tx.hash], map[tx.hash := Envelope(tx, Queue, 1)], map[], map[], map[], map[], AtGenesis(g, map[])), tx);
  }

  lemma FirstInFlows(p: Pool, tx: Tx)
    requires p.flows == map[] && (tx.kind == Archive || tx.kind == Campaign)
    ensures AddToFlows(p, tx) == p.(flows := FlowsWith(tx))
  {
  }

  lemma GenesisLeaves(g: Tx, tx: Tx)
    requires g.kind == Sequencer && tx.hash != g.hash
    ensures Demote(Enlist(Initial(AtGenesis(g, map[]), g), Envelope(tx, Queue, 1)), {g.hash}) ==
      Pool([tx.hash], map[tx.hash := Envelope(tx, Queue, 1)], map[], map[], map[], map[], AtGenesis(g, map[]))
  {
    var p1, s := Enlist(Initial(AtGenesis(g, map[]), g), Envelope(tx, Queue, 1)), {g.hash};
    assert p1.order == [g.hash, tx.hash];
    assert TipSequencers(p1, s) == s && TipTxs(p1, s) == {};
    assert Without([], s) == [] && Without([g.hash], s) == [];
    assert [g.hash, tx.hash][..1] == [g.hash] && Without([g.hash, tx.hash], s) == [tx.hash];
  }

  // ---- an archive comes back ----

  /** Archives `a`, on the genesis, and `b`, on `a`; a sequencer that confirms `a` only. */
  ghost predicate TwoArchives(g: Tx, a: Tx, b: Tx, s: Tx) {
    && IsGenesis(g) && NoDup([g.hash, a.hash, b.hash, s.hash])
    && a.kind == Archive && a.parents == [g.hash]
    && b.kind == Archive && b.parents == [a.hash]
    && s.kind == Sequencer && s.parents == [a.hash] && s.height == 1
    && (s.sender, s.nonce) != (g.sender, g.nonce)
  }

  ghost function ChildPool(g: Tx, a: Tx, b: Tx): Pool {
    Pool([a.hash, b.hash], map[a.hash := Envelope(a, Pending, 1), b.hash := Envelope(b, Tip, 1)],
         map[b.hash := b], map[a.hash := a], map[], map[], AtGenesis(g, map[]))
  }

  lemma ParentPends(g: Tx, a: Tx, b: Tx)
    requires a.kind == Archive && a.hash != b.hash
    ensures
      Demote(Enlist(OneTip(Envelope(a, Queue, 1), map[], AtGenesis(g, map[])), Envelope(b, Queue, 1)), {a.hash}) ==
      Pool([a.hash, b.hash], map[a.hash := Envelope(a, Pending, 1), b.hash := Envelope(b, Queue, 1)],
           map[], map[a.hash := a], map[], map[], AtGenesis(g, map[]))
  {
    var p1, s := Enlist(OneTip(Envelope(a, Queue, 1), map[], AtGenesis(g, map[])), Envelope(b, Queue, 1)), {a.hash};
    assert p1.order == [a.hash, b.hash];
    assert TipSequencers(p1, s) == {} && TipTxs(p1, s) == s;
    assert [a.hash, b.hash][..1] == [a.hash];
    assert Without([], {}) == [] && Without([a.hash], {}) == [a.hash]
      && Without([a.hash, b.hash], {}) == [a.hash, b.hash];
  }

  lemma ChildArrives(g: Tx, a: Tx, b: Tx, s: Tx)
    requires TwoArchives(g, a, b, s)
    ensures Step(OneTip(Envelope(a, Queue, 1), map[], AtGenesis(g, map[])), TxArrives(b)) == ChildPool(g, a, b)
  {
    hide Demote, Elders, AllKnown;
    Distinct4(g.hash, a.hash, b.hash, s.hash);
    var p1 := Enlist(OneTip(Envelope(a, Queue, 1), map[], AtGenesis(g, map[])), Envelope(b, Queue, 1));
    assert b.parents[1..] == [] && JudgeParents(p1, []) == Good && JudgeParents(p1, b.parents) == Good;
    ParentPends(g, a, b);
    assert Elems(b.parents) == {a.hash};
  }

  lemma Distinct4(a: Hash, b: Hash, c: Hash, d: Hash)
    requires NoDup([a, b, c, d])
    ensures a != b && a != c && a != d && b != c && b != d && c != d
  {
    var s := [a, b, c, d];
    assert s[0] == a && s[1] == b && s[2] == c && s[3] == d;
  }

  /** The sequencer reaches `a` and the genesis. */
  lemma ArchiveElders(g: Tx, a: Tx, b: Tx, s: Tx)
    requires TwoArchives(g, a, b, s)
    ensures var p1 := Enlist(ChildPool(g, a, b), Envelope(s, Queue, 1)); AllKnown(p1, s) && Elders(p1, s) == {a}
  {
    Distinct4(g.hash, a.hash, b.hash, s.hash);
    var p1 := Enlist(ChildPool(g, a, b), Envelope(s, Queue, 1));
    var m := Edges(p1);
    ReachedRoot(m, s.parents, a.hash);
    assert m[a.hash] == {g.hash};
    forall h | Reached(m, s.parents, h) ensures h in {a.hash, g.hash} {
      ReachedInClosed(m, s.parents, {a.hash, g.hash}, h);
    }
    assert p1.envs[a.hash].tx == a;
  }

  lemma ArchiveConfirmable(g: Tx, a: Tx, b: Tx, s: Tx)
    requires TwoArchives(g, a, b, s)
    ensures IsConfirmation(ChildPool(g, a, b), s, [a])
  {
    ArchiveElders(g, a, b, s);
    Distinct4(g.hash, a.hash, b.hash, s.hash);
    hide AllKnown, Elders;
    var d := AtGenesis(g, map[]);
    assert Affordable(d, {a});
    forall x ensures NonceRuns(d, s, {a}, x) {
      assert NoncesOf({a}, x) == {};
    }
    assert BatchSet({a}) == {a} && Elems([a]) == {a};
  }

  ghost function LeftPool(g: Tx, a: Tx, b: Tx, s: Tx): Pool {
    AddSeq(OneTip(Envelope(b, Queue, 2), map[], Pushed(AtGenesis(g, map[]), s, [a])), s)
  }

  lemma ArchiveConfirmed(g: Tx, a: Tx, b: Tx, s: Tx)
    requires TwoArchives(g, a, b, s)
    ensures Confirmed(ChildPool(g, a, b), s, [a]) == LeftPool(g, a, b, s)
    ensures g.hash in LeftPool(g, a, b, s).ledger.txs && a.hash in LeftPool(g, a, b, s).ledger.txs
  {
    hide Pushed, Survivors, Rejudge, Admit, OneTip;
    Distinct4(g.hash, a.hash, b.hash, s.hash);
    var p, d, e := ChildPool(g, a, b), Pushed(AtGenesis(g, map[]), s, [a]), Envelope(b, Queue, 2);
    PushedAt(AtGenesis(g, map[]), s, [a], a.hash);
    PushedAt(AtGenesis(g, map[]), s, [a], g.hash);
    assert HashesOf([a]) == {a.hash} && p.order == [a.hash] + [b.hash];
    LoneSurvivor([a.hash], b.hash, p.envs, {a.hash});
    RejudgeOne(Cleared(d), e);
    ArchiveAlone(d, e);
    AloneLedger(e, d);
  }

  lemma AloneLedger(e: Envelope, d: Ledger)
    ensures OneTip(e, map[], d).ledger == d
  {
  }

  lemma LeftApart(g: Tx, a: Tx, b: Tx, s: Tx)
    requires TwoArchives(g, a, b, s)
    ensures SequencersApart(LeftPool(g, a, b, s)) && HasGoodChild(LeftPool(g, a, b, s), a.hash)
    ensures a.hash !in LeftPool(g, a, b, s).envs && g.hash !in LeftPool(g, a, b, s).envs
  {
    Distinct4(g.hash, a.hash, b.hash, s.hash);
    hide Pushed;
    assert Child(LeftPool(g, a, b, s), b.hash, a.hash);
  }

  /** The archive, confirmed, arrives again while its child is a tip: both are tips now. */
  lemma ArchiveReturns(g: Tx, a: Tx, b: Tx, s: Tx)
    requires TwoArchives(g, a, b, s) && StatusOk(LeftPool(g, a, b, s))
    ensures !TipsExact(Step(LeftPool(g, a, b, s), TxArrives(a)))
  {
    hide Pushed, LeftPool, StatusOk, Accept, EntriesMoved, SequencersApart, HasGoodChild, TipsExact, JudgeParents,
      Elems;
    Distinct4(g.hash, a.hash, b.hash, s.hash);
    ArchiveConfirmed(g, a, b, s);
    LeftApart(g, a, b, s);
    var p, env := LeftPool(g, a, b, s), Envelope(a, Queue, 1);
    ConfirmedParents(Enlist(p, env), a.parents);
    AcceptedEntries(p, env);
    AcceptTipsLost(p, env, Accept(p, env));
  }

  /** Witness: `a` arrives, then `b`, `a` is confirmed, `a` arrives again, and the tips are not exact. */
  lemma TipsLostByArchive(g: Tx, a: Tx, b: Tx, s: Tx)
    requires TwoArchives(g, a, b, s)
    ensures var d, es := AtGenesis(g, map[]), [TxArrives(a), TxArrives(b), SeqArrives(s, [a]), TxArrives(a)];
      var p := After(Initial(d, g), es); ReachedBy(p, d, g, es) && !TipsExact(p)
  {
    Distinct4(g.hash, a.hash, b.hash, s.hash);
    GenesisOk(g);
    OnGenesis(g, a);
    ChildArrives(g, a, b, s);
    ArchiveConfirmable(g, a, b, s);
    ArchiveConfirmed(g, a, b, s);
    hide Confirmable, Confirmed, Admit, TipsInv, TipsExact, LeftPool;
    hide LookupOk, StatusOk, SeqOk, ParentsOk, FlowsOk, BalancesOk, NoncesOk, LedgerOk;
    StepKeeps(Initial(AtGenesis(g, map[]), g), TxArrives(a));
    StepKeeps(OneTip(Envelope(a, Queue, 1), map[], AtGenesis(g, map[])), TxArrives(b));
    ConfirmKeeps(ChildPool(g, a, b), s, [a]);
    ArchiveReturns(g, a, b, s);
    var p0, p1 := Initial(AtGenesis(g, map[]), g), OneTip(Envelope(a, Queue, 1), map[], AtGenesis(g, map[]));
    var p2, p3 := ChildPool(g, a, b), LeftPool(g, a, b, s);
    FourSteps(p0, p1, p2, p3, Step(p3, TxArrives(a)), TxArrives(a), TxArrives(b), SeqArrives(s, [a]), TxArrives(a));
  }

  // ---- one nonce, two transactions ----

  /**
   * Campaigns `x` and `y` of one sender and nonce, both on the genesis; an archive `b` on `y` and on a sequencer
   * that is still to come; that sequencer, of another sender, on `x` and `y`.
   */
  ghost predicate TwoCampaigns(g: Tx, x: Tx, y: Tx, b: Tx, s: Tx) {
    && IsGenesis(g) && NoDup([x.hash, y.hash, b.hash, s.hash]) && g.hash !in [x.hash, y.hash, b.hash, s.hash]
    && x.kind == Campaign && x.parents == [g.hash] && x.nonce == 1
    && y.kind == Campaign && y.parents == [g.hash] && y.nonce == 1 && y.sender == x.sender
    && b.kind == Archive && b.parents == [y.hash, s.hash]
    && s.kind == Sequencer && s.parents == [x.hash, y.hash] && s.height == 1
    && s.sender != x.sender && (s.sender, s.nonce) != (g.sender, g.nonce) && (x.sender, 1) != (g.sender, g.nonce)
  }

  lemma CampaignHashes(g: Tx, x: Tx, y: Tx, b: Tx, s: Tx)
    requires TwoCampaigns(g, x, y, b, s)
    ensures x.hash != y.hash && x.hash != b.hash && x.hash != s.hash && y.hash != b.hash && y.hash != s.hash
    ensures b.hash != s.hash && g.hash != x.hash && g.hash != y.hash && g.hash != b.hash && g.hash != s.hash
  {
    Distinct4(x.hash, y.hash, b.hash, s.hash);
    var hs := [x.hash, y.hash, b.hash, s.hash];
    assert hs[0] in hs && hs[1] in hs && hs[2] in hs && hs[3] in hs;
  }

  ghost function XPool(g: Tx, x: Tx): Pool {
    OneTip(Envelope(x, Queue, 1), FlowsWith(x), AtGenesis(g, map[]))
  }

  ghost function XYPool(g: Tx, x: Tx, y: Tx): Pool {
    Shelve(XPool(g, x), Envelope(y, Queue, 1))
  }

  ghost function XYBPool(g: Tx, x: Tx, y: Tx, b: Tx): Pool {
    Shelve(XYPool(g, x, y), Envelope(b, Queue, 1))
  }

  /** The second transaction of the nonce is bad, and so is what names it first. */
  lemma BothShelved(g: Tx, x: Tx, y: Tx, b: Tx, s: Tx)
    requires TwoCampaigns(g, x, y, b, s)
    ensures Step(XPool(g, x), TxArrives(y)) == XYPool(g, x, y)
    ensures Step(XYPool(g, x, y), TxArrives(b)) == XYBPool(g, x, y, b)
  {
    CampaignHashes(g, x, y, b, s);
    var p1, p2 := Enlist(XPool(g, x), Envelope(y, Queue, 1)), Enlist(XYPool(g, x, y), Envelope(b, Queue, 1));
    assert y.parents[1..] == [] && JudgeParents(p1, []) == Good && JudgeParents(p1, y.parents) == Good;
    assert Judge(p1, y) == Bad;
    assert JudgeParents(p2, b.parents) == Bad;
  }

  lemma CampaignElders(g: Tx, x: Tx, y: Tx, b: Tx, s: Tx)
    requires TwoCampaigns(g, x, y, b, s)
    ensures var p1 := Enlist(XYBPool(g, x, y, b), Envelope(s, Queue, 1)); AllKnown(p1, s) && Elders(p1, s) == {x, y}
  {
    CampaignHashes(g, x, y, b, s);
    var p1 := Enlist(XYBPool(g, x, y, b), Envelope(s, Queue, 1));
    var m, known := Edges(p1), {x.hash, y.hash, g.hash};
    ReachedRoot(m, s.parents, x.hash);
    ReachedRoot(m, s.parents, y.hash);
    assert p1.envs[x.hash].tx == x && p1.envs[y.hash].tx == y;
    assert m[x.hash] == {g.hash} && m[y.hash] == {g.hash} && g.hash !in m;
    forall h | Reached(m, s.parents, h) ensures h in known {
      ReachedInClosed(m, s.parents, known, h);
    }
  }

  lemma CampaignBatch(g: Tx, x: Tx, y: Tx, b: Tx, s: Tx)
    requires TwoCampaigns(g, x, y, b, s)
    ensures BatchOk(AtGenesis(g, map[]), s, {x, y}) && Lists([x, y], BatchSet({x, y}))
  {
    CampaignHashes(g, x, y, b, s);
    var d := AtGenesis(g, map[]);
    forall a ensures NonceRuns(d, s, {x, y}, a) {
      assert x in {x, y} && NoncesOf({x, y}, a) == if a == x.sender then {1} else {};
    }
    assert BatchSet({x, y}) == {x, y} && Elems([x, y]) == {x, y};
  }

  lemma CampaignConfirmable(g: Tx, x: Tx, y: Tx, b: Tx, s: Tx)
    requires TwoCampaigns(g, x, y, b, s)
    ensures IsConfirmation(XYBPool(g, x, y, b), s, [x, y])
  {
    hide AllKnown, Elders, BatchOk, Lists;
    CampaignHashes(g, x, y, b, s);
    CampaignElders(g, x, y, b, s);
    CampaignBatch(g, x, y, b, s);
  }

  /** After the confirmation the archive is good, and names the new sequencer. */
  lemma ArchiveTurnsGood(g: Tx, x: Tx, y: Tx, b: Tx, s: Tx)
    requires TwoCampaigns(g, x, y, b, s)
    ensures HasGoodChild(Again(XYBPool(g, x, y, b), s, [x, y]), s.hash)
  {
    hide Pushed, Survivors, Rejudge, Admit;
    CampaignHashes(g, x, y, b, s);
    var p, d, e := XYBPool(g, x, y, b), Pushed(AtGenesis(g, map[]), s, [x, y]), Envelope(b, Queue, 2);
    PushedAt(AtGenesis(g, map[]), s, [x, y], y.hash);
    PushedAt(AtGenesis(g, map[]), s, [x, y], s.hash);
    assert HashesOf([x, y]) == {x.hash, y.hash} && p.order == [x.hash, y.hash] + [b.hash];
    LoneSurvivor([x.hash, y.hash], b.hash, p.envs, {x.hash, y.hash});
    RejudgeOne(Cleared(d), e);
    ArchiveAlone(d, e);
    assert Child(OneTip(e, map[], d), b.hash, s.hash);
  }

  /** The pool before the sequencer arrives is as every run leaves it. */
  lemma CampaignInv(g: Tx, x: Tx, y: Tx, b: Tx, s: Tx)
    requires TwoCampaigns(g, x, y, b, s)
    ensures Inv(XYBPool(g, x, y, b)) && TipsInv(XYBPool(g, x, y, b))
    ensures Step(Initial(AtGenesis(g, map[]), g), TxArrives(x)) == XPool(g, x)
  {
    hide Inv, TipsInv, Step, Shelve, OneTip;
    CampaignHashes(g, x, y, b, s);
    GenesisOk(g);
    OnGenesis(g, x);
    BothShelved(g, x, y, b, s);
    var p0, p1, p2 := Initial(AtGenesis(g, map[]), g), XPool(g, x), XYPool(g, x, y);
    SameLedger(g, x, y);
    StepKeeps(p0, TxArrives(x));
    StepTips(p0, TxArrives(x));
    StepKeeps(p1, TxArrives(y));
    StepTips(p1, TxArrives(y));
    StepKeeps(p2, TxArrives(b));
    StepTips(p2, TxArrives(b));
  }

  lemma SameLedger(g: Tx, x: Tx, y: Tx)
    ensures XPool(g, x).ledger == AtGenesis(g, map[]) && XYPool(g, x, y).ledger == AtGenesis(g, map[])
  {
  }

  /**
   * Witness: `x`, `y` and `b` arrive, then the sequencer. Two transactions of one sender and nonce are confirmed,
   * and the new sequencer is a tip although the archive, good by now, builds on it.
   */
  lemma NonceUsedTwice(g: Tx, x: Tx, y: Tx, b: Tx, s: Tx)
    requires TwoCampaigns(g, x, y, b, s)
    ensures var d, es := AtGenesis(g, map[]), [TxArrives(x), TxArrives(y), TxArrives(b), SeqArrives(s, [x, y])];
      var p := After(Initial(d, g), es); ReachedBy(p, d, g, es) && !NonceOnce(p.ledger) && !TipsExact(p)
  {
    hide Confirmable, Confirmed, Admit, Inv, TipsInv, TipsExact, Shelve, OneTip, Pushed, NonceOnce, HasGoodChild, Again;
    CampaignHashes(g, x, y, b, s);
    GenesisOk(g);
    CampaignInv(g, x, y, b, s);
    BothShelved(g, x, y, b, s);
    CampaignConfirmable(g, x, y, b, s);
    ArchiveTurnsGood(g, x, y, b, s);
    XYBLedger(g, x, y, b);
    var d, p0, p1, p2, p3 := AtGenesis(g, map[]), Initial(AtGenesis(g, map[]), g), XPool(g, x), XYPool(g, x, y),
      XYBPool(g, x, y, b);
    ConfirmTips(p3, s, [x, y]);
    FourSteps(p0, p1, p2, p3, Confirmed(p3, s, [x, y]), TxArrives(x), TxArrives(y), TxArrives(b),
      SeqArrives(s, [x, y]));
    StepLedger(p3, SeqArrives(s, [x, y]));
    StoredInBatch(d, s, [x, y], x);
    StoredInBatch(d, s, [x, y], y);
    UsedTwice(Pushed(d, s, [x, y]), x.hash, y.hash);
  }

  lemma XYBLedger(g: Tx, x: Tx, y: Tx, b: Tx)
    ensures XYBPool(g, x, y, b).ledger == AtGenesis(g, map[])
  {
  }
}
