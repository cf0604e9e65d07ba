/** The transaction pool as a value: what one arrival makes of it. */
module Pools {
  import opened Types
  import opened Sums
  import opened Graph
  import opened Ledgers
  import opened LedgerProofs

  const REJUDGE_THRESHOLD: nat := 10

  datatype Status = Queue | Tip | BadTx | Pending
  datatype Quality = Bad | Good | Fatal

  datatype Envelope = Envelope(tx: Tx, status: Status, judgeNum: nat)

  datatype BalanceState = BalanceState(spent: int, origin: int)

  /** What the pool knows of one sender: spending per token, and its transactions by nonce. */
  datatype Flow = Flow(balances: map<Token, BalanceState>, txs: map<nat, Tx>)

  datatype Pool = Pool(
    order: seq<Hash>,
    envs: map<Hash, Envelope>,
    tips: map<Hash, Tx>,
    pendings: map<Hash, Tx>,
    badtxs: map<Hash, Tx>,
    flows: map<Address, Flow>,
    ledger: Ledger)
  {
    predicate Has(h: Hash, s: Status) {
      h in envs && envs[h].status == s
    }

    /** A good transaction is a tip or pending. */
    predicate IsGood(h: Hash) {
      Has(h, Tip) || Has(h, Pending)
    }

    function FlowOf(a: Address): Flow {
      FlowIn(flows, a)
    }
  }

  function FlowIn(flows: map<Address, Flow>, a: Address): Flow {
    if a in flows then flows[a] else Flow(map[], map[])
  }

  ghost function MaxOf(s: set<nat>): (m: nat)
    requires s != {}
    ensures m in s && forall x :: x in s ==> x <= m
    decreases |s|
  {
    var x := Pick(s);
    if s == {x} then x else
      assert |s - {x}| < |s|;
      assert s == (s - {x}) + {x};
      Max(x, MaxOf(s - {x}))
  }

  // ---- judging a transaction (isBadTx) ----

  /** The first parent that is bad or unknown decides. */
  function JudgeParents(p: Pool, parents: seq<Hash>): Quality {
    if parents == [] then Good
    else if parents[0] in p.envs then
      if p.envs[parents[0]].status == BadTx then Bad else JudgeParents(p, parents[1..])
    else if parents[0] in p.ledger.txs then JudgeParents(p, parents[1..])
    else Fatal
  }

  function BalanceStateOf(d: Ledger, f: Flow, a: Address, t: Token): BalanceState {
    if t in f.balances then f.balances[t] else BalanceState(0, d.Balance(a, t))
  }

  ghost function NextNonce(d: Ledger, f: Flow, a: Address): nat {
    1 + if f.txs.Keys != {} then MaxOf(f.txs.Keys) else d.LatestNonce(a)
  }

  ghost function JudgeAccount(d: Ledger, f: Flow, tx: Tx): Quality {
    if tx.nonce in f.txs then
      if f.txs[tx.nonce].hash == tx.hash then Fatal else Bad
    else if d.HasNonce(tx.sender, tx.nonce) then Fatal
    else if tx.nonce != NextNonce(d, f, tx.sender) then Fatal
    else if tx.kind == Normal then
      var st := BalanceStateOf(d, f, tx.sender, tx.token);
      if tx.value > st.origin then Fatal
      else if st.spent + tx.value > st.origin then Bad
      else Good
    else Good
  }

  ghost function Judge(p: Pool, tx: Tx): Quality {
    var q := JudgeParents(p, tx.parents);
    if q != Good then q
    else if tx.kind == Archive then Good
    else JudgeAccount(p.ledger, p.FlowOf(tx.sender), tx)
  }

  // ---- account flows ----

  function Opened(d: Ledger, f: Flow, tx: Tx): Flow {
    if tx.kind == Normal && tx.token !in f.balances
    then f.(balances := f.balances[tx.token := BalanceState(0, d.Balance(tx.sender, tx.token))])
    else f
  }

  /** Adding fails on a repeated nonce, or when the spending would pass the origin balance. */
  predicate FlowAccepts(f: Flow, tx: Tx) {
    && tx.nonce !in f.txs
    && (tx.kind == Normal && tx.token in f.balances ==>
          f.balances[tx.token].spent + tx.value <= f.balances[tx.token].origin)
  }

  function FlowPut(f: Flow, tx: Tx): Flow {
    if !FlowAccepts(f, tx) then f
    else if tx.kind == Normal && tx.token in f.balances then
      var st := f.balances[tx.token];
      Flow(f.balances[tx.token := st.(spent := st.spent + tx.value)], f.txs[tx.nonce := tx])
    else f.(txs := f.txs[tx.nonce := tx])
  }

  function FlowAdd(d: Ledger, f: Flow, tx: Tx): Flow {
    FlowPut(Opened(d, f, tx), tx)
  }

  function AddToFlows(p: Pool, tx: Tx): Pool {
    if tx.kind == Archive then p
    else p.(flows := p.flows[tx.sender := FlowAdd(p.ledger, p.FlowOf(tx.sender), tx)])
  }

  // ---- committing a transaction ----

  function Without(o: seq<Hash>, s: set<Hash>): seq<Hash> {
    if o == [] then []
    else
      var front := Without(o[..|o| - 1], s);
      if o[|o| - 1] in s then front else front + [o[|o| - 1]]
  }

  function TipSequencers(p: Pool, s: set<Hash>): set<Hash> {
    set h | h in s && h in p.tips && p.Has(h, Tip) && p.tips[h].kind == Sequencer
  }

  function TipTxs(p: Pool, s: set<Hash>): set<Hash> {
    set h | h in s && h in p.tips && p.Has(h, Tip) && p.tips[h].kind != Sequencer
  }

  /** Tips among `s` stop being tips: sequencers leave the pool, the others become pending. */
  function Demote(p: Pool, s: set<Hash>): Pool {
    var gone, moved := TipSequencers(p, s), TipTxs(p, s);
    p.(order := Without(p.order, gone),
       envs := map h | h in p.envs && h !in gone ::
                 if h in moved then p.envs[h].(status := Pending) else p.envs[h],
       tips := p.tips - (gone + moved),
       pendings := p.pendings + map h | h in moved :: p.tips[h])
  }

  function Enlist(p: Pool, env: Envelope): Pool {
    p.(order := p.order + [env.tx.hash], envs := p.envs[env.tx.hash := env])
  }

  function Accept(p: Pool, env: Envelope): Pool {
    var q := AddToFlows(Demote(Enlist(p, env), Elems(env.tx.parents)), env.tx);
    q.(tips := q.tips[env.tx.hash := env.tx], envs := q.envs[env.tx.hash := env.(status := Tip)])
  }

  function Shelve(p: Pool, env: Envelope): Pool {
    Enlist(p, env.(status := BadTx)).(badtxs := p.badtxs[env.tx.hash := env.tx])
  }

  /** One transaction offered to the pool; a known or fatal one leaves it as it was. */
  ghost function Admit(p: Pool, env: Envelope): Pool {
    if env.tx.hash in p.envs then p
    else
      match Judge(Enlist(p, env), env.tx)
      case Fatal => p
      case Bad => Shelve(p, env)
      case Good => Accept(p, env)
  }

  // ---- confirming a sequencer ----

  ghost function EdgesOf(envs: map<Hash, Envelope>): Succ<Hash> {
    map h | h in envs :: Elems(envs[h].tx.parents)
  }

  ghost function Edges(p: Pool): Succ<Hash> {
    EdgesOf(p.envs)
  }

  /** The pool transactions a sequencer builds on, directly or through other pool transactions. */
  ghost function Elders(p: Pool, s: Tx): set<Tx> {
    set h | h in p.envs && Reached(Edges(p), s.parents, h) :: p.envs[h].tx
  }

  ghost predicate AllKnown(p: Pool, s: Tx) {
    forall h :: Reached(Edges(p), s.parents, h) ==> h in p.envs || h in p.ledger.txs
  }

  /** isBadSeq passes. */
  predicate GoodSeq(d: Ledger, s: Tx) {
    !d.HasNonce(s.sender, s.nonce) && d.height + 1 == s.height
  }

  ghost predicate NonceRuns(d: Ledger, s: Tx, elders: set<Tx>, a: Address) {
    var ns := NoncesOf(elders, a);
    ns != {} ==>
      && IsRun(ns, d.LatestNonce(a))
      && (a == s.sender ==> s.nonce == d.LatestNonce(a) + |ns| + 1)
  }

  /** What verifyConfirmBatch demands of the elders, said without any iteration. */
  ghost predicate BatchOk(d: Ledger, s: Tx, elders: set<Tx>) {
    && (forall tx :: tx in elders && tx.kind != Archive ==> !(tx.sender == s.sender && tx.nonce == s.nonce))
    && Affordable(d, elders)
    && (forall a :: NonceRuns(d, s, elders, a))
  }

  ghost function BatchSet(elders: set<Tx>): set<Tx> {
    set tx | tx in elders && tx.kind != Sequencer
  }

  ghost predicate Confirmable(p: Pool, s: Tx) {
    var p1 := Enlist(p, Envelope(s, Queue, 1));
    GoodSeq(p.ledger, s) && AllKnown(p1, s) && BatchOk(p.ledger, s, Elders(p1, s))
  }

  predicate Survives(env: Envelope, gone: set<Hash>) {
    env.tx.hash !in gone && env.tx.kind != Sequencer && env.judgeNum < REJUDGE_THRESHOLD
  }

  /** The envelopes that are judged again after a confirmation, in pool order. */
  function Survivors(o: seq<Hash>, envs: map<Hash, Envelope>, gone: set<Hash>): seq<Envelope> {
    if o == [] then []
    else
      var front, h := Survivors(o[..|o| - 1], envs, gone), o[|o| - 1];
      if h in envs && Survives(envs[h], gone)
      then front + [envs[h].(status := Queue, judgeNum := envs[h].judgeNum + 1)]
      else front
  }

  ghost function Rejudge(p: Pool, es: seq<Envelope>): Pool {
    if es == [] then p else Admit(Rejudge(p, es[..|es| - 1]), es[|es| - 1])
  }

  function Cleared(d: Ledger): Pool {
    Pool([], map[], map[], map[], map[], map[], d)
  }

  function AddSeq(p: Pool, s: Tx): Pool {
    var q := AddToFlows(Enlist(p, Envelope(s, Tip, 1)), s);
    q.(tips := q.tips[s.hash := s])
  }

  ghost function Confirmed(p: Pool, s: Tx, batch: seq<Tx>): Pool {
    AddSeq(Rejudge(Cleared(Pushed(p.ledger, s, batch)), Survivors(p.order, p.envs, HashesOf(batch))), s)
  }

  // ---- one turn of the pool loop ----

  datatype Event =
    | TxArrives(tx: Tx)
    | SeqArrives(s: Tx, batch: seq<Tx>)  // `batch`: the order in which its elders are pushed

  ghost predicate ValidEvent(p: Pool, e: Event) {
    match e
    case TxArrives(tx) => tx.kind != Sequencer && tx.hash !in tx.parents
    case SeqArrives(s, batch) =>
      && s.kind == Sequencer
      && (s.hash !in p.envs && Confirmable(p, s) ==>
            Lists(batch, BatchSet(Elders(Enlist(p, Envelope(s, Queue, 1)), s))))
  }

  ghost function Step(p: Pool, e: Event): Pool {
    match e
    case TxArrives(tx) => Admit(p, Envelope(tx, Queue, 1))
    case SeqArrives(s, batch) =>
      if s.hash !in p.envs && Confirmable(p, s) then Confirmed(p, s, batch) else p
  }

  ghost predicate ValidRun(p: Pool, es: seq<Event>)
    decreases |es|
  {
    es != [] ==> ValidEvent(p, es[0]) && ValidRun(Step(p, es[0]), es[1..])
  }

  ghost function After(p: Pool, es: seq<Event>): Pool
    decreases |es|
  {
    if es == [] then p else After(Step(p, es[0]), es[1..])
  }

  function Initial(d: Ledger, genesis: Tx): Pool {
    Pool([genesis.hash], map[genesis.hash := Envelope(genesis, Tip, 1)], map[genesis.hash := genesis],
         map[], map[], map[], d)
  }
}
