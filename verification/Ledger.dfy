/** The confirmed ledger: stored transactions, balances and nonces. */
module Ledgers {
  import opened Types

  datatype Ledger = Ledger(
    txs: map<Hash, Tx>,
    byNonce: map<(Address, nat), Hash>,
    balances: map<(Address, Token), int>,
    nonces: map<Address, nat>,
    height: nat)
  {
    function Balance(a: Address, t: Token): int {
      if (a, t) in balances then balances[(a, t)] else 0
    }

    function LatestNonce(a: Address): nat {
      if a in nonces then nonces[a] else 0
    }

    /** The (sender, nonce) index leads to a stored transaction. */
    predicate HasNonce(a: Address, n: nat) {
      (a, n) in byNonce && byNonce[(a, n)] in txs
    }
  }

  /** Subtracting from an account that holds no entry for the token records zero. */
  function Debit(b: map<(Address, Token), int>, k: (Address, Token), v: nat): map<(Address, Token), int> {
    b[k := if k in b then b[k] - v else 0]
  }

  function Credit(b: map<(Address, Token), int>, k: (Address, Token), v: nat): map<(Address, Token), int> {
    b[k := if k in b then b[k] + v else v]
  }

  predicate MovesValue(tx: Tx) {
    tx.kind == Normal && tx.value != 0 && tx.to != EMPTY_ADDRESS
  }

  function Transfer(d: Ledger, tx: Tx): Ledger {
    if MovesValue(tx) then
      d.(balances := Credit(Debit(d.balances, (tx.sender, tx.token), tx.value), (tx.to, tx.token), tx.value))
    else d
  }

  function Process(d: Ledger, tx: Tx): Ledger {
    if tx.kind == Archive then d
    else if tx.sender !in d.nonces || tx.nonce > d.LatestNonce(tx.sender)
      then Transfer(d.(nonces := d.nonces[tx.sender := tx.nonce]), tx)
    else Transfer(d, tx)
  }

  function ProcessAll(d: Ledger, txs: seq<Tx>): Ledger {
    if txs == [] then d else Process(ProcessAll(d, txs[..|txs| - 1]), txs[|txs| - 1])
  }

  function Store(d: Ledger, tx: Tx): Ledger {
    if tx.kind == Archive then d.(txs := d.txs[tx.hash := tx])
    else d.(txs := d.txs[tx.hash := tx], byNonce := d.byNonce[(tx.sender, tx.nonce) := tx.hash])
  }

  function StoreAll(d: Ledger, txs: seq<Tx>): Ledger {
    if txs == [] then d else Store(StoreAll(d, txs[..|txs| - 1]), txs[|txs| - 1])
  }

  function HashesOf(txs: seq<Tx>): set<Hash> {
    set tx | tx in txs :: tx.hash
  }

  /** What a successful push makes of the ledger. */
  function Pushed(d: Ledger, s: Tx, txs: seq<Tx>): Ledger {
    Process(Store(StoreAll(ProcessAll(d, txs), txs), s), s).(height := s.height)
  }

  /** The ledger that holds the genesis only. */
  function AtGenesis(genesis: Tx, balances: map<(Address, Token), int>): Ledger {
    Store(Ledger(map[], map[], balances, map[], 0), genesis)
  }

  /** The ledger as an object; `Push` works through the batch transaction by transaction. */
  class Dag {
    var txs: map<Hash, Tx>
    var byNonce: map<(Address, nat), Hash>
    var balances: map<(Address, Token), int>
    var nonces: map<Address, nat>
    var height: nat

    function View(): Ledger
      reads this
    {
      Ledger(txs, byNonce, balances, nonces, height)
    }

    constructor (genesis: Tx, genesisBalances: map<(Address, Token), int>)
      ensures View() == AtGenesis(genesis, genesisBalances)
      ensures txs == map[genesis.hash := genesis] && balances == genesisBalances && nonces == map[] && height == 0
      ensures genesis.kind != Archive ==> byNonce == map[(genesis.sender, genesis.nonce) := genesis.hash]
    {
      txs := map[genesis.hash := genesis];
      byNonce := if genesis.kind == Archive then map[] else map[(genesis.sender, genesis.nonce) := genesis.hash];
      balances, nonces, height := genesisBalances, map[], 0;
    }

    method ProcessTransaction(tx: Tx)
      modifies this`balances, this`nonces
      ensures View() == Process(old(View()), tx)
      ensures nonces == if tx.kind == Archive then old(nonces)
        else old(nonces)[tx.sender := Max(if tx.sender in old(nonces) then old(nonces)[tx.sender] else 0, tx.nonce)]
      ensures tx.kind != Normal || tx.to == EMPTY_ADDRESS ==> balances == old(balances)
    {
      if tx.kind == Archive {
        return;
      }
      var current := if tx.sender in nonces then nonces[tx.sender] else 0;
      if tx.sender !in nonces || tx.nonce > current {
        nonces := nonces[tx.sender := tx.nonce];
      } else {
        assert nonces == nonces[tx.sender := current];
      }
      if tx.kind != Normal {
        return;
      }
      if tx.value != 0 && tx.to != EMPTY_ADDRESS {
        balances := Debit(balances, (tx.sender, tx.token), tx.value);
        balances := Credit(balances, (tx.to, tx.token), tx.value);
      }
    }

    method WriteTransaction(tx: Tx)
      modifies this`txs, this`byNonce
      ensures View() == Store(old(View()), tx) && txs == old(txs)[tx.hash := tx]
      ensures byNonce == if tx.kind == Archive then old(byNonce) else old(byNonce)[(tx.sender, tx.nonce) := tx.hash]
    {
      if tx.kind != Archive {
        byNonce := byNonce[(tx.sender, tx.nonce) := tx.hash];
      }
      txs := txs[tx.hash := tx];
    }

    /** A height mismatch refuses the batch and changes nothing. */
    method Push(s: Tx, batch: seq<Tx>) returns (ok: bool)
      modifies this
      ensures ok == (old(height) + 1 == s.height)
      ensures height == if ok then s.height else old(height)
      ensures View() == if ok then Pushed(old(View()), s, batch) else old(View())
    {
      ok := height + 1 == s.height;
      if !ok {
        return;
      }
      ghost var d0 := View();
      var i := 0;
      while i < |batch|
        invariant 0 <= i <= |batch|
        invariant View() == ProcessAll(d0, batch[..i])
      {
        assert batch[..i + 1][..i] == batch[..i];
        ProcessTransaction(batch[i]);
        i := i + 1;
      }
      assert batch[..i] == batch;
      ghost var d1 := View();
      i := 0;
      while i < |batch|
        invariant 0 <= i <= |batch|
        invariant View() == StoreAll(d1, batch[..i])
      {
        assert batch[..i + 1][..i] == batch[..i];
        WriteTransaction(batch[i]);
        i := i + 1;
      }
      assert batch[..i] == batch;
      WriteTransaction(s);
      ProcessTransaction(s);
      height := s.height;
    }
  }
}

/** What confirming a batch does to balances, nonces and the stored transactions. */
module LedgerProofs {
  import opened Types
  import opened Sums
  import opened Ledgers

  /** The value a transaction takes out of an account, whatever its receiver. */
  ghost function Spend(a: Address, t: Token): Tx -> int {
    (tx: Tx) => if tx.kind == Normal && tx.sender == a && tx.token == t then tx.value else 0
  }

  /** What a transaction takes out of an account: the value of a transfer that has a receiver. */
  ghost function Out(a: Address, t: Token): Tx -> int {
    (tx: Tx) =>
      if tx.kind == Normal && tx.to != EMPTY_ADDRESS && tx.sender == a && tx.token == t then tx.value else 0
  }

  ghost function In(a: Address, t: Token): Tx -> int {
    (tx: Tx) => if tx.kind == Normal && tx.to != EMPTY_ADDRESS && tx.to == a && tx.token == t then tx.value else 0
  }

  // ---- one transaction ----

  /** A transfer takes its value from the sender and gives it to the receiver; nothing else moves value. */
  lemma ProcessMoves(d: Ledger, tx: Tx)
    ensures var b, b', k, k' := d.balances, Process(d, tx).balances, (tx.sender, tx.token), (tx.to, tx.token);
      if tx.kind != Normal || tx.to == EMPTY_ADDRESS || tx.value == 0 then b' == b
      else if tx.to == tx.sender then b' == b[k := if k in b then b[k] else tx.value]
      else b' == b[k := if k in b then b[k] - tx.value else 0][k' := (if k' in b then b[k'] else 0) + tx.value]
  {
  }

  /** The nonce of a sender never falls; archives do not count. */
  lemma ProcessCounts(d: Ledger, tx: Tx)
    ensures var r := Process(d, tx);
      && r.txs == d.txs && r.byNonce == d.byNonce && r.height == d.height
      && r.nonces == if tx.kind == Archive then d.nonces
        else d.nonces[tx.sender := Max(if tx.sender in d.nonces then d.nonces[tx.sender] else 0, tx.nonce)]
  {
    if tx.kind != Archive && tx.sender in d.nonces && tx.nonce <= d.nonces[tx.sender] {
      assert d.nonces[tx.sender := d.nonces[tx.sender]] == d.nonces;
    }
  }

  ghost predicate Covered(d: Ledger, s: set<Tx>, tx: Tx) {
    tx.kind == Normal ==> Sum(s, Spend(tx.sender, tx.token)) <= d.Balance(tx.sender, tx.token)
  }

  /** Every sender's total spending in the batch is covered by its confirmed balance. */
  ghost predicate Affordable(d: Ledger, s: set<Tx>) {
    forall tx {:trigger Covered(d, s, tx)} :: tx in s ==> Covered(d, s, tx)
  }

  lemma ElemsSnoc<T>(s: seq<T>, i: nat)
    requires i < |s| && NoDup(s)
    ensures s[..i + 1][..i] == s[..i]
    ensures s[i] !in Elems(s[..i]) && Elems(s[..i + 1]) == Elems(s[..i]) + {s[i]}
    ensures Elems(s[..i + 1]) <= Elems(s)
  {
    assert s[..i + 1] == s[..i] + [s[i]];
  }

  /** Outgoing value actually moved never exceeds what the batch check counted. */
  lemma {:induction false} OutWithinSpend(s: set<Tx>, a: Address, t: Token)
    ensures 0 <= Sum(s, Out(a, t)) <= Sum(s, Spend(a, t))
    ensures Sum(s, In(a, t)) >= 0
    decreases |s|
  {
    if s != {} {
      OutWithinSpend(s - {Pick(s)}, a, t);
      SumRemove(s, Spend(a, t), Pick(s));
      SumRemove(s, In(a, t), Pick(s));
    }
  }

  lemma ProcessBalance(d: Ledger, tx: Tx, a: Address, t: Token)
    requires MovesValue(tx) ==> (tx.sender, tx.token) in d.balances
    ensures Process(d, tx).Balance(a, t) == d.Balance(a, t) - Out(a, t)(tx) + In(a, t)(tx)
  {
  }

  lemma ProcessNext(d: Ledger, txs: seq<Tx>, i: nat)
    requires i < |txs|
    ensures ProcessAll(d, txs[..i + 1]) == Process(ProcessAll(d, txs[..i]), txs[i])
  {
    hide Process;
    assert txs[..i + 1][..i] == txs[..i];
  }

  lemma TotalsNext(txs: seq<Tx>, i: nat, a: Address, t: Token)
    requires i < |txs| && NoDup(txs)
    ensures Sum(Elems(txs[..i + 1]), Out(a, t)) == Sum(Elems(txs[..i]), Out(a, t)) + Out(a, t)(txs[i])
    ensures Sum(Elems(txs[..i + 1]), In(a, t)) == Sum(Elems(txs[..i]), In(a, t)) + In(a, t)(txs[i])
  {
    hide Elems, Sum;
    ElemsSnoc(txs, i);
    SumAdd(Elems(txs[..i]), Out(a, t), txs[i]);
    SumAdd(Elems(txs[..i]), In(a, t), txs[i]);
  }

  lemma NothingMoved(d: Ledger, txs: seq<Tx>, a: Address, t: Token)
    ensures ProcessAll(d, txs[..0]) == d
    ensures Sum(Elems(txs[..0]), Out(a, t)) == 0 && Sum(Elems(txs[..0]), In(a, t)) == 0
  {
    assert txs[..0] == [] && Elems(txs[..0]) == {};
  }

  /** After any prefix, every balance is its start minus what left plus what arrived. */
  lemma {:induction false} PrefixBalance(d: Ledger, txs: seq<Tx>, i: nat, a: Address, t: Token)
    requires NoDup(txs) && Affordable(d, Elems(txs)) && i <= |txs|
    ensures ProcessAll(d, txs[..i]).Balance(a, t)
         == d.Balance(a, t) - Sum(Elems(txs[..i]), Out(a, t)) + Sum(Elems(txs[..i]), In(a, t))
    decreases i
  {
    hide Process, ProcessAll, Elems, Sum, Affordable, NoDup, Out, In;
    if i == 0 {
      NothingMoved(d, txs, a, t);
    } else {
      var tx := txs[i - 1];
      PrefixBalance(d, txs, i - 1, a, t);
      ProcessNext(d, txs, i - 1);
      TotalsNext(txs, i - 1, a, t);
      if MovesValue(tx) {
        PrefixBalance(d, txs, i - 1, tx.sender, tx.token);
        CoversNext(d, txs, i - 1);
      }
      ProcessBalance(ProcessAll(d, txs[..i - 1]), tx, a, t);
    }
  }

  /** The sender of the next transaction still holds its value, so no subtraction overdraws. */
  lemma CoversNext(d: Ledger, txs: seq<Tx>, i: nat)
    requires NoDup(txs) && Affordable(d, Elems(txs)) && i < |txs| && MovesValue(txs[i])
    requires var (a, t) := (txs[i].sender, txs[i].token);
      ProcessAll(d, txs[..i]).Balance(a, t)
        == d.Balance(a, t) - Sum(Elems(txs[..i]), Out(a, t)) + Sum(Elems(txs[..i]), In(a, t))
    ensures (txs[i].sender, txs[i].token) in ProcessAll(d, txs[..i]).balances
    ensures ProcessAll(d, txs[..i]).Balance(txs[i].sender, txs[i].token) >= txs[i].value
  {
    var tx := txs[i];
    var (a, t) := (tx.sender, tx.token);
    ElemsSnoc(txs, i);
    OutWithinSpend(Elems(txs[..i]), a, t);
    SumAdd(Elems(txs[..i]), Spend(a, t), tx);
    SumSubset(Elems(txs[..i + 1]), Elems(txs), Spend(a, t));
    assert Covered(d, Elems(txs), tx);
  }

  /** Main result: in an affordable batch no sender is ever overdrawn, whatever the order. */
  lemma NeverOverdraws(d: Ledger, txs: seq<Tx>, i: nat)
    requires NoDup(txs) && Affordable(d, Elems(txs)) && i < |txs| && MovesValue(txs[i])
    ensures (txs[i].sender, txs[i].token) in ProcessAll(d, txs[..i]).balances
    ensures ProcessAll(d, txs[..i]).Balance(txs[i].sender, txs[i].token) >= txs[i].value
  {
    PrefixBalance(d, txs, i, txs[i].sender, txs[i].token);
    CoversNext(d, txs, i);
  }

  /** Main result: the final balances depend on the set of transactions only, not on their order. */
  lemma FinalBalances(d: Ledger, s: set<Tx>, txs: seq<Tx>, txs': seq<Tx>, a: Address, t: Token)
    requires Lists(txs, s) && Lists(txs', s) && Affordable(d, s)
    ensures ProcessAll(d, txs).Balance(a, t) == d.Balance(a, t) - Sum(s, Out(a, t)) + Sum(s, In(a, t))
    ensures ProcessAll(d, txs).Balance(a, t) == ProcessAll(d, txs').Balance(a, t)
  {
    assert txs[..|txs|] == txs && txs'[..|txs'|] == txs';
    PrefixBalance(d, txs, |txs|, a, t);
    PrefixBalance(d, txs', |txs'|, a, t);
  }

  ghost function Holders(b: map<(Address, Token), int>, t: Token): set<(Address, Token)> {
    set k | k in b && k.1 == t
  }

  ghost function Holding(b: map<(Address, Token), int>): ((Address, Token)) -> int {
    (k: (Address, Token)) => if k in b then b[k] else 0
  }

  /** How much of a token all accounts hold together. */
  ghost function Supply(b: map<(Address, Token), int>, t: Token): int {
    Sum(Holders(b, t), Holding(b))
  }

  lemma SupplyUpdate(b: map<(Address, Token), int>, k: (Address, Token), v: int, t: Token)
    ensures Supply(b[k := v], t) == Supply(b, t) + if k.1 == t then v - Holding(b)(k) else 0
  {
    var b' := b[k := v];
    var rest := Holders(b, t) - {k};
    SumEq(rest, Holding(b), Holding(b'));
    if k.1 == t {
      assert Holders(b', t) == rest + {k};
      SumAdd(rest, Holding(b'), k);
      if k in b {
        SumRemove(Holders(b, t), Holding(b), k);
      } else {
        assert rest == Holders(b, t);
      }
    } else {
      assert rest == Holders(b, t) == Holders(b', t);
    }
  }

  lemma ProcessConserves(d: Ledger, tx: Tx, t: Token)
    requires MovesValue(tx) ==> (tx.sender, tx.token) in d.balances
    ensures Supply(Process(d, tx).balances, t) == Supply(d.balances, t)
  {
    if MovesValue(tx) {
      var k, k' := (tx.sender, tx.token), (tx.to, tx.token);
      var b := Debit(d.balances, k, tx.value);
      SupplyUpdate(d.balances, k, b[k], t);
      SupplyUpdate(b, k', Credit(b, k', tx.value)[k'], t);
      assert Process(d, tx).balances == Credit(b, k', tx.value);
    }
  }

  /** Main result: an affordable batch conserves the supply of every token. */
  lemma {:induction false} BatchConserves(d: Ledger, txs: seq<Tx>, i: nat, t: Token)
    requires NoDup(txs) && Affordable(d, Elems(txs)) && i <= |txs|
    ensures Supply(ProcessAll(d, txs[..i]).balances, t) == Supply(d.balances, t)
    decreases i
  {
    if i > 0 {
      BatchConserves(d, txs, i - 1, t);
      if MovesValue(txs[i - 1]) {
        NeverOverdraws(d, txs, i - 1);
      }
      ProcessConserves(ProcessAll(d, txs[..i - 1]), txs[i - 1], t);
      assert txs[..i][..i - 1] == txs[..i - 1];
    }
  }

  /** The nonces a sender uses in a set of transactions; archives carry none. */
  ghost function NoncesOf(s: set<Tx>, a: Address): set<nat> {
    set tx | tx in s && tx.kind != Archive && tx.kind != Sequencer && tx.sender == a :: tx.nonce
  }

  /** The set holds exactly the numbers that follow `low`, without a gap. */
  ghost predicate IsRun(s: set<nat>, low: nat) {
    forall n: nat :: n in s <==> low < n <= low + |s|
  }

  lemma {:induction false} PrefixNonce(d: Ledger, txs: seq<Tx>, i: nat, a: Address)
    requires i <= |txs|
    ensures var n := ProcessAll(d, txs[..i]).LatestNonce(a);
      && n >= d.LatestNonce(a)
      && (n == d.LatestNonce(a)
          || exists j :: 0 <= j < i && txs[j].kind != Archive && txs[j].sender == a && txs[j].nonce == n)
      && forall j :: 0 <= j < i && txs[j].kind != Archive && txs[j].sender == a ==> txs[j].nonce <= n
    decreases i
  {
    if i > 0 {
      assert txs[..i][..i - 1] == txs[..i - 1];
      PrefixNonce(d, txs, i - 1, a);
    }
  }

  /** Main result: a run of fresh nonces moves the sender's confirmed nonce up by its length. */
  lemma NonceAfterBatch(d: Ledger, txs: seq<Tx>, a: Address)
    requires forall tx :: tx in txs ==> tx.kind != Sequencer
    requires IsRun(NoncesOf(Elems(txs), a), d.LatestNonce(a))
    ensures ProcessAll(d, txs).LatestNonce(a) == d.LatestNonce(a) + |NoncesOf(Elems(txs), a)|
  {
    assert txs[..|txs|] == txs;
    PrefixNonce(d, txs, |txs|, a);
    var low, n, ns := d.LatestNonce(a), ProcessAll(d, txs).LatestNonce(a), NoncesOf(Elems(txs), a);
    if n != low {
      var j :| 0 <= j < |txs| && txs[j].kind != Archive && txs[j].sender == a && txs[j].nonce == n;
      assert txs[j] in Elems(txs) && n in ns;
    }
    if |ns| > 0 {
      assert low + |ns| in ns;
      var tx :| tx in Elems(txs) && tx.kind != Archive && tx.kind != Sequencer && tx.sender == a
        && tx.nonce == low + |ns|;
    }
  }

  /** The entry under `h` was there before, or belongs to the batch and sits under its own hash. */
  ghost predicate StoredFrom(before: map<Hash, Tx>, txs: seq<Tx>, h: Hash, tx: Tx) {
    (h in before && tx == before[h]) || (tx in txs && tx.hash == h)
  }

  /** Storing a batch adds exactly its hashes. */
  lemma {:induction false} StoredAt(d: Ledger, txs: seq<Tx>, h: Hash)
    ensures h in StoreAll(d, txs).txs <==> h in d.txs || h in HashesOf(txs)
    ensures h in StoreAll(d, txs).txs ==> StoredFrom(d.txs, txs, h, StoreAll(d, txs).txs[h])
  {
    if txs != [] {
      var front, last := txs[..|txs| - 1], txs[|txs| - 1];
      StoredAt(d, front, h);
      HashesSnoc(front, last);
      assert txs == front + [last];
    }
  }

  lemma HashesSnoc(txs: seq<Tx>, tx: Tx)
    ensures HashesOf(txs + [tx]) == HashesOf(txs) + {tx.hash}
  {
    forall h | h in HashesOf(txs) ensures h in HashesOf(txs + [tx]) {
      var x :| x in txs && x.hash == h;
      assert x in txs + [tx];
    }
    assert tx in txs + [tx];
  }

  lemma {:induction false} ProcessAllKeepsTxs(d: Ledger, txs: seq<Tx>)
    ensures ProcessAll(d, txs).txs == d.txs && ProcessAll(d, txs).byNonce == d.byNonce
  {
    if txs != [] {
      ProcessAllKeepsTxs(d, txs[..|txs| - 1]);
    }
  }

  lemma {:induction false} StoreAllKeepsState(d: Ledger, txs: seq<Tx>)
    ensures StoreAll(d, txs).balances == d.balances && StoreAll(d, txs).nonces == d.nonces
  {
    if txs != [] {
      StoreAllKeepsState(d, txs[..|txs| - 1]);
    }
  }

  /** Every stored transaction that carries a nonce is found by its sender and nonce, or another one is. */
  ghost predicate Indexed(d: Ledger) {
    forall h :: h in d.txs && d.txs[h].kind != Archive ==> d.HasNonce(d.txs[h].sender, d.txs[h].nonce)
  }

  lemma StoreIndexed(d: Ledger, tx: Tx)
    requires Indexed(d)
    ensures Indexed(Store(d, tx))
  {
  }

  lemma {:induction false} StoreAllIndexed(d: Ledger, txs: seq<Tx>)
    requires Indexed(d)
    ensures Indexed(StoreAll(d, txs))
  {
    if txs != [] {
      StoreAllIndexed(d, txs[..|txs| - 1]);
      StoreIndexed(StoreAll(d, txs[..|txs| - 1]), txs[|txs| - 1]);
    }
  }

  /** A push keeps the index complete. */
  lemma PushIndexed(d: Ledger, s: Tx, txs: seq<Tx>)
    requires Indexed(d)
    ensures Indexed(Pushed(d, s, txs))
  {
    hide StoreAll, ProcessAll, Store;
    ProcessAllKeepsTxs(d, txs);
    StoreAllIndexed(ProcessAll(d, txs), txs);
    StoreIndexed(StoreAll(ProcessAll(d, txs), txs), s);
  }

  lemma PushedAt(d: Ledger, s: Tx, txs: seq<Tx>, h: Hash)
    ensures h in Pushed(d, s, txs).txs <==> h in d.txs || h in HashesOf(txs) || h == s.hash
    ensures h == s.hash ==> Pushed(d, s, txs).txs[h] == s
    ensures h in Pushed(d, s, txs).txs && h != s.hash ==> StoredFrom(d.txs, txs, h, Pushed(d, s, txs).txs[h])
  {
    ProcessAllKeepsTxs(d, txs);
    StoredAt(ProcessAll(d, txs), txs, h);
  }

  /** What a push leaves of the sequencer. */
  lemma PushedSequencer(d: Ledger, s: Tx, txs: seq<Tx>)
    requires s.kind == Sequencer
    ensures var r := Pushed(d, s, txs);
      && r.height == s.height && r.balances == ProcessAll(d, txs).balances
      && s.hash in r.txs && r.txs[s.hash] == s
      && (s.sender, s.nonce) in r.byNonce && r.byNonce[(s.sender, s.nonce)] == s.hash
      && s.sender in r.nonces && s.nonce <= r.nonces[s.sender]
  {
    StoreAllKeepsState(ProcessAll(d, txs), txs);
    hide StoreAll, ProcessAll;
  }

  // ---- which entries a batch touches ----

  /** No two transactions of the batch share a hash. */
  ghost predicate OneEach(batch: seq<Tx>) {
    forall tx, tx' :: tx in batch && tx' in batch && tx.hash == tx'.hash ==> tx == tx'
  }

  lemma StoredInBatch(d: Ledger, s: Tx, batch: seq<Tx>, tx: Tx)
    requires tx in batch && tx.hash != s.hash
    requires forall tx' :: tx' in batch && tx.hash == tx'.hash ==> tx == tx'
    ensures tx.hash in Pushed(d, s, batch).txs && Pushed(d, s, batch).txs[tx.hash] == tx
  {
    PushedAt(d, s, batch, tx.hash);
    StoredLast(ProcessAll(d, batch), batch, tx);
  }

  lemma {:induction false} StoredLast(d: Ledger, batch: seq<Tx>, tx: Tx)
    requires tx in batch && forall tx' :: tx' in batch && tx.hash == tx'.hash ==> tx == tx'
    ensures tx.hash in StoreAll(d, batch).txs && StoreAll(d, batch).txs[tx.hash] == tx
  {
    var front, last := batch[..|batch| - 1], batch[|batch| - 1];
    assert last in batch;
    if last != tx {
      assert tx in front;
      StoredLast(d, front, tx);
    }
  }

  ghost predicate Touches(tx: Tx, k: (Address, Token)) {
    MovesValue(tx) && tx.token == k.1 && (tx.sender == k.0 || tx.to == k.0)
  }

  lemma BalanceKey(d: Ledger, tx: Tx, k: (Address, Token))
    ensures k in Process(d, tx).balances <==> k in d.balances || Touches(tx, k)
  {
    assert k == (k.0, k.1);
  }

  lemma {:induction false} BalanceKeys(d: Ledger, txs: seq<Tx>, k: (Address, Token))
    ensures k in ProcessAll(d, txs).balances <==> k in d.balances || exists tx :: tx in txs && Touches(tx, k)
  {
    if txs != [] {
      var front, last := txs[..|txs| - 1], txs[|txs| - 1];
      BalanceKeys(d, front, k);
      assert forall tx :: tx in txs <==> tx in front || tx == last;
      BalanceKey(ProcessAll(d, front), last, k);
    }
  }

  lemma {:induction false} NonceKeys(d: Ledger, txs: seq<Tx>, a: Address)
    ensures a in ProcessAll(d, txs).nonces <==>
      a in d.nonces || exists tx :: tx in txs && tx.kind != Archive && tx.sender == a
  {
    if txs != [] {
      var front, last := txs[..|txs| - 1], txs[|txs| - 1];
      NonceKeys(d, front, a);
      assert forall tx :: tx in txs <==> tx in front || tx == last;
    }
  }

  lemma SameKeys(d: Ledger, txs: seq<Tx>, txs': seq<Tx>)
    requires Elems(txs) == Elems(txs')
    ensures ProcessAll(d, txs).balances.Keys == ProcessAll(d, txs').balances.Keys
    ensures ProcessAll(d, txs).nonces.Keys == ProcessAll(d, txs').nonces.Keys
  {
    hide ProcessAll;
    forall tx ensures tx in txs <==> tx in txs' {
      assert tx in Elems(txs) <==> tx in Elems(txs');
    }
    forall k ensures k in ProcessAll(d, txs).balances <==> k in ProcessAll(d, txs').balances {
      BalanceKeys(d, txs, k);
      BalanceKeys(d, txs', k);
    }
    forall a ensures a in ProcessAll(d, txs).nonces <==> a in ProcessAll(d, txs').nonces {
      NonceKeys(d, txs, a);
      NonceKeys(d, txs', a);
    }
  }

  /** Every parent of a confirmed transaction is confirmed. */
  ghost predicate ClosedUnderParents(d: Ledger) {
    forall h, q :: h in d.txs && q in d.txs[h].parents ==> q in d.txs
  }
}
