# Annchain.OG, modelled and proved in Dafny

OG is a ledger whose transactions form a graph: every transaction names parents, and a *sequencer*
confirms everything it builds on. This project models the parts of the node in which many structures have to
agree, and proves what they promise over whole runs.

* **Transaction pool and ledger** (`Types`, `Ledger`, `AccountFlow`, `AccountFlowObject`, `TxPool*`, `BatchCheck`). `Pools` says as a
  value what one arrival or confirmation makes of the pool. `PoolInvariant` and `PoolRuns` prove the invariant of every run,
  `PoolTheorems`, `PoolTips` and `PoolNonces` what follows for every reachable state, `PoolOutcomes` exactly what each arrival and
  confirmation leads to, and `PoolWitnesses` runs that show the limits.
  `PoolObject` is the imperative pool, proved to do exactly these steps; it holds the account flows of `FlowObjects`, whose lists
  are the nonce heaps of `TxLists`.
* **Trie write cache** (`TrieNodes`, `FlushList`, `TrieCache`, `TrieReach`, `TrieFlush`, `TrieDatabase`, `Store`). Reference counts,
  cascading collection, a doubly linked flush-list threaded through a map, a size cap and a two-phase commit.
* **Orphan buffer and ancestor searches** (`TxBuffer`, `TxBufferObject`, `Ancestors`, `Common`).
* **Peer-to-peer layer** (`Capabilities`, `Dial`, `Server`). Message-code allocation follows "Capability Messaging"
  of the RLPx Transport Protocol specification.
* **Keys** (`KeyLayout`, `HexPrefix`). The compact key form is the hex-prefix encoding of Appendix C of the Ethereum Yellow Paper.

`dafny verify dfyconfig.toml` checks everything.

## Assumptions

* Numbers are unbounded. Nonces are taken to stay below 2^64 - 1, values to be non-negative. Message codes and offsets wrap at
  2^16, and `Pred` in `Ancestors` wraps at 2^64, as in the code.
* A hash names one transaction, and no transaction is its own parent. The child relation of trie nodes is acyclic; `rank` witnesses
  it. `PoolTips.AcceptTipsIff` also takes no parent of an arrival to name it. Nothing else is assumed about hashes.
* Runs start from any ledger that is closed under parents and has no negative balance, `PoolTips.TipsOfRun` from one whose index by
  sender and nonce covers what is stored. `PoolNonces.StartOk` shows all of this for the genesis.
* Arrivals reach the pool through its loop only, one at a time; locks, channels and notifications are not modelled.
* The confirmed state is a map from address and token to a balance, and one from address to a nonce. Sorting a batch is taken
  as an arbitrary permutation, and map iteration as an arbitrary order.
* `Dereference` is called on recorded references only, and `Commit` not on the meta-root.
* In the orphan buffer verifiers accept, adding to the pool succeeds, cache entries do not expire, and nothing else
  changes what is local.
* In the server loop, a connection with the dynamic flag comes from a dial that is still running, as the comment at
  p2p/server.go:783-785 demands, and a peer is reported gone once.

## Where the code does less than one would expect

* `insert` works only while the flush-list is empty or its newest node is cached, because no deletion moves `newest` back.
  `TrieCache.GuardAfterDelete` gives the exact condition for one deletion, `Database.Dereference` and `Database.Commit` for whole
  calls, and `TrieDatabase.NewestLost` a reachable state without it.
* Tips are not always the good transactions without a good child. `PoolWitnesses.TipsLostByArchive` is a run in which a confirmed
  archive arrives again; `PoolWitnesses.NonceUsedTwice` one in which a bad transaction names the sequencer before it arrives and is
  rejudged as good after it. `PoolTips.AcceptTipsIff` and `PoolTips.ConfirmTips` say exactly when a step keeps the tips exact, and
  `PoolTips.RunTips` that nothing but these two kinds of arrival can spoil them.
* Two different transactions of one sender and nonce may both be elders, one of them bad, since `seekElders` does not look at their status and a
  repeated nonce is dropped silently: `PoolWitnesses.NonceUsedTwice`. Nonce runs of a batch are therefore stated about nonce sets; `PoolNonces.PushNonceOnce` says exactly
  when a push uses each nonce once, `PoolNonces.RunOnceIff` exactly when a run does, and `PoolNonces.GoodRunDistinct` that confirming good
  elders only is enough.
* `getProto` misses codes once allocated ranges reach 2^16: exactly then by `Capabilities.CodesFit`, and `Capabilities.CodesMissed` is an allocation.
* `hexToCompact(compactToHex(c))` changes exactly the non-canonical keys (`HexPrefix.CompactExpand`), such as [1] (`HexPrefix.NibbleLost`).
* A put order matters exactly when two puts to one key differ: `Stores.AnyOrderIff`.
* The comment above `getMyPreviousTx` (og/verifier.go:284-285) speaks of the ledger, too; the code looks a predecessor up there by nonce in archive
  mode only, and otherwise follows parents. The model does as the code does; `Ancestors.PredecessorMissed` is an input it misses.
* `Putter.Write` looks for errors before it waits, and through a copy of the putter, so it reports success although a put it waits for
  fails. Puts are lost exactly then (`KeyLayout.Putter.Write`, `KeyLayout.LostPut`). This concerns only a batch whose `Put` can fail:
  `Put` of the batches here always succeeds (ogdb/memdb.go:108-112, ogdb/leveldb.go:391-395 and 458-460, ogdb/mongodb.go:167-171).

## Model

| member | source | states |
|---|---|---|
| `PoolInvariant.GoodVerdictIsAccepted` | core/tx_pool.go:619-701 | a Good verdict on a transaction that carries a nonce means that its flow takes it: the nonce is free and the spending fits the recorded origin balance |
| `PoolInvariant.JudgedParents` | core/tx_pool.go:619-636 | a Good verdict on the parents means that each is confirmed, or in the pool, and none in the pool is bad |
| `PoolInvariant.AcceptedAt` | core/tx_pool.go:565-602 | what an accepted arrival does to any other entry: tip sequencers among its parents leave, its other tip parents become pending, everything else stays |
| `PoolInvariant.AcceptKeepsBalances` | core/tx_pool.go:590-602 | recorded spending stays the true sum of tip and pending transfers, and within the confirmed balance, when a judged transaction is accepted |
| `PoolInvariant.AcceptKeepsFlows` | core/tx_pool.go:580-602 | flows hold exactly the good transactions that carry a nonce, and perhaps sequencers that have left the pool |
| `PoolInvariant.AcceptKeepsNonces` | core/tx_pool.go:655-677 | a flow without sequencers keeps counting up from the confirmed nonce without a gap |
| `PoolInvariant.AdmitKeeps` | core/tx_pool.go:547-609 | offering any non-sequencer (known, fatal, bad or good) keeps the whole invariant and leaves the ledger alone |
| `PoolRuns.PushKeepsLedger` | core/tx_pool.go:794-835 | the batch of an accepted sequencer leaves a ledger that is closed under parents, has no negative balance and stores the sequencer |
| `PoolRuns.ElderStored` | core/tx_pool.go:897-928 | whatever the sequencer reaches is confirmed after the push, and a pool transaction it reaches, unless it is a sequencer, is in the batch |
| `PoolRuns.RejudgeKeeps` | core/tx_pool.go:1052-1067 | judging the leftovers again, one after the other, keeps the invariant |
| `PoolRuns.AgainEntries` | core/tx_pool.go:1012-1067 | what is left after a confirmation was in the pool before, was not confirmed, and has been judged exactly once more, ten times at most |
| `PoolRuns.ConfirmKeeps` | core/tx_pool.go:794-835 | a whole confirmation (push, clear, rejudge, add the sequencer) keeps the invariant |
| `PoolRuns.StepKeeps` | core/tx_pool.go:449-506 | one turn of the loop keeps the invariant, whatever arrives |
| `PoolRuns.RunKeeps` | core/tx_pool.go:449-506 | every run of arrivals and confirmations keeps the invariant |
| `PoolRuns.InitialInv` | core/tx_pool.go:206-215 | the pool with just the genesis satisfies the invariant |
| `PoolTheorems.ReachableInv` | core/tx_pool.go:449-506 | every pool that a run from the genesis reaches satisfies the invariant |
| `PoolTheorems.OneBucketEach` | core/tx_pool.go:1257-1312 | in every reachable pool each lookup entry is in exactly one of tips, pendings and badtxs, the one its status names, and the order lists the lookup keys without repetition |
| `PoolTheorems.GoodParents` | core/tx_pool.go:619-636 | in every reachable pool each parent of a tip or pending transaction is confirmed, or earlier in the order and neither bad nor missing |
| `PoolTheorems.NoOvercommitment` | core/tx_pool.go:682-701 | in every reachable pool, for each address and token, tip and pending transfers sum to at most the confirmed balance |
| `PoolTheorems.GoodEldersAffordable` | core/tx_pool.go:983-992 | elders that are all tips or pendings never fail the balance check of their batch |
| `PoolTheorems.ConfirmedClosed` | core/tx_pool.go:897-928 | in every reachable state the confirmed transactions are closed under parents |
| `PoolTheorems.NoncesAfterPush` | core/dag.go:961-964 | after a checked batch, pushed in any order, every other sender is at its old nonce plus the number of its nonces in the batch, and an issuer with nonces in the batch one above that |
| `PoolTheorems.PushConserves` | core/dag.go:992-997 | a checked batch conserves the total of every token |
| `PoolTheorems.PushOrderIndependent` | core/dag.go:767-815 | balances, nonces, stored transactions and height, that of the sequencer, after a checked batch do not depend on the order in which it is pushed |
| `PoolTheorems.OneTxPerNonce` | core/tx_pool.go:641-651 | in every reachable pool two tip or pending transactions of one sender that are no sequencers never share a nonce |
| `PoolTheorems.NonceRun` | core/tx_pool.go:655-677 | in every reachable pool the tip and pending nonces of a sender whose flow holds no sequencer are confirmed+1 .. confirmed+k |
| `PoolTheorems.NonceRunOfRun` | core/tx_pool.go:655-677 | the same for every run and every sender that issues no sequencer in it |
| `PoolTheorems.JudgedOncePerConfirmation` | core/tx_pool.go:1052-1067 | whatever stays in the pool through a run has been judged once more for each confirmation in it; a sequencer stays through none |
| `PoolTheorems.LeavesBeforeTenth` | core/tx_pool.go:1052-1062 | no transaction stays in the pool through ten confirmations, and no sequencer through one |
| `PoolTips.GoodIsNew` | core/tx_pool.go:637-658 | a confirmed transaction that carries a nonce is never judged good again; only an archive is |
| `PoolTips.AcceptTipsIff` | core/tx_pool.go:565-602 | acceptance keeps "tips are the good transactions without a good child" exactly when no good pool transaction names the newcomer already |
| `PoolTips.NewcomerHasNoChild` | core/tx_pool.go:619-636 | an arrival that is neither in the pool nor confirmed is no parent of a good pool transaction |
| `PoolTips.NamedMeansBad` | core/tx_pool.go:619-636 | pool transactions that name a hash which is neither in the pool nor confirmed are exactly bad ones |
| `PoolTips.AdmitTips` | core/tx_pool.go:547-609 | offering any non-sequencer but a confirmed archive keeps tips exact, whatever the verdict |
| `PoolTips.ConfirmTips` | core/tx_pool.go:828-835 | a confirmation keeps tips exact exactly when nothing rejudged as good builds on the new sequencer, and certainly if no bad pool transaction names it before it arrives |
| `PoolTips.RunTips` | core/tx_pool.go:449-506 | over every run in which no confirmed archive arrives again, and no sequencer after a bad transaction that names it, tips stay exact |
| `PoolTips.TipsOfRun` | core/tx_pool.go:449-506 | from the genesis on, in every such run a good transaction is a tip exactly while no good transaction builds on it |
| `PoolWitnesses.TipsLostByArchive` | core/tx_pool.go:637-639 | archives a and b on it, a sequencer that confirms a, a again: a run from the genesis after which tips are not exact |
| `PoolNonces.NeverReused` | core/tx_pool.go:1070-1095 | neither a checked batch nor the sequencer itself uses a nonce of a sender that an earlier confirmation, of a transaction or of a sequencer, has used |
| `PoolNonces.ConfirmedOnce` | core/tx_pool.go:794-835 | what is confirmed and carries a nonce, sequencer included, is never confirmed again, nothing stored before has its sender and nonce, and no transaction of the batch has those of the sequencer |
| `PoolNonces.PushNonceOnce` | core/dag.go:794-815 | after a push no two stored transactions, sequencers included, share sender and nonce, exactly if no two of the batch do |
| `PoolNonces.PushSameLedger` | core/dag.go:767-815 | if no two of a checked batch share sender and nonce the whole ledger, index by sender and nonce included, does not depend on the order |
| `PoolNonces.RunNoncesBelow` | core/dag.go:961-964 | in every run stored transactions stay at or below the confirmed nonce of their sender, if they are at the start |
| `PoolNonces.RunIndexed` | core/dag.go:919-937 | in every run the index by sender and nonce keeps covering all stored transactions and sequencers |
| `PoolNonces.RunNonceOnce` | core/tx_pool.go:449-506 | in every run whose confirmations have distinct nonces each, no nonce of a sender is confirmed twice, be it by transactions or by sequencers, if none is at the start |
| `PoolNonces.RunOnceIff` | core/tx_pool.go:449-506 | and exactly in those, as long as a hash names one transaction |
| `PoolNonces.GoodRunDistinct` | core/tx_pool.go:641-651 | runs that confirm tips and pendings only are of this kind |
| `PoolNonces.OneGoodPerNonce` | core/tx_pool.go:641-658 | in every run no two tips or pendings, the tip sequencer included, share sender and nonce |
| `PoolNonces.StartOk` | core/genesis.go:37-46 | the ledger with just the genesis, of nonce 0 and without parents, meets all that runs assume of a ledger: closed under parents, indexed, no nonce ahead of the confirmed one, none used twice |
| `PoolNonces.NoncesFromGenesis` | core/tx_pool.go:449-506 | all of this from the genesis on, with nothing assumed of the ledger: stored transactions and sequencers stay at or below the confirmed nonce of their sender and indexed, and no nonce is confirmed twice exactly if the elders of each confirmation have distinct nonces, for which confirming tips and pendings only is enough |
| `PoolWitnesses.NonceUsedTwice` | core/tx_pool.go:897-928 | campaigns x and y of one sender and nonce, a bad archive that names y and the sequencer, a sequencer on x and y: a run from the genesis that confirms the nonce twice, and after which tips are not exact either |
| `PoolOutcomes.ParentsVerdict` | core/tx_pool.go:619-636 | parents are fine exactly if each is in the pool and not bad, or else confirmed; the first one that is not decides: Bad if it is in the pool, Fatal if it is unknown |
| `PoolOutcomes.ParentDecides` | core/tx_pool.go:619-636 | the whole verdict on an arrival whose first parent that is not fine is the one at a given position |
| `PoolOutcomes.ArchiveVerdict` | core/tx_pool.go:637-639 | an archive with fine parents is Good |
| `PoolOutcomes.Verdict` | core/tx_pool.go:640-701 | the exact verdict on any transaction with a nonce whose parents are fine and whose sender has no sequencer in its flow: Bad for a nonce that a good transaction has, Fatal for a confirmed nonce, Fatal unless the nonce is confirmed + number of good nonces + 1, Fatal for a transfer above the balance, Bad if all good transfers and this one are above it together, else Good |
| `PoolOutcomes.FlowVerdict` | core/tx_pool.go:640-701 | the same for every sender, with the nonces of its flow in place of the good ones |
| `PoolOutcomes.Refused` | core/tx_pool.go:547-565 | a known or fatal arrival changes nothing; a bad one goes to the end of the order and to badtxs, and changes nothing else |
| `PoolOutcomes.Accepted` | core/tx_pool.go:565-602 | a good arrival is a tip; tip sequencers among its parents leave, its other tip parents are pending, every other entry, the bad ones and the ledger are as before |
| `PoolOutcomes.AcceptedOrder` | core/tx_pool.go:449-506 | the arrival is last in the order, and what stays keeps its place |
| `PoolOutcomes.AcceptedFlow` | core/tx_pool.go:590-602 | a good arrival with a nonce is added to the flow of its sender, a transfer adds its value to the spending of its token, and no other flow changes |
| `PoolOutcomes.SurvivorAt` | core/tx_pool.go:1034-1062 | every unconfirmed transaction that is no sequencer and was judged fewer than ten times is among those judged again, judged once more |
| `PoolOutcomes.RejudgedAs` | core/tx_pool.go:1052-1067 | each leftover ends as it is judged in its turn, whatever is offered after it: Good means tip or pending, Bad means bad, Fatal means gone |
| `PoolOutcomes.LeftoverJudged` | core/tx_pool.go:1012-1067 | after a confirmation every unconfirmed transaction judged fewer than ten times is good, bad or gone exactly as its verdict says, against the new ledger and the leftovers before it in pool order, all of which have been offered |
| `PoolOutcomes.SequencerIn` | core/tx_pool.go:828-835 | the new sequencer is a tip, last in the order, stored, and its height is that of the ledger |
| `PoolOutcomes.ConfirmableIff` | core/tx_pool.go:855-886 | a sequencer is confirmed exactly if its nonce is not in use, its height is the next, all it reaches is known, no elder has its sender and nonce, every balance covers what the elders spend, nonces of each sender run on from the confirmed one, and its own follows those of its sender |
| `PoolOutcomes.RunHeights` | core/tx_pool.go:449-506 | in every run the height of the ledger grows by one with each confirmation |
| `PoolNonces.SequencerInFlow` | core/tx_pool.go:828-835 | after its confirmation the sequencer is in the flow of its sender, whose next nonce is above its own |
| `PoolObject.TxPool.constructor` | core/tx_pool.go:206-215 | order, lookup and tips hold the genesis only, which is a tip judged once; nothing is pending, bad or in a flow |
| `PoolObject.TxPool.JudgeParentsOf` | core/tx_pool.go:619-636 | the loop over the parents returns the verdict of the first bad or unknown parent, or Good |
| `PoolObject.TxPool.IsBadTx` | core/tx_pool.go:619-701 | the imperative verdict is the one that PoolOutcomes.ParentDecides, ArchiveVerdict, Verdict and FlowVerdict pin down case by case: parents, then nonce against pool, ledger and latest nonce, then balance |
| `PoolObject.TxPool.JudgeBalance` | core/tx_pool.go:679-701 | fatal exactly if the value exceeds the origin balance, bad exactly if only the total spent does |
| `PoolObject.TxPool.MoveParent` | core/tx_pool.go:567-588 | one parent: no effect unless it is a tip; a sequencer leaves tips, order and lookup, any other moves from tips to pendings |
| `PoolObject.TxPool.MoveParents` | core/tx_pool.go:566-589 | the loop over all parents, repeated ones included, demotes the set of tip parents |
| `PoolObject.TxPool.AddFlow` | core/tx_pool.go:590-600 | opens the flow where it is missing, and adds the transaction to the flow of its sender |
| `PoolObject.TxPool.Unlist` | core/tx_pool.go:1288-1312 | removing the newest entry from the end restores the pool as it was before the arrival |
| `PoolObject.TxPool.Commit` | core/tx_pool.go:547-609 | commit refines the value-level step, whose outcomes PoolOutcomes.Refused, Accepted, AcceptedOrder and AcceptedFlow give: fatal leaves the pool as it was, bad shelves, good accepts; it fails exactly for Fatal |
| `PoolObject.TxPool.SeekElders` | core/tx_pool.go:897-928 | fails exactly if some reached hash is neither in the pool nor confirmed, and otherwise returns precisely the pool transactions reached from the parents |
| `PoolObject.TxPool.SolveConflicts` | core/tx_pool.go:1012-1067 | after the push the pool is rebuilt from the leftovers in pool order, each judged again: none is dropped but the confirmed ones, sequencers, those judged ten times and those judged fatal now (PoolOutcomes.SurvivorAt, RejudgedAs, LeftoverJudged) |
| `PoolObject.TxPool.ConfirmHelper` | core/tx_pool.go:855-886 | succeeds exactly if the sequencer is confirmable (PoolOutcomes.ConfirmableIff), and then returns every non-sequencer elder once |
| `PoolObject.TxPool.Confirm` | core/tx_pool.go:794-835 | confirm refines the value-level confirmation, and changes nothing if it fails |
| `PoolObject.TxPool.Arrive` | core/tx_pool.go:460-497 | one turn of the loop is one step of the run model: it succeeds exactly for a new transaction that is not judged Fatal, or a new sequencer that is confirmable; duplicates and failures leave the pool alone, and the invariant is kept |
| `PoolObject.DemoteStep` | core/tx_pool.go:566-589 | treating parents one by one is treating the set of tip parents at once |
| `BatchCheck.VerifyNonce` | core/tx_pool.go:1070-1095 | sorts the keys of the list in place, and accepts exactly if the nonces of the list are latest+1 .. latest+k and, for the issuer, its sequencer follows with latest+k+1 |
| `BatchCheck.RunIsConsecutive` | core/tx_pool.go:1078-1086 | a sorted list of distinct nonces counts up by one from the latest exactly if it is that run |
| `BatchCheck.CollectOk` | core/tx_pool.go:938-981 | collecting one more elder keeps the per-sender nonce lists and token totals equal to those of the elders seen |
| `BatchCheck.BatchDetail.Add` | core/tx_pool.go:954-981 | a repeated nonce is dropped by the list, the value is added to the total of its token all the same |
| `BatchCheck.Record` | core/tx_pool.go:954-981 | the detail of the sender is opened where it is missing and gets the elder, and no other sender is touched |
| `BatchCheck.CheckedIsBatchOk` | core/tx_pool.go:984-1001 | the per-sender checks together are the declarative predicate on the set of elders |
| `BatchCheck.VerifyConfirmBatch` | core/tx_pool.go:932-1007 | whatever the iteration order, accepts exactly if no elder that carries a nonce shares sender and nonce with the sequencer, every sender and token total fits the confirmed balance, every nonce set is a run and the sequencer follows the run of its issuer; the batch then lists each non-sequencer elder once |
| `Ledgers.Dag.constructor` | core/dag.go:147-193 | the genesis is stored and indexed, balances are those given, no nonce is confirmed |
| `Ledgers.Dag.ProcessTransaction` | core/dag.go:947-997 | nonce and plain-transfer parts: the nonce of the sender becomes the larger one, except for an archive; balances change only by a transfer to a receiver, and then as LedgerProofs.ProcessMoves says |
| `Ledgers.Dag.WriteTransaction` | core/dag.go:919-937 | stores the transaction, and its hash under sender and nonce unless it is an archive |
| `Ledgers.Dag.Push` | core/dag.go:753-871 | refuses a wrong height and changes nothing; otherwise processes the batch in order, then stores it, then the sequencer, and takes its height |
| `LedgerProofs.ProcessMoves` | core/dag.go:992-997 | exactly a transfer of a value to a receiver takes it from the sender and gives it to the receiver; any other kind, no value or the empty address leaves all balances alone |
| `LedgerProofs.ProcessCounts` | core/dag.go:949-964 | the nonce of the sender becomes the larger of the old one and that of the transaction, unless it is an archive; nothing stored changes |
| `LedgerProofs.PushedSequencer` | core/dag.go:794-871 | after a push the height is that of the sequencer, which is stored and indexed, moves no value and is not ahead of the nonce of its sender |
| `LedgerProofs.NeverOverdraws` | core/dag.go:992-997 | in an affordable batch, in any order, every sender holds the value when it is subtracted |
| `LedgerProofs.FinalBalances` | core/dag.go:992-997 | final balances are start minus the values of transfers with a receiver from the account plus those to it, whatever the order |
| `LedgerProofs.BatchConserves` | core/dag.go:992-997 | every prefix of an affordable batch conserves the total of each token |
| `LedgerProofs.NonceAfterBatch` | core/dag.go:961-964 | processing a batch whose nonces run on leaves each sender at latest+k |
| `LedgerProofs.PushedAt` | core/dag.go:794-815 | exactly the old transactions, the batch and the sequencer are stored after a push |
| `LedgerProofs.PushIndexed` | core/dag.go:919-937 | a push keeps every stored transaction that carries a nonce covered by the index by sender and nonce |
| `TxLists.TxList.Len` | core/account_flow.go:318-320 | the length of the heap is the number of transactions in the list |
| `TxLists.TxList.Put` | core/account_flow.go:332-338 | a repeated nonce is dropped silently; the keys stay a heap over exactly the nonces of the list |
| `TxLists.TxList.Remove` | core/account_flow.go:343-355 | removes exactly that nonce although the scan goes on after the removal; the keys stay a heap over exactly the remaining nonces |
| `TxLists.SmallestFirst` | core/account_flow.go:286-292 | the first key of a heap of nonces is the smallest one |
| `TxLists.TxList.SortKeys` | core/tx_pool.go:1070-1073 | afterwards the keys list the nonces in ascending order without repetition, and are still a heap |
| `TxLists.TxList.LatestNonce` | core/account_flow.go:223-236 | sorting the heap in place returns the true maximum and leaves a heap over the same nonces |
| `FlowObjects.AccountFlow.Add` | core/account_flow.go:174-195 | fails exactly on a taken nonce, on a transfer that its balance state does not cover, and on one without a balance state, which is listed all the same; spending and list follow the value-level flow |
| `FlowObjects.AccountFlows.GetTxByNonce` | core/account_flow.go:88-97 | the transaction of that nonce in the flow of the sender, if any |
| `FlowObjects.AccountFlows.GetBalanceState` | core/account_flow.go:73-86 | the balance state of that token in the flow of the sender, if any |
| `FlowObjects.AccountFlows.GetLatestNonce` | core/account_flow.go:99-111 | fails exactly if the sender has no listed transaction; otherwise the largest nonce, and sorting the heap in place changes no flow |
| `FlowObjects.AccountFlows.ResetFlow` | core/account_flow.go:113-118 | the sender gets an empty flow of its own; no other flow is touched |
| `FlowObjects.AccountFlows.Add` | core/account_flow.go:43-64 | an archive changes nothing; otherwise flow and balance state are opened where missing and the transaction is added, and no other flow is touched although flows and lists are shared objects |
| `Heaps.Push` | core/account_flow.go:332-338 | pushing keeps the heap order and adds one entry |
| `Heaps.RemoveAt` | core/account_flow.go:343-355 | removing at an index keeps the heap order and takes out just that entry |
| `Heaps.RootIsMin` | p2p/dial.go:399-401 | the root of a heap is a smallest entry |
| `TrieDatabase.Database.constructor` | trie/database.go:98-106 | only the meta-root is cached, with no references; the cache is valid and ready for inserts |
| `TrieDatabase.Database.Insert` | trie/database.go:123-142 | a new node goes to the end of the flush-list with the given blob and no references, and adds 32 and the length of the blob to the size; reading it gives the blob, and every other read is as before; no recorded child is lost even if the node comes back after a flush; needs an empty list or a cached newest node |
| `TrieDatabase.Database.Reference` | trie/database.go:220-232 | the count of the child and the entry of the parent go up by one, and nothing else changes, except from a non-root parent that records the child already or to an uncached child; safety and exact counts are kept |
| `TrieDatabase.Database.Dereference` | trie/database.go:235-285 | the entry of the parent goes down by one, or away with its last reference; the child goes exactly if it had one reference, and otherwise nothing else goes; every node that stays keeps its blob and its other references; the cache stays valid and every recorded child cached or on disk; the next insert is possible exactly if the newest node is still cached or nothing is. Exact counts stay exact, from any parent and in any cache, and then what stays cached is exactly what the meta-root, or a node that was not referenced anyway, still reaches without that reference; if no node was unreferenced, exactly what the meta-root reaches |
| `TrieDatabase.Database.DropReference` | trie/database.go:255-285 | the recursive cascade terminates, touches nothing at or above the rank of the child but the dropped reference, and keeps list, size, safety, exact counts and, with these, the set of unreferenced nodes |
| `TrieDatabase.Database.ReleaseChildren` | trie/database.go:278-281 | a dying node drops all its references, whatever the iteration order |
| `TrieDatabase.Database.Run` | trie/database.go:123-285 | each operation has its effect, in order; counts are exact after every run without Commit or Cap, so nothing unreachable is kept: each cached node is reached from the meta-root or from a node that is not referenced yet, and all from the meta-root exactly if there is none of the latter |
| `TrieDatabase.Database.Lookup` | trie/database.go:158-169 | a node is read from the cache, or else from disk |
| `TrieDatabase.Database.Save` | trie/database.go:459-481 | puts every cached node reached through cached nodes after its cached children, across batch flushes and shared subtries |
| `TrieDatabase.Database.Uncache` | trie/database.go:487-510 | removes exactly the cached nodes reached from the hash, and keeps flush-list and size |
| `TrieDatabase.Database.Commit` | trie/database.go:392-454 | writes exactly the cached subtrie with its blobs, removes exactly it from the cache, keeps every read the same and every recorded child cached or on disk; the next insert is possible exactly if the newest node was cached outside the subtrie, or nothing else was cached |
| `TrieDatabase.Database.Cap` | trie/database.go:289-386 | writes out and drops a prefix of the flush-list, no longer than needed, until the size, with 64 more for each node, is within the limit or only the meta-root is cached; with the last node dropped it would be above the limit; every read stays the same and no child is lost |
| `TrieDatabase.Database.FlushOldest` | trie/database.go:324-353 | the first loop: writes out the blobs of exactly the prefix that has to go |
| `TrieDatabase.Database.DropOldest` | trie/database.go:364-370 | the second loop: deletes that prefix, one node at a time, with list, links and size in step |
| `TrieCache.UnlinkShape` | trie/database.go:272-277 | taking a node off the doubly linked list leaves a list of exactly the other nodes with matching links both ways |
| `TrieCache.GuardAfterDelete` | trie/database.go:272-277 | after deleting a node the next insert is possible exactly if it was not the newest node, or was the only one |
| `TrieCache.GuardIs` | trie/database.go:123-142 | an insert is possible exactly while the newest node is cached, or nothing is |
| `TrieDatabase.NewestLost` | trie/database.go:123-142 | two roots, the newer one released: the guard of insert is false in a reachable cache |
| `TrieNodes.DropSafe` | trie/database.go:255-269 | dropping a recorded reference loses no child |
| `TrieNodes.DeleteSafe` | trie/database.go:278-283 | deleting a node of count zero, or one that is on disk, loses no child, because a node whose count is too low is on disk |
| `TrieNodes.DeleteExact` | trie/database.go:278-283 | deleting a node of count zero without children keeps counts equal to recorded references |
| `TrieCache.InsertSafe` | trie/database.go:123-142 | a node that is inserted while still referenced has too low a count, but is on disk |
| `TrieReach.RemoveSafe` | trie/database.go:496-510 | removing any set of nodes that are on disk loses no child |
| `TrieReach.AllAnchored` | trie/database.go:255-285 | with exact counts, following references upwards from any cached node ends at the meta-root or at an unreferenced node |
| `TrieReach.ReachedIffNoneIdle` | trie/database.go:255-285 | with exact counts, the meta-root reaches the whole cache exactly if no node is unreferenced |
| `TrieCache.DropIdle` | trie/database.go:255-269 | with exact counts, dropping a reference makes at most the child unreferenced, and the child was referenced before |
| `TrieFlush.CollectedExactly` | trie/database.go:255-285 | after a cascade from any parent the cached set is exactly what the meta-root or an unreferenced node reaches without the dropped reference |
| `TrieFlush.SavedExactly` | trie/database.go:459-481 | children-first puts that start at a node cover exactly its cached subtrie |
| `TrieFlush.CutOffCommit` | trie/database.go:459-481 | wherever the puts of a commit are cut off, every node put so far has all recorded children on disk |
| `TrieFlush.CommitKeeps` | trie/database.go:392-454 | removing what was put keeps every read and loses no child |
| `TrieFlush.CapKeeps` | trie/database.go:364-370 | dropping flushed nodes keeps every read and loses no child |
| `TrieFlush.CapCanInsert` | trie/database.go:364-373 | flushing from the oldest end never takes the guard of insert away |
| `OrphanBuffer.TxBuffer.UpdateDependencyMap` | og/tx_buffer.go:422-439 | puts the transaction under one parent and changes no other entry |
| `OrphanBuffer.TxBuffer.BuildDependencies` | og/tx_buffer.go:570-622 | puts the transaction under exactly its missing parents, and under itself if there is one; true exactly if none is missing |
| `OrphanBuffer.TxBuffer.HandleTx` | og/tx_buffer.go:268-316 | a known arrival changes nothing; one with a missing parent is buffered and nothing is handed to the pool; any other is handed to the pool next, and alone if nobody waits for it. When it returns no buffered transaction has all parents local, and every transaction handed to the pool came after its parents |
| `OrphanBuffer.TxBuffer.NiceTx` | og/tx_buffer.go:245-266 | a transaction whose parents are all local leaves the buffer, and the cascade it starts is complete |
| `OrphanBuffer.TxBuffer.Resolve` | og/tx_buffer.go:448-504 | adds the transaction to the pool, removes its dependency entry and leaves nothing ready that was not to be tried anyway; recursion ends because each recursing call removes an entry |
| `OrphanBuffer.TxBuffer.TryResolve` | og/tx_buffer.go:551-565 | releases a transaction exactly if no parent has a dependency entry, which means that all parents are local |
| `Orphans.StartsWaiting` | og/tx_buffer.go:570-622 | an arrival with missing parents waits on each of them, and nothing else changes |
| `Orphans.Released` | og/tx_buffer.go:448-504 | releasing a transaction makes ready only what waits on it, and keeps every other dependency |
| `Orphans.LocalIsLeast` | og/tx_buffer.go:268-316 | local transactions are the least set that holds the initial ones and every arrived one whose parents it holds |
| `OrphanBuffer.SameArrivals` | og/tx_buffer.go:268-316 | two buffers that started alike and saw the same arrivals hold the same, whatever the order of arrivals and iterations |
| `Ancestors.MissingHashes` | og/tx_buffer.go:624-671 | finds exactly the unknown hashes reached through known transactions |
| `Ancestors.MyPreviousTx` | og/verifier.go:286-359 | outside archive mode: succeeds exactly if the nonce is 1 or a transaction of the same sender with the nonce before, in the pool or else confirmed, is reached through pool non-sequencers, and returns such a one |
| `Ancestors.Continues` | og/verifier.go:325-339 | the search goes on from a pool transaction that is no sequencer to each of its parents |
| `Ancestors.EndsThere` | og/verifier.go:325-346 | it ends at sequencers and at what is not in the pool |
| `Ancestors.PredecessorMissed` | og/verifier.go:284-359 | the ledger holds the predecessor, but the only parent is a sequencer of another sender: the condition of success is false |
| `Ancestors.PreviousSequencer` | og/verifier.go:362-415 | returns a sequencer with the height before, in the pool or else confirmed, that pool transactions lead to, or else the confirmed one of that height, or fails |
| `Graph.Explore` | core/tx_pool.go:897-928 | breadth-first search with unmarked roots ends, finds exactly what is reached, and fails exactly on an unknown hash |
| `Capabilities.CapsOrdered` | p2p/protocol.go:98-100 | by name, then by version: a total order |
| `Capabilities.LessIs` | p2p/protocol.go:98-100 | names are compared at the first position where they differ, and a prefix comes first |
| `Capabilities.MatchProtocols` | p2p/peer.go:309-331 | one range per shared name in the order of names, starting at 16, for the highest shared version; offsets wrap like uint16 |
| `Capabilities.AllocateNext` | p2p/peer.go:318-327 | replacing an older version of the last name keeps the allocation |
| `Capabilities.OneAllocation` | p2p/peer.go:309-331 | the allocation is determined by what is shared and by its lengths |
| `Capabilities.PeersAgree` | p2p/peer.go:309-331 | two peers that announce their own protocols and agree on shared lengths compute the same offsets |
| `Capabilities.HighestShared` | p2p/peer.go:309-331 | exactly the shared names are allocated, each for the highest version that both sides know, with the length of such a protocol |
| `Capabilities.FirstOffset` | p2p/peer.go:309-331 | the protocol of the first name starts at code 16 |
| `Capabilities.NextOffset` | p2p/peer.go:318-327 | the protocol of the next name starts where the one before it ends, modulo 2^16 |
| `Capabilities.GetProto` | p2p/peer.go:364-371 | returns a protocol that handles the code, or none if there is none |
| `Capabilities.RangesDisjoint` | p2p/peer.go:364-371 | no code is meant for two protocols |
| `Capabilities.RangesCover` | p2p/peer.go:318-327 | the ranges leave no code out |
| `Capabilities.CodesFit` | p2p/peer.go:364-371 | every code gets to the protocol it is meant for exactly if all codes end below 2^16 |
| `Capabilities.CodesMissed` | p2p/peer.go:364-371 | one protocol of 65535 codes is allocated, and getProto finds none of its codes |
| `Capabilities.OneHandler` | p2p/peer.go:364-371 | if the codes fit, getProto has exactly one answer for each code from 16 to the end, and none outside |
| `Dialing.Expire` | p2p/dial.go:423-427 | popping old roots removes exactly the expired entries |
| `Dialing.RemovePast` | p2p/dial.go:406-414 | forgets one dial of the node if there is any, and changes nothing otherwise |
| `Dialing.DialState.RemoveStatic` | p2p/dial.go:155-161 | drops the static entry, and forgets exactly one remembered dial, one of that node, if there is any |
| `Dialing.DialState.CheckDial` | p2p/dial.go:268-283 | no error exactly if the node is not being dialed, not connected, allowed and not dialed recently; the reasons come in that order |
| `Dialing.DialState.AddDial` | p2p/dial.go:169-179 | hands out a dynamic dial exactly if the node is not being dialed, not connected, allowed and not dialed recently, and records just that |
| `Dialing.DialState.DialMore` | p2p/dial.go:211-242 | a bootnode is tried if it is time, then half of what is needed from random nodes, then lookup results until nothing is needed; each one tried is then being dialed, connected, barred or recent |
| `Dialing.DialState.DialStatics` | p2p/dial.go:197-210 | every static node that may be dialed is, and only nodes that never may are forgotten |
| `Dialing.DialState.NeedDynDials` | p2p/dial.go:182-192 | the limit minus dynamic peers minus dynamic dials |
| `Dialing.DialState.NewTasks` | p2p/dial.go:163-258 | hands out each dial and lookup that it records, once; none for a connected or recently dialed node; never more dynamic dials than the limit leaves. Every static node, every lookup result taken off the buffer, the first half of the needed random nodes and, without peers after twenty seconds, the first bootnode are then being dialed, connected, barred or recent; results stay in the buffer only if the limit is reached; a lookup runs exactly if candidates are short; a timer only if nothing else is going on |
| `Dialing.DialState.TaskDone` | p2p/dial.go:285-294 | a finished dial is remembered for thirty seconds and no longer in progress; lookup results are kept |
| `Servers.Server.StartTasks` | p2p/server.go:668-678 | starts from the front while fewer than 16 run, and returns the others in order |
| `Servers.Server.ScheduleTasks` | p2p/server.go:679-687 | afterwards 16 run or nothing is queued; if fewer run, every static node has been tried and a lookup runs unless there are candidates enough; dials in progress are exactly those outstanding; each task is started once, in order of creation |
| `Servers.Server.Finish` | p2p/server.go:740-746 | a finished task is taken off once and the scheduler forgets it: a dial is remembered for thirty seconds, results of a lookup are kept |
| `Servers.Server.MaxDialedConns` | p2p/server.go:857-866 | the number of peers divided by the ratio, by 3 if none is set, and none without dialing |
| `Servers.Server.PostHandshake` | p2p/server.go:747-759 | trust is copied into the flags before the checks, so that a trusted node is never refused for lack of room |
| `Servers.Server.AddPeer` | p2p/server.go:760-790 | refuses exactly for no shared protocol or what the checks say; a dynamic connection comes from a running dial, so the limit still holds; inboundCount stays the number of inbound peers, and both limits on peers are kept |
| `Servers.PeersPut` | p2p/server.go:838-851 | the limits: of all connected peers at most MaxPeers were admitted neither trusted nor static, and at most the inbound share inbound and not trusted |
| `Servers.Server.SetTrusted` | p2p/server.go:715-733 | the trusted set changes, and the flag of a connected peer with it; limits are kept |
| `Servers.Server.DelPeer` | p2p/server.go:791-801 | inboundCount stays the number of inbound peers |
| `Servers.Server.HandshakeChecks` | p2p/server.go:838-851 | each answer exactly: too many peers if MaxPeers are connected and the peer is neither trusted nor static, or if it is inbound and not trusted and the inbound share is used up; else already connected, else the node itself, else accepted |
| `Servers.Server.Turn` | p2p/server.go:690-801 | every turn of the loop notes its event (trust, static nodes, peers, finished tasks) and keeps all limits and the bookkeeping; afterwards 16 tasks run, or nothing is queued and nothing is left to start |
| `Servers.Server.Handle` | p2p/server.go:690-801 | what each kind of event does to trust, peers, static nodes, running tasks and the scheduler |
| `Servers.Server.Run` | p2p/server.go:690-801 | every run keeps the limits, schedules once before its first event, and leaves trusted exactly whom its events leave trusted; 16 tasks run or nothing is queued after each turn, and no task is lost or started twice |
| `Servers.OutstandingMore` | p2p/server.go:679-687 | what a call of newTasks hands out is new: nothing outstanding is handed out again |
| `Servers.DynNodesOfTasks` | p2p/dial.go:182-192 | distinct nodes dynamically connected or dialed stay within the limit |
| `KeyLayout.EncodeUint64` | core/accessor.go:590-594 | eight bytes, most significant first: their sum with weights 256^7 down to 1 is the number |
| `KeyLayout.KeyRoundTrip` | core/accessor.go:61-104 | every key of every family, raw trie hashes included, can be read back from its bytes |
| `KeyLayout.KeysDisjoint` | core/accessor.go:61-104 | key families are injective and mutually disjoint |
| `KeyLayout.GenesisKey` | core/accessor.go:61-63 | the bytes of genesis |
| `KeyLayout.LatestSequencerKey` | core/accessor.go:65-67 | the bytes of latestseq |
| `KeyLayout.StateRootKey` | core/accessor.go:102-104 | the bytes of stateroot |
| `KeyLayout.HeightPrefixes` | core/accessor.go:69-100 | receipts, confirm times, sequencers and transaction indexes: rp, cf, sh and ti before the eight bytes of the height |
| `KeyLayout.HashPrefixes` | core/accessor.go:73-92 | transactions, nonces, latest nonces and balances: tx, fl, aln and ba before the hash or address, fl with the eight bytes of the nonce after it; trie nodes have no prefix |
| `KeyLayout.PreimagePrefix` | trie/database.go:44-44 | preimages: secure-key- before the hash |
| `KeyLayout.PushStores` | core/dag.go:794-871 | what every key of a push holds afterwards: receipts, index, sequencer of the height, latest sequencer, each transaction, and its hash under sender and nonce unless it is an archive |
| `KeyLayout.PushLeaves` | core/dag.go:794-871 | the batch of a push leaves every other key alone |
| `KeyLayout.PushPutsConsistent` | core/dag.go:794-871 | puts of one push to the same key put the same value, if its transactions differ in hash, and in sender or nonce |
| `KeyLayout.PushAnyOrder` | core/dag.go:794-871 | every interleaving of the puts of one push leaves the same database |
| `KeyLayout.Putter.Write` | core/accessor.go:140-151 | refuses exactly if a put has failed before, and then changes nothing; otherwise waits for all puts and empties the batch: each put reaches the batch or is lost, one is lost exactly if some put that was waited for fails; the database is left alone if the store refuses the batch, which is the only error reported, and otherwise, if none is lost and puts are consistent, is as if they had been made in order |
| `KeyLayout.Putter.Put` | core/accessor.go:172-184 | refused exactly if a put has failed; otherwise pending until its goroutine has run, and an error that any goroutine records before the call returns is reported |
| `KeyLayout.Putter.Proceed` | core/accessor.go:153-170 | any pending put may be the next: it reaches the end of the batch, or fails, is lost and sets the error |
| `KeyLayout.LostPut` | core/accessor.go:140-151 | with a batch whose puts can fail: a put that fails while Write waits for it is lost, and success is reported |
| `Stores.Batch.Write` | ogdb/memdb.go:114-122 | applies the pairs in the order in which the batch got them |
| `Stores.LastWins` | ogdb/memdb.go:114-122 | a key holds what was put last, and what it held before if nothing was put |
| `Stores.AnyOrderIff` | ogdb/memdb.go:114-122 | every order of a batch leaves the same store exactly if puts to the same key agree |
| `Stores.ApplyConcat` | ogdb/memdb.go:108-122 | writing a batch in pieces is writing it at once |
| `HexPrefix.CompactIs` | trie/encoding.go:37-52 | byte by byte: 32 in the first byte for a terminator, 16 and the first nibble for an odd key, then two nibbles each, the higher one first |
| `HexPrefix.ExpandCompact` | trie/encoding.go:37-63 | compactToHex(hexToCompact(h)) == h for every nibble string with or without terminator, and the compact form is canonical |
| `HexPrefix.CompactExpand` | trie/encoding.go:37-63 | hexToCompact(compactToHex(c)) == c exactly if c is canonical |
| `HexPrefix.NibbleLost` | trie/encoding.go:37-63 | the key [1] comes back as [0] |
| `HexPrefix.KeyRoundTrip` | trie/encoding.go:65-88 | hexToKeybytes(keybytesToHex(k)) == k |
| `HexPrefix.HexRoundTrip` | trie/encoding.go:65-88 | the converse holds exactly for hex keys with a terminator |
| `HexPrefix.HexToCompact` | trie/encoding.go:37-52 | the buffer-filling code computes the compact form |
| `HexPrefix.CompactToHex` | trie/encoding.go:54-63 | the slicing code computes the expanded form |
| `HexPrefix.KeybytesToHex` | trie/encoding.go:65-74 | the loop computes the nibbles and the terminator |
| `HexPrefix.HexToKeybytes` | trie/encoding.go:78-88 | the loop computes the bytes of an even key |
| `HexPrefix.DecodeNibbles` | trie/encoding.go:90-94 | packs pairs of nibbles into the rest of the buffer, and leaves its beginning alone |

## Left out

- Contract execution, token issue and reissue, and the state trie behind balances: abstract maps and plain transfers stand for them.
- `PreConfirm` and `PrePush`: the code behind their early return is never reached.
- The public `Remove` of the pool and `TryRemoveValue`: the loop never calls them on a tip or pending transaction, and removing one by hand breaks nonce runs.
- Action transactions, transaction weights, temporary heights, confirm statistics and subscriptions of the pool.
- `handleTxs`, `releasedTxCacheLoop` and proposing sequencers of the buffer, and its requests to the syncer.
- Requests to disconnect: `removeStatic` in the server loop also asks a connected peer to leave, which shows as a later departure.
- Archive mode of `getMyPreviousTx`: a single lookup by nonce.
- Trie preimages: `Commit` and `Cap` also write them, under keys of their own (`KeyLayout.KeysDisjoint`).
- Errors of the disk under `Commit` and `Cap`: only the state after any prefix of the puts is considered (`TrieFlush.CutOffCommit`).
- Handshakes, encryption, message framing, serialisation, LevelDB and MongoDB, RPC, metrics and wiring.
- PoolObject.TxPool.IsBadTx: action transactions, which have checks of their own, are not modelled.
- Ledgers.Dag.Push: receipts, snapshots and the trie commit inside a push are not modelled.
- Ledgers.Dag.ProcessTransaction: contract calls that follow a transfer are not modelled.
- Capabilities.MatchProtocols: sorts a copy of the capabilities, not the slice in place; channels of the result are not modelled.
- Dialing.DialState.NewTasks: resolving endpoints and sleeping inside tasks are not modelled; `random` stands for what the discovery table returns.
- PoolTips.ConfirmTips: the exact condition is on the pool after rejudging; before the call it is stated one way only, since whether a bad transaction turns good depends on all leftovers before it.
- KeyLayout.Putter.Write: a store either takes a batch as a whole or refuses it; pairs that a MongoDB batch skips with a warning are not modelled.
- Servers.Server.Turn: the answers to waiting connections are results of the event methods, not messages.
- TrieDatabase.Database.Cap: sizes are integers, not floating-point storage sizes.
