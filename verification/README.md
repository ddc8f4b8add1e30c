# A verified model of an Intelchain node

This project models the parts of the node whose correctness no single function states, and proves what every operation
of them keeps. Four areas are covered.

**The transaction pool** (`Heap`, `Transactions`, `TxSortedMap`, `TxList`, `TxPricedList`, `Fairness`, `PoolState`,
`TxPool`). An account's transactions live in nonce-indexed maps with a heap and a sorted cache; the pool keeps a pending
and a queued list per account, a lookup of everything it knows, a lazily cleaned price heap and a virtual nonce per
account. `Pool.TxPool.Run` is the main result: whatever sequence of operations is performed, the lookup is exactly the
disjoint union of the pending and queued transactions, each stored once under its own sender and nonce; each operation
does to the contents what it says; and in runs without reinjection and without falling account nonces every account's
pending nonces are exactly the interval from its state nonce to its virtual nonce. Promotion is proved to make pending
exactly what is ready and to lose nothing without a reason; after a head change everything known is alive and nothing
queued could be promoted. Equalising the pending lists is proved to be water-filling with a unique outcome.

**Staking and gas** (`Ledger`, `Staking`, `StakingState`, `Gas`). Tokens move between balances, stakes, unlocking
entries, rewards, fees and cross-shard receipts. `StakingState.StateDB.ApplyAll` conserves all tokens over any sequence
of staking messages and gives each message's effect; `Gas.Processor.Process` accounts for every token over the
transactions of a block, message by message, and `Gas.SendAcross` for a transfer over both of its shards.

**Consensus bookkeeping** (`ViewChange`, `LeaderRotation`). The view-change vote store and the decisions taken from it,
and the counter of consecutive blocks behind leader rotation.

**Indexes and chain structures** (`ChainIndexer`, `DelegationIndex`, `HeaderChain`, `DerivationPath`). Sections indexed
while the chain may be reorganised, the index of a delegator's delegations, the ancestor shortcut, and derivation paths
as text. `Common` holds what all modules share.

Some properties one would expect are false of the code; each has a concrete input, and an exact condition:

- After a failed backend reset the chain indexer removes section heads without its lock, so that removal can interleave
  with the one of a reorganisation. Heads can then be missing below the number of stored sections
  (`Removal.ResetInsideReorg`) or left behind above it (`Removal.Overtaken`), or the number itself wraps around below
  zero (`Removal.BothCompareFirst`). An overlap goes well in every interleaving exactly when the reorganisation keeps no
  section and the number is at zero already when the second removal starts (`Removal.OverlapExact`); a run that meets no
  other overlap, and so every run without a failed reset, keeps the heads contiguous (`ChainIndexer.Indexer.Run`).
- A section head that the chain indexer stores need not be canonical: when the headers of a section have been read,
  and the indexer is told of a reorganisation inside that very section before it stores the head, the reorganisation
  removes nothing and the head of the old headers is stored (`ChainIndexer.SlipsThrough`, `ChainIndexer.SlipStores`).
  Each step keeps the heads canonical if and only if it is not such a notification
  (`ChainIndexer.NextFaithful`); none comes when reorganisations replace no more headers than the required
  confirmations (`ChainIndexer.ShallowRun`).
- A contract creation sent to another shard gives its value to the new contract and to a cross-shard receipt without
  recipient (`Gas.CreationDoubles`). A block loses exactly its uncollected fees and burned value if and only if nothing
  was doubled in this way, which takes a successful such creation with value (`Gas.LostExactly`,
  `Gas.Processor.Process`).
- Delegating adds the amount to *every* entry of the delegator in the validator's wrapper, so tokens are conserved
  exactly when there is at most one (`StakingState.TwoEntriesMint`, `Staking.GiftIsAmount`). The invariant that there is
  at most one is kept by every staking operation.
- Rewards are compared with zero by their low 64 bits, so rewards that are a multiple of 2^64 cannot be collected
  (`StakingState.RewardsOverlooked`, `StakingState.VerifyCollect`).
- The rotation counter is exact past epoch 0 when startup rebuilt it or began in epoch 0. When startup did not, it is
  exact exactly when some header inserted since differs in leader or epoch from the last one found at startup
  (`LeaderRotation.ExactAfterGap`, `LeaderRotation.CountFallsShort`). It never exceeds the run, and in epoch 0 it is not
  updated at all.
- `GetAncestor` takes the zero hash above the canonical head for a canonical block; with genesis known and no header of
  hash zero it agrees with following parents in exactly the other cases (`HeaderChain.GetAncestor`,
  `HeaderChain.ZeroHashTaken`).

The delegation index is exact after every block whose messages could be executed in their order, whether or not each of
them took lasting effect. For arbitrary message lists the exact condition is that no delegation by a validator to itself
is listed ahead of its creation.

Assumptions: hashes, signatures and encodings are ideal, so a transaction stands for its hash; balances are unbounded
integers; the EVM is a step that returns no more gas than it was given, creates no value and says how much it burns;
quorum is an arbitrary predicate on bitmaps that an empty bitmap does not meet.

## Model

| member | source | states |
|---|---|---|
| `Heap.UpHeap` | core/tx_list.go:37-53 | sifting up repairs a heap that is out of order at one element |
| `Heap.DownHeap` | core/tx_list.go:37-53 | sifting down repairs a heap that is out of order below one element |
| `Heap.FrontIsLeast` | core/tx_list.go:37-53 | no element of a heap is less than its front |
| `Heap.Remove` | core/tx_list.go:185-203 | removing any position keeps a heap and takes out exactly that element |
| `Heap.Init` | core/tx_list.go:160-181 | rebuilding gives a heap with the same elements |
| `Transactions.CappedIsLowest` | core/tx_list.go:160-181 | everything a cap keeps has a lower nonce than everything it drops |
| `Transactions.FlatUnique` | core/tx_list.go:236-249 | a nonce map has only one nonce-sorted listing, so a cache is right or absent |
| `Transactions.FlatSplit` | core/tx_list.go:87-101 | dropping low nonces cuts a prefix of known length off the sorted listing, which is how the cache is shifted |
| `Transactions.FlatCapped` | core/tx_list.go:160-181 | capping cuts the sorted listing at the threshold |
| `Transactions.RunEnd` | core/tx_list.go:211-226 | the first nonce from a start on that is missing, with every nonce before it present |
| `SortedMap.FrontIsMin` | core/tx_list.go:55-67 | the front of the nonce heap is the lowest stored nonce, and heap and map have the same size |
| `SortedMap.CutTo` | core/tx_list.go:160-181 | capping drops exactly the highest nonces, highest first, and leaves the capped map |
| `SortedMap.PopRun` | core/tx_list.go:211-226 | popping takes exactly the maximal consecutive run from the lowest nonce |
| `SortedMap.TxSortedMap.Put` | core/tx_list.go:76-83 | refines map update; heap and cache stay in step |
| `SortedMap.TxSortedMap.Forward` | core/tx_list.go:87-101 | removes exactly the nonces below the threshold, returned in nonce order, and keeps the cache right |
| `SortedMap.TxSortedMap.Filter` | core/tx_list.go:105-127 | splits the contents exactly by the filter, whatever the visiting order |
| `SortedMap.TxSortedMap.FilterWithError` | core/tx_list.go:131-156 | the same, with one error for each transaction removed |
| `SortedMap.TxSortedMap.Cap` | core/tx_list.go:160-181 | keeps the lowest nonces up to the threshold; the cache stays the sorted contents |
| `SortedMap.TxSortedMap.Remove` | core/tx_list.go:185-203 | removes one nonce from map and heap, and says whether it was there |
| `SortedMap.TxSortedMap.Ready` | core/tx_list.go:211-226 | takes out the maximal consecutive run from the lowest nonce if that is at most the start, else nothing |
| `SortedMap.TxSortedMap.Flatten` | core/tx_list.go:236-249 | the nonce-sorted contents |
| `AccountList.ShortCircuitSound` | core/tx_list.go:353-365 | when both caps lie within the limits every stored transaction is payable, so skipping the filter loses nothing |
| `AccountList.FilterKeepsCaps` | core/tx_list.go:327-391 | filtering keeps both caps upper bounds and splits the list into survivors, removed and invalidated |
| `AccountList.FilterLeavesPrefix` | core/tx_list.go:327-350 | on a contiguous strict list the survivors are the contiguous prefix below the lowest removed nonce |
| `AccountList.RemoveLeavesPrefix` | core/tx_list.go:406-420 | on a contiguous strict list removal leaves the prefix below the nonce and invalidates the rest |
| `AccountList.TxList.Overlaps` | core/tx_list.go:278-280 | whether the nonce is taken |
| `AccountList.TxList.Add` | core/tx_list.go:287-313 | accepts a new nonce, or a replacement that outbids the old one in price and by the bump; caps rise with it |
| `AccountList.OutbidsExactly` | core/tx_list.go:287-301 | a replacement has a higher price that falls short of the bumped one by less than one unit; no two transactions outbid each other |
| `AccountList.TxList.FilterPrice` | core/tx_list.go:353-378 | equals filtering unconditionally, short circuit or not; caps fall to the limits exactly when it filters; each removed transaction comes with its reason |
| `AccountList.TxList.FilterValid` | core/tx_list.go:327-350 | the new list, the removed and the invalidated ones are those of the value-level specification; each removed transaction comes with its reason |
| `AccountList.StakingRecheck` | core/tx_list.go:331-337 | the staking rules are applied again ten blocks after the last time at the latest, and then nothing they turn down is left |
| `AccountList.TxList.Remove` | core/tx_list.go:406-420 | removes the nonce and, in a strict list, everything above it |
| `AccountList.TxList.Ready` | core/tx_list.go:426-428 | takes out the executable run, in nonce order |
| `PricedList.SurplusIsNatural` | core/tx_list.go:480-517 | the heap is never smaller than the pool and exceeds it by at most the stale count |
| `PricedList.HeadIsCheapest` | core/tx_list.go:449-464 | the front of the price heap is no dearer than any entry |
| `PricedList.TxPricedList.Put` | core/tx_list.go:495-497 | an added transaction is covered, also when its hash was dropped and resubmitted |
| `PricedList.TxPricedList.Removed` | core/tx_list.go:502-517 | after a removal the heap still covers the pool and 3 * heap size <= 4 * pool size |
| `PricedList.TxPricedList.Cap` | core/tx_list.go:521-549 | hands out exactly the remote transactions below the threshold |
| `PricedList.TxPricedList.Underpriced` | core/tx_list.go:552-574 | on a non-empty pool a remote transaction is underpriced exactly when its price is at most every pooled price |
| `PricedList.TxPricedList.Discard` | core/tx_list.go:578-601 | hands out only remote transactions, none dearer than a remote one it leaves, and keeps every local entry |
| `Fairness.LevelDown` | core/tx_pool.go:1464-1487 | lowering exactly the accounts at the level by one lowers the level by one and the total by their number |
| `Fairness.FairIsLargest` | core/tx_pool.go:1435-1507 | any higher level would exceed the limit |
| `Fairness.FairIsUnique` | core/tx_pool.go:1435-1507 | two fair outcomes are equal, so the order in which offenders are met does not matter |
| `PoolState.StoredOnce` | core/tx_pool.go:988-1199 | a known transaction is in exactly one of pending and queue, and no other has its sender and nonce |
| `PoolState.WhereIs` | core/tx_pool.go:1321-1362 | removal by nonce removes the transaction itself: a taken pending slot of a known transaction holds it |
| `PoolState.Requeue` | core/tx_pool.go:1343-1346 | a transaction taken out of pending finds its queue slot free and is accepted, so none is lost or overwritten |
| `PoolState.Promotion` | core/tx_pool.go:1408-1413 | a transaction taken out of the queue finds its pending slot free and is accepted |
| `PoolState.Unpend` | core/tx_pool.go:1335-1347 | removing a pending transaction leaves the pool consistent with exactly its successors to be requeued |
| `PoolState.FilterDemotes` | core/tx_pool.go:1570-1587 | after filtering a pending list the removed can be forgotten and the invalidated can be requeued |
| `PoolState.UnpendInStep` | core/tx_pool.go:1335-1351 | lowering the virtual nonce to the removed nonce keeps pending an interval |
| `PoolState.ReadyInStep` | core/tx_pool.go:1407-1413 | what is ready starts exactly at the virtual nonce and is an interval |
| `PoolState.DemotedRun` | core/tx_pool.go:1555-1604 | an interval that starts at or below the state nonce is demoted to one that starts exactly there |
| `PoolState.SwapPending` | core/tx_pool.go:1044-1066 | a replacement in a pending slot keeps the pool consistent |
| `PoolState.NewQueued` | core/tx_pool.go:1110-1140 | whether or not the queue accepts a new transaction, the pool stays consistent |
| `PoolState.SyncedInStep` | core/tx_pool.go:568-572 | setting virtual nonces one past the last pending nonce puts the pool in step |
| `PoolState.PromotesMeans` | core/tx_pool.go:1382-1430 | promoting an account makes pending exactly what is live and in an unbroken run from its virtual nonce or below, leaves the pending ones alone, and keeps what is live of the rest, up to the limit for remote accounts |
| `PoolState.PromotedTwice` | core/tx_pool.go:1382-1430 | promoting again changes nothing, so an account may come up twice |
| `PoolState.CountsAddUp` | core/tx_pool.go:1014-1066 | the pool knows as many transactions as its lists are long |
| `Pool.Sanitize` | core/tx_pool.go:201-239 | each setting below its least workable value is replaced by its default, and every other is kept; workable configurations are kept as a whole |
| `Pool.TxPool.EnqueueTx` | core/tx_pool.go:1110-1140 | the queue, the lookup and the price list after an accepted, a replacing and a refused transaction |
| `Pool.TxPool.PromoteTx` | core/tx_pool.go:1158-1199 | the pending list, the lookup and the virtual nonce after an accepted and a refused promotion, known or not |
| `Pool.TxPool.RemoveTx` | core/tx_pool.go:1321-1362 | exactly that transaction leaves the pool; of its pending list what lies below it stays and the virtual nonce falls to it, successors go back to the queue; a queue loses just it |
| `Pool.TxPool.PromoteAccount` | core/tx_pool.go:1382-1430 | the executable run of the live queue moves to pending; the rest, capped for remote accounts, is the new queue |
| `Pool.TxPool.EqualizePending` | core/tx_pool.go:1435-1507 | below the limit nothing changes; above it the lengths are those of one fair level, lists keep their lowest nonces, and the counter is the true total |
| `Pool.TxPool.TruncateQueue` | core/tx_pool.go:1508-1549 | ends at the queue limit or with only local queues, never below the limit; local queues are untouched, remote ones emptied, and at most one keeps just its lowest nonces |
| `Pool.TxPool.PromoteExecutables` | core/tx_pool.go:1367-1549 | every given account is promoted: exactly the ready run of its live queue becomes pending, and what it has queued afterwards is live, above its virtual nonce and within the limit; then one fair level and the queue cut; a transaction is lost only because it is dead, or because it is remote and a limit is reached |
| `Pool.LossesExplained` | core/tx_pool.go:1367-1549 | whatever promotion and the limits drop was dead, or remote with a limit reached |
| `Pool.KnownIsPending` | core/tx_pool.go:1407-1413 | once its sender has been promoted, a known transaction up to the virtual nonce is pending |
| `Pool.TxPool.DemoteAccount` | core/tx_pool.go:1559-1604 | what the chain has passed or can no longer run is dropped, nothing else; the pending list is what is left, or gone when that is empty or gapped; nothing else changes |
| `Pool.TxPool.DemoteUnexecutables` | core/tx_pool.go:1555-1604 | the same for all accounts at once; every list starts at its state nonce; no gap is found when every list started at or below it |
| `Pool.DemotionMeans` | core/tx_pool.go:1555-1604 | demotion drops only what the chain has passed, cannot pay for or turns down, and everything that stays pending is alive |
| `Pool.TxPool.SetGasPrice` | core/tx_pool.go:614-625 | exactly the remote transactions below the threshold leave the pool |
| `Pool.TxPool.Evict` | core/tx_pool.go:418-440 | a remote account's whole queue goes, nothing else changes |
| `Pool.TxPool.MakeRoom` | core/tx_pool.go:1014-1043 | refuses exactly a remote transaction no dearer than a full pool; otherwise drops only remote ones, the cheapest, at least one if there is any, and no more than it takes |
| `Pool.TxPool.ReplacePending` | core/tx_pool.go:1044-1082 | replaces exactly when the old transaction is outbid |
| `Pool.TxPool.Add` | core/tx_pool.go:988-1105 | which error, and when; room is made in a full pool; then the transaction stands under its sender and nonce, pending if that slot is pending and else queued, in place of the one it outbids, and nothing else has changed |
| `Pool.AddsMeans` | core/tx_pool.go:988-1105 | a transaction is accepted exactly when it becomes known; a refused one changes nothing known, unless room was made for it |
| `Pool.TxPool.AddTx` | core/tx_pool.go:1230-1250 | adds one transaction and promotes its sender unless it only replaced another; in a pool with room, an accepted live transaction with the next nonce is pending afterwards |
| `Pool.NextBecomesPending` | core/tx_pool.go:1230-1250 | the same, for whatever contents satisfy the description of adding |
| `Pool.TxPool.AddTxs` | core/tx_pool.go:1262-1291 | each answer is that of adding the transaction to what the ones before it have left; then all accounts that gained one are promoted |
| `Pool.TxPool.Reset` | core/tx_pool.go:464-575 | discarded transactions are added as remote ones; afterwards every known transaction is alive and none queued could be promoted, and a transaction is lost only because it is dead, or remote and a limit is reached; with nothing reinjected and no nonce falling, nonces stay in step and no gap is found |
| `Pool.TxPool.Run` | core/tx_pool.go:988-1604 | over any sequence of operations the pool stays consistent and each operation does to the contents what it says; in calm runs pending is the interval from state nonce to virtual nonce and the gap branch is never taken |
| `Delegations.TakeConserves` | core/staking_verifier.go:280-295 | what leaves the unlocking entries is what leaves the amount still to be found |
| `Delegations.TakeUsesEarlier` | core/staking_verifier.go:280-295 | with entries in epoch order all earlier ones are used first and no more than needed |
| `Delegations.TakeLeavesSuffix` | core/staking_verifier.go:280-299 | surviving entries are a suffix with only the first possibly reduced |
| `Delegations.SuffixSorted` | core/staking_verifier.go:280-299 | such a suffix is again in epoch order |
| `Delegations.Redeem` | core/staking_verifier.go:279-299 | the loop computes that use of the entries |
| `Delegations.Undelegate` | staking/types/delegation.go:123-152 | moves stake into the entry of the epoch: the entries of that epoch grow by the amount in total, those of every other epoch do not, and entries stay in epoch order |
| `Staking.StoredGain` | core/evm.go:166-170 | storing wrappers with pairwise distinct addresses changes the total staked by exactly their gain |
| `Staking.RedeemAll` | core/staking_verifier.go:254-311 | what is left is max(0, amount - free entries); only the indexed delegations give up entries; locked amounts add up; which index makes it fail |
| `Staking.Credit` | core/staking_verifier.go:323-347 | every entry of the delegator is raised, or one is appended when there is none |
| `Staking.GiftIsAmount` | core/staking_verifier.go:323-347 | what is added is the amount exactly when the delegator has at most one entry |
| `Staking.VerifyDelegate` | core/staking_verifier.go:232-362 | the deduction is max(0, amount - free entries), with the locked amounts it makes up the amount; only the indexed delegations give up entries; addresses are distinct, every wrapper passes the sanity check, and the amount is at least the minimum delegation; and why a message is refused, down to a wrapper on the way that fails the check |
| `StakingState.VerifyCollect` | core/staking_verifier.go:533-568 | every positive reward is taken out once; refused exactly for a bad index or a total that is a multiple of 2^64 |
| `StakingState.RewardsOverlooked` | core/staking_verifier.go:533-568 | collecting rewards of 2^64 is refused as if there were none |
| `StakingState.TwoEntriesMint` | core/evm.go:154-172 | a delegator with two entries delegates, and as much again as it pays appears |
| `StakingState.CreateStores` | core/evm.go:106-119 | a new validator's wrapper holds exactly what leaves its balance |
| `StakingState.CollectSettles` | core/evm.go:288-293 | with distinct validators collecting keeps the total |
| `StakingState.CollectEmpties` | core/evm.go:288-293 | with distinct validators exactly the collected rewards are gone, and nothing else has changed |
| `Staking.DelegatedStakes` | core/staking_verifier.go:254-347 | using up entries and delegating raise the stakes of the delegator by the amount and leave every other stake and reward alone |
| `StakingState.StateDB.CreateValidator` | core/staking_verifier.go:74-127 | succeeds exactly under the checks made; then the wrapper has one delegation, of the validator to itself, with the amount and without reward or unlocking entries; the amount leaves the balance and the total is kept |
| `StakingState.StateDB.DelegateTo` | core/evm.go:154-172 | the stakes of the delegator at the validator rise by the amount and no other stake or reward changes; only the indexed delegations give up entries; the total is kept exactly when the delegator has at most one entry; a refusal changes nothing |
| `StakingState.StateDB.CollectRewards` | core/evm.go:273-317 | exactly the indexed positive rewards move to the balance, and the total is kept; a failure leaves balances alone |
| `StakingState.StateDB.UndelegateFrom` | core/staking_verifier.go:369-411 | the amount moves from the stake into the unlocking entries of the epoch, of the same delegation, and the total is kept; why it is refused |
| `StakingState.CreatedUndelegates` | core/staking_verifier.go:117-119 | right after its creation a validator can undelegate any part of its own stake |
| `StakingState.StateDB.ApplyAll` | core/evm.go:106-317 | any sequence of accepted staking messages keeps the total, one entry per delegator, and non-negative balances; each accepted message has its effect on the state before it, and the first that is not accepted has its reason |
| `Gas.GasPool.SubGas` | core/gaspool.go:39-45 | deducts when enough is left, else changes nothing |
| `Gas.GasPool.AddGas` | core/gaspool.go:29-35 | adds; staying within 64 bits is proved at every call |
| `Gas.CollectedBound` | core/state_transition.go:282-306 | with shares of at most one no more than the fee is collected |
| `Gas.PartBound` | core/state_transition.go:300-305 | a collector's part falls short of its exact share by less than one |
| `Gas.FeesPaid` | core/state_transition.go:282-306 | every account gets what it collects, and nobody else gets anything |
| `Gas.CollectGas` | core/state_transition.go:282-306 | balances become those with the parts of the fee added, and grow by exactly what is collected |
| `Gas.ChargedHalf` | core/state_transition.go:265-280 | what is refunded is the largest amount within the refund counter and half of the gas used |
| `Gas.TransferMoves` | core/evm.go:494-501 | a transfer on this shard takes the value from the sender and gives it to the recipient; one to another shard only takes it; nobody else is touched |
| `Gas.Call` | core/vm/evm.go:283-374 | the ledger is the one the code leaves after the transfer when it succeeds; nothing moves when it fails; value leaves the shard only with a cross-shard transaction; burned value is accounted for |
| `Gas.Execute` | core/state_transition.go:213-280 | the ledger is the one that the code's outcome determines; the total falls by what leaves the shard, by what is burned and by the uncollected fee; at least half of the gas used is charged |
| `Gas.Transition` | core/state_transition.go:178-280 | the pool loses exactly the gas charged; a message is refused exactly under the checks made |
| `Gas.Affordable` | core/state_transition.go:178-240 | a message goes through exactly when its nonce fits, its sender can pay for value and gas, and its gas covers the intrinsic gas and fits into the block |
| `Gas.EachBalance` | core/state_transition.go:213-306 | each account after a message: a failure costs the sender the gas charged and changes nothing else; otherwise the code's ledger stands and the sender gets the unused gas back; the fee goes to its collectors |
| `Gas.IdleTransfers` | core/state_transition.go:213-306 | a message whose code does nothing moves its value from the sender to the recipient, or off the shard, and its intrinsic gas to the collectors, account by account |
| `Gas.TypeSound` | core/state_processor.go:251-267 | a transaction is for another shard exactly when it is of this shard, cross-shard transactions are accepted and that shard exists; and which types are invalid |
| `Gas.LostNotNegative` | core/state_transition.go:282-306 | with shares of at most one and nothing doubled no block gains by its fees |
| `Gas.NothingLost` | core/state_transition.go:282-290 | when the producer takes the fees and nothing is burned or doubled, no message loses anything |
| `Gas.LostExactly` | core/state_processor.go:345-362 | a block loses exactly its uncollected fees and burned value if and only if nothing was doubled, and else less |
| `Gas.CreationDoubles` | core/vm/evm.go:528-528 | a cross-shard contract creation leaves twice its value, with the contract and in a receipt |
| `Gas.Processor.ApplyTransaction` | core/state_processor.go:273-378 | accepted exactly when the type is right, the message is not refused and there would not be two receipts; the ledger, the bill and the receipt are those the code's outcome determines; a message whose code does nothing transfers its value and pays its intrinsic gas, account by account |
| `Gas.ReceiptNames` | core/state_processor.go:350-374 | the receipt of a cross-shard transaction names the recipient and the value of its message; a failed transaction has none |
| `Gas.Processor.ApplyStakingTransaction` | core/state_processor.go:385-425 | accepted exactly when not refused and not failing; ledger and bill as determined |
| `Gas.Processor.ApplyIncomingReceipts` | core/state_processor.go:428-452 | succeeds exactly when every receipt has a recipient; then every account has what its receipts bring, and no more |
| `Gas.Processor.Process` | core/state_processor.go:153-201 | every message leads from one determined ledger to the next and leaves a determined bill, or the first that may not stops the block; the outgoing receipts are those of the bills, and the incoming ones are credited to their recipients; gas left plus gas used is the block limit; total plus outgoing minus incoming falls exactly by what the bills lose, nothing when the producer takes the fees and no message burns or creates across shards |
| `Gas.SendAcross` | core/state_processor.go:350-452 | a cross-shard transfer applied on its shard and then, as a receipt, on the other: the recipient gets what the sender pays, and over both shards only the uncollected part of the fee is lost |
| `Mask.SetKey` | crypto/bls/mask.go:217-223 | marks a committee member and fails for others |
| `Mask.CountUnion` | consensus/view_change.go:499-502 | bitmaps of disjoint signer sets count up to that of their union |
| `ViewChange.AddOwn` | consensus/view_change_construct.go:412-450 | exactly this node's keys in the committee are added, with their signatures |
| `ViewChange.OwnAre` | consensus/view_change_construct.go:412-450 | this node votes with exactly those of its keys that are in the committee |
| `ViewChange.SplitVoted` | consensus/view_change_construct.go:237-375 | signers new to the view keep M1 and M2 disjoint with union M3 |
| `ViewChange.CountsTellM1` | consensus/view_change.go:499-502 | "M2 absent or M3 count above M2 count" holds exactly when a committee member gave an M1 vote |
| `ViewChange.NeedsPayload` | consensus/view_change.go:499-502 | the test as the receiver makes it, on the counted bits |
| `ViewChange.VoteStore.AddViewIDKeyIfNotExist` | consensus/view_change_construct.go:60-81 | the view has its bitmaps, and no vote changes |
| `ViewChange.VoteStore.Reset` | consensus/view_change_construct.go:85-94 | no vote and no payload is left |
| `ViewChange.VoteStore.ProcessViewChangeMsg` | consensus/view_change_construct.go:237-375 | which error, the duplicate-M1 and duplicate-M2 ones never; a first vote is added once as M1 or M2 and once as M3 |
| `ViewChange.VoteStore.InitPayload` | consensus/view_change_construct.go:378-487 | votes with all committee keys unless one of them has voted, then nothing changes |
| `ViewChange.VoteStore.NewViewMessage` | consensus/view_change_construct.go:122-151 | bitmaps mark exactly the signers; the receiver's test is exact for the message |
| `ViewChange.VoteStore.OnViewChange` | consensus/view_change.go:384-450 | the votes of this node and of the sender are recorded, or nothing when the quorum was there before; the leader acts exactly when the message is accepted, the view is changing and the quorum is reached now; it proposes afresh if and only if no prepared payload is held, and then every vote since the reset was NIL, and else resumes with the first payload |
| `ViewChange.VoteStore.Run` | consensus/view_change_construct.go:237-487 | over any sequence of calls the store stays sound and each call does to the votes what it says; none reports a duplicate M1 or M2 |
| `LeaderRotation.Replay` | core/blockchain_leader_rotation.go:73-85 | replaying from the header before the run gives an exact meta |
| `LeaderRotation.Build` | core/blockchain_leader_rotation.go:52-88 | succeeds exactly when some header differs in leader or epoch and all leaders down to it are known; then the meta is exact |
| `LeaderRotation.Advance` | core/blockchain_leader_rotation.go:91-113 | one more header keeps the meta sound, and exact past epoch 0 if it was tracked |
| `LeaderRotation.CountGivesFour` | consensus/consensus_v2.go:712-726 | a count of four means the last four headers are in the epoch of the head |
| `LeaderRotation.QuotaIsShare` | consensus/consensus_v2.go:712-716 | a leader may produce its share of the epoch's blocks in a row, and four in any case |
| `LeaderRotation.CountFallsShort` | core/blockchain_impl.go:1685-1694 | restarted in epoch 1 without rotation, one block is counted of two in a row |
| `LeaderRotation.ExactAfterGap` | core/blockchain_impl.go:1685-1694 | a meta that never saw the first headers is exact exactly when some header it saw differs from the last it did not see |
| `LeaderRotation.CountedNext` | core/blockchain_leader_rotation.go:91-113 | each insertion keeps the meta exact on the headers it saw, and leaves it alone in epoch 0 |
| `LeaderRotation.SetMask` | crypto/bls/mask.go:113-134 | a reused mask ends up equal to the bitmap on all members |
| `LeaderRotation.FitsBytes` | crypto/bls/mask.go:106-120 | a bitmap fits exactly when it is a whole number of bytes that holds all members, with less than a byte to spare |
| `LeaderRotation.Aliveness` | consensus/consensus_v2.go:747-777 | a candidate is skipped exactly when it signed none of the last four commits |
| `LeaderRotation.Select` | consensus/consensus_v2.go:728-785 | the first candidate that is not silent, or the fallback with the reason |
| `LeaderRotation.Blockchain.Open` | core/blockchain_impl.go:365-369 | startup fails exactly when rotation is active and the rebuild fails; else the meta is exact when rebuilt and empty when not |
| `LeaderRotation.Blockchain.InsertChain` | core/blockchain_impl.go:1685-1694 | past epoch 0 the meta is exact if it saw every header, and otherwise exactly when some header it saw differs from the last it did not see; in epoch 0 it stays as at startup |
| `LeaderRotation.Blockchain.Run` | core/blockchain_impl.go:1663-1702 | succeeds exactly when epochs do not fall and all leaders asked for can be read; then the chain is extended by all blocks and the meta is as after InsertChain |
| `LeaderRotation.Blockchain.RotateLeader` | consensus/consensus_v2.go:679-785 | selection is reached only with four headers of the current epoch; the key returned is enabled in one of their bitmaps |
| `Sections.WholePath` | core/chain_indexer.go:395-425 | a stored head lies on one parent-linked path from genesis with exactly sectionSize headers for each section |
| `ChainIndexer.Indexer.HeadsOnOneChain` | core/chain_indexer.go:430-435 | with no removal under way and none exposed, every stored head lies on one chain from genesis |
| `Removal.RemovesExactly` | core/chain_indexer.go:466-479 | by itself a removal deletes exactly the heads from the new count on |
| `Removal.TurnSound` | core/chain_indexer.go:466-479 | every step of a removal by itself, or of two harmless ones, keeps the store sound |
| `Removal.ResetWithin` | core/chain_indexer.go:400-403 | from any overlap with a reorganisation that keeps sections, a schedule after which the counter has wrapped or the sections counted are gone |
| `Removal.Overtaken` | core/chain_indexer.go:473-477 | two decrements before either deletion leave a head behind |
| `Removal.BothPass` | core/chain_indexer.go:473-477 | from any overlap of two removals down to nothing with sections counted, a schedule in which both pass the comparison and the counter wraps or a head is left behind |
| `Removal.ResetInsideReorg` | core/chain_indexer.go:400-403 | two sections, a reorganisation that keeps one, the reset in between: one section counted and no head stored |
| `Removal.BothCompareFirst` | core/chain_indexer.go:473-477 | one section and a reorganisation that keeps none: both compare, both decrement, and the counter is 2^64 - 1 with the head still there |
| `Removal.OverlapExact` | core/chain_indexer.go:466-479 | every interleaving of an overlap goes well, the counter not wrapping and the heads contiguous at the end, if and only if the reorganisation keeps no section and the counter is at zero when the second removal starts |
| `ChainIndexer.Indexer.NewHeadEvent` | core/chain_indexer.go:248-309 | a new head announces the largest number of sections with all headers confirmed, if more than known; a reorganisation takes back the section its head lies in and all above, and starts to remove them if any is stored; it exposes an overlap exactly when a reset removal is under way |
| `ChainIndexer.Indexer.ReorgStep` | core/chain_indexer.go:264-281 | one step of that removal; at its end the cascaded head is lowered |
| `ChainIndexer.Indexer.BeginSection` | core/chain_indexer.go:326-345 | the next section is taken up with the head before it |
| `ChainIndexer.Indexer.ResetFailure` | core/chain_indexer.go:400-403 | a removal of everything starts without the lock, and exposes an overlap exactly when one of a reorganisation is under way that keeps sections or has sections left |
| `ChainIndexer.Indexer.ResetStep` | core/chain_indexer.go:400-403 | one step of that removal; at its end the section has failed |
| `ChainIndexer.Indexer.ProcessHeader` | core/chain_indexer.go:405-419 | a header extends the path, or the job fails |
| `ChainIndexer.Indexer.FinishSection` | core/chain_indexer.go:356-377 | a section is stored only if the head before it is unchanged, is then the next one, and overwrites nothing; else nothing stored changes |
| `ChainIndexer.NeverExposed` | core/chain_indexer.go:248-425 | without a failed reset, or without a reorganisation, no overlap is exposed |
| `ChainIndexer.HeadFaithfulExactly` | core/chain_indexer.go:248-309 | told of a head or a reorganisation, the stored and about to be stored heads stay canonical if and only if the reorganisation does not fall into the section just read |
| `ChainIndexer.NextFaithful` | core/chain_indexer.go:248-425 | the same for every step, of the indexer or of the chain |
| `ChainIndexer.FaithfulRun` | core/chain_indexer.go:248-425 | over any run in which none slips through, every stored head that no reorganisation still has to remove is canonical |
| `ChainIndexer.FaithfulCanonical` | core/chain_indexer.go:430-435 | with nothing left to tell or to remove, every stored head is the hash of the last header of its section on the canonical chain |
| `ChainIndexer.SlipStores` | core/chain_indexer.go:356-367 | whatever slips through is stored by the next step, with nothing left to tell the indexer of it |
| `ChainIndexer.SlipsThrough` | core/chain_indexer.go:255-268 | two headers read, the second replaced, the indexer told: the head of the old one is stored |
| `ChainIndexer.ShallowRun` | core/chain_indexer.go:286-289 | nothing slips through in runs whose reorganisations replace no more headers than the required confirmations |
| `ChainIndexer.Indexer.Run` | core/chain_indexer.go:248-425 | every step leads to the state that a function of the state gives; heads are present exactly below storedSections and consecutive ones joined by sectionSize headers whenever no removal is under way, unless the run itself met an overlap from which some interleaving breaks that; without a failed reset it meets none |
| `DelegationIndex.AddDelegationIndex` | core/blockchain_impl.go:3206-3237 | a listed validator, or one that holds nothing of the delegator, leaves the index alone; else the delegator's position is appended |
| `DelegationIndex.Ineffective` | core/state_processor.go:377-377 | a delegation that was reverted leaves the index right |
| `DelegationIndex.Created` | core/blockchain_impl.go:3103-3127 | a validator's own entry repeats exactly when it delegated to itself earlier in the block |
| `DelegationIndex.ExecutedInOrder` | core/blockchain_impl.go:3071-3145 | messages that could be executed in order meet the condition |
| `DelegationIndex.OutOfOrder` | core/blockchain_impl.go:3071-3145 | the condition can fail for a list of messages, though for none that could be executed |
| `DelegationIndex.PrepareStakingMetaData` | core/blockchain_impl.go:3071-3169 | refused exactly for a validator created twice or a missing wrapper; every delegator's index after the block is exact when the messages could be executed in order, and in general if and only if its own are in order; old entries stay a prefix, and new ones carry the number of the block |
| `HeaderChain.WalkCanonical` | core/headerchain.go:300-304 | on the canonical chain following parents leads where the numbers say |
| `HeaderChain.GetAncestor` | core/headerchain.go:289-318 | agrees with following parents, within the budget of non-canonical steps, if and only if the hash is not zero, or its number is canonical, or the distance is at most one or too far |
| `HeaderChain.ZeroHashTaken` | core/headerchain.go:289-318 | the zero hash above the head is given genesis as an ancestor |
| `Numerals.SetStringDecimal` | accounts/hd.go:101-104 | scanning a printed number with base detection gives the number |
| `Numerals.SetStringPrefixed` | accounts/hd.go:101-104 | so do hexadecimal, octal and binary numbers with their prefixes |
| `DerivationPath.JoinSplit` | accounts/hd.go:72-72 | joining what was split gives the string |
| `DerivationPath.SplitJoin` | accounts/hd.go:72-72 | splitting what was joined gives the components |
| `DerivationPath.ComponentPadded` | accounts/hd.go:92-99 | white space around a component is ignored |
| `DerivationPath.ComponentShow` | accounts/hd.go:92-115 | a printed component reads back, on both sides of 2^31 |
| `DerivationPath.ComponentRange` | accounts/hd.go:105-115 | a number is in range up to 2^32 - 1, a hardened one up to 2^31 - 1, and refused beyond |
| `DerivationPath.RelativePath` | accounts/hd.go:72-90 | a relative path means the absolute one under m/44'/60'/0'/0 |
| `DerivationPath.LeadingSlash` | accounts/hd.go:77-78 | a path with nothing but white space before its first slash is refused as ambiguous |
| `DerivationPath.ParseDerivationPath` | accounts/hd.go:68-118 | computes what the path string means |
| `DerivationPath.ToString` | accounts/hd.go:122-136 | prints the path |
| `DerivationPath.RoundTrip` | accounts/hd.go:68-136 | parsing a printed 32-bit path gives it back; only the empty path is refused |
| `DerivationPath.ParsedPrints` | accounts/hd.go:68-136 | whatever parses is a non-empty 32-bit path that survives printing |
| `DerivationPath.PrintInjective` | accounts/hd.go:122-136 | different paths print differently |

## Left out

- Lists inside the pool: `Pool.TxPool` holds list values, which `AccountList.TxList` is proved to implement; sharing and
  update in place of the list objects within the pool are not captured.
- Nonces, gas counters and counts are unbounded; 64-bit width is modelled only where it matters
  (`Gas.GasPool.AddGas`, `StakingState.VerifyCollect`, and the section counter in `Removal.Move`).
- Pool journal, error sink, metrics, event feeds and heartbeats: eviction and truncation take accounts in any order.
- The checks of `validateTx` on shard, size, value, signature, allow and block lists and intrinsic gas are an arbitrary
  predicate; those on gas, nonce, price, funds and staking are modelled (`Pool.Admissible`).
- Finding the discarded transactions of a reorganisation: `Pool.TxPool.Reset` is given them.
- `VerifyAndMigrateFromMsg`, editing a validator, reward distribution, slashing and the staking logs.
- Wrapper sanity checks are an arbitrary predicate; wrapper fields other than the delegations are one number.
- Snapshots and reverts: a failing staking message makes its block invalid, so what it left behind is not described
  beyond the balances.
- Balance migration, shard reduction, finalising a block and the result cache of `Process`.
- Signature aggregation and verification, message parsing and timers of the view change; agreement across views.
- Mask bytes: a mask is a sequence of bits, in `LeaderRotation` with the bits of whole bytes.
- Rollback of the chain for the rotation counter; a leader key that cannot be read ends the guarantee. A rebuild in
  epoch 0 stays as it was until epoch 1.
- Loads and stores within one decrement of the section counter.
- Checkpoints, child indexers and the throttled rescheduling of the chain indexer.
- Reading and writing the delegation index in the database.
- JSON forms of derivation paths and the default path constants other than the root.
