# A verified model of the block pool and the account ledger

The project models the heart of a small blockchain node and proves properties of it. Two data
structures carry the node: a tree of forked chains in memory over the chain on disk, one tree for
the snapshot chain and one per account, and a ledger of accounts that send money to each other.

* **The pool** (`pool/bc_pool.go`). `Blocks` and `ForkTree` hold the data model: a pool is the disk
  chain, the forked chains with their reference to a parent chain or to the disk, and the current
  chain. What a chain *means* at a height is the block found by looking through its own blocks, then
  its parent's, then the disk. `PoolSteps`, `PoolMachine` and `PoolRuns` are the operations as steps of a
  state machine and what every run keeps. `Rerooting`, `RerootingExact`, `TailHashes` and `ForkSwitch` are about
  making another branch current; `PoolExamples` has runs on which that goes wrong. `Attach`, `Verdicts`, `AppendLoop`, `Placing`, `SnippetChains`, `AppendChains`, `SnippetAssembly` and `SnippetOrder` are about gluing
  loose blocks into snippets and hanging those into the tree. `ChainPools` has the pool as the
  source has it, objects with fields and pointers, each method proved to do what the value-level
  step does.
* **The ledger** (`verifier/`, `chain/`, `store/`, `ledger/`). `Accounts` and `AccountVerdicts` are the verifier's decision, `Conservation`
  the money, with an input in `LedgerExamples`, `CausalCut` the rollback of accounts to a snapshot, `Worklist` and `RollbackSets` the sets of accounts
  that have to be rolled back together, `DragPaths` what the search for them returns, `AccountForks` the two put together as a snapshot fork does, with runs in `ForkExamples`. `Stores`, `AccountChains` and `SnapshotChains` are the stored chains, `SnapshotLocks` and
  `SnapshotVerifiers` the points by which snapshots lock account blocks, with inputs in `LockExamples`, `Requests` the index of unreceived sends.
* **The schedule** (`consensus/hdpos.go`). `Schedule` is the round-robin of block producers.

The model follows the code where code and evident purpose differ. Where a property does not hold of
the code, there is an exact condition for it, and an input that shows it fail:

* `modifyRefer` re-reads the bound that its own first turn has moved, so it moves at most one block.
  Re-rooting keeps what every chain means exactly when each hop has a tail gap of 0 or 1
  (`RerootingExact.RerootKeepsExactly`, `LongHopExample`); read once, the bound would allow any gap (the `once` argument).
* A switch does not ask where its target's root stands. It keeps the invariant exactly when that root is complete
  and has its tail at the disk's head (`PoolMachine.SwitchKeepsInvExactly`, `ForkSwitch.WholeSwitch`); a chain left aside by a
  direct insertion is found and made current all the same (`PoolExamples.SwitchBackToAside`, `SwitchToOvertakenChain`).
* `sameChain` takes the head block of a chain for granted. A pool with nothing stored has none
  (`Attach.NilHeadExactly`, `FreshPoolCrashesExactly`, `AppendLoop.NeverCrashesExactly`, `FreshPoolCrashes`).
* A rollback changes what a chain means if the chain does not rest on current and reads the disk above
  the new head (`PoolRuns.RollbackKeepsExactly`, `PoolExamples.RollbackDisturbsAside`).
* `forkChain` does not set `tailHash`. After a switch to such a fork at the disk's head, current has no tail
  hash, and the check at the end of a rollback fails (`TailHashes.SwitchedForkHasNoTailHash`, `PoolExamples.SwitchBackFails`).
* `tryInsert` drops a block whose height lies inside another snippet (`SnippetAssembly.GatherDropsExactly`, `TwinIsDropped`).
* The verifier does not look at who a received send is addressed to (`Accounts.InsertKeepsOkExactly`,
  `Conservation.StrangerReceiveIsAccepted`).
* The lookup for an earlier receive skips an account's first block, and looks in the account the block names as
  receiver, which need not be its signer. So what opened an account can be received once more, and so can anything
  under another name (`Conservation.InsertKeepsOnceExactly`, `InsertConservesExactly`, `RepeatIsAccepted`,
  `LedgerExamples.MisnamedReceiveIsAccepted`). Where the request index is kept, its callback then finds no request under that
  name and dereferences nil, after the block is stored (`LedgerExamples.MisnamedReceiveCrashesTheIndex`).
* `findAccountAboveSnapshotHeight` finds nothing for an account opened above the snapshot, and the caller
  dereferences nil (`CausalCut.CutPointExists`, `AccountForks.CollectTasks`, `ForkExamples.OpenedAboveTheFork`).
* `getWaitRollbackAccounts` returns the height met last per account, not the lowest, and dereferences a
  missing receive before it tests for one (`DragPaths.ReturnedIsClosedExactly`, `ReturnedAboveExactly`, `RollbackSets.ReturnedMoneyIsRolledBackTooHigh`). The rollback
  then keeps the receive whose send it removed (`RollbackSets.DraggedAccountsKeepOrphans`).
* So the account side of a snapshot fork rolls back to the causal cut exactly when no account sent anything above
  the fork point: a received send leaves its receiver too high, an unreceived one dereferences nil
  (`AccountForks.ForkRollsBackToCutExactly`, `ForkSetExists`, `ForkExamples.SendAboveTheFork`).
* `removeChain` of an account leaves the removed block as the head: a pool's rollback of an account fails its
  final check after every real removal, and reads through the head dereference nil until the next insert
  (`AccountChains.RollbackStopsAtLock`, `StaleAfterRemoval`, `LockExamples.HeadAfterRemoval`, `StaleOfferCrashes`). That also ends the
  collection of a fork's tasks and the search for receives (`AccountForks.CollectTasks`, `Worklist.GetWaitRollbackAccounts`,
  `ForkExamples.HeadNoLongerStored`, `ReceiverNoLongerFound`), has the switch after a rollback refused
  (`ForkSwitch.AccountForkIsRefused`), and makes the verifier reject what continues the stored chain
  (`AccountChains.StaleHeadMisleads`, `LockExamples.StaleHeadAccepts`).
* `RollbackSnapshotPoint` pops at most one point when it is called with the top of the stack and a point below it
  (`AccountChains.RollbackPointsExactly`, `SnapshotLocks.ForkKeepsMatchedExactly`, `LockExamples.TwoPointsStay`).
* `getUnlockAccountSnapshot` always takes the head's points off, also when the fork point is the head or above and nothing is
  removed; and where only genesis is stored, whose points were never put on, every unlock is refused
  (`SnapshotLocks.ForkKeepsMatchedExactly`, `LockExamples.HeadIsUnlockedToo`, `GenesisStopsForks`).
* A snapshot block that verifies can still be refused by an account's stack, after it was stored
  (`SnapshotVerifiers.VerifiedIsAcceptedExactly`, `LockExamples.VerifiedBelowLock`). The pool is then told of an error and does not
  know of the block it has on disk (`ChainPools.InsertLoopIsSafe`).
* `getReqs` lists sends that were rolled back along with those not received, and brings a send back when a receive of it
  leaves, whether or not it is there and not received otherwise (`Requests.TellsTruthExactly`, `SendRemovedFirst`,
  `OneOfTwoReceivesRemoved`, `RolledBackSendIsOpen`).
* `time2Index` is wrong before genesis off the round boundaries, and where a round's start no longer fits
  32 bits (`Schedule.LookupIsRightExactly`, `WrongLookups`).

A block universe is assumed wherever hashes are compared: a hash names one block. Run
`dafny verify dfyconfig.toml` to verify the project.

## Model

| member | source | states |
|---|---|---|
| ForkTree.AgreeBelow | pool/bc_pool.go:211-220 | Two complete chains that share a block share everything below it. |
| ForkTree.LookupSplits | pool/bc_pool.go:211-220 | A lookup reads the disk exactly at or below the lowest tail on the way there. |
| Rerooting.SwapMovesAllIff | pool/bc_pool.go:310-318 | One swap moves every block above the parent's tail exactly when at most one has to move, or the bound is read once. |
| Rerooting.RerootKeeps | pool/bc_pool.go:294-308 | When every hop fits, re-rooting ends, keeps the tree well-formed and acyclic, keeps every chain's logical sequence, and leaves the target on the disk with the lowest tail met. |
| Rerooting.RerootRoot | pool/bc_pool.go:301-304 | After re-rooting, the whole tree of the target rests on it, and every other tree rests where it did. |
| Rerooting.RerootSteps | pool/bc_pool.go:301-304 | Each turn of the loop shortens the way to the disk: the walk terminates. |
| RerootingExact.RerootKeepsExactly | pool/bc_pool.go:294-318 | Re-rooting keeps what every chain means if and only if each hop's tail gap fits: between 0 and 1 as written, any non-negative gap with the bound read once. |
| RerootingExact.LongHopLoses | pool/bc_pool.go:311-315 | With a gap of two or more the target loses the block below its new tail. |
| RerootingExact.RisingHopTakes | pool/bc_pool.go:311-317 | With a negative gap the parent starts to read the child's blocks. |
| RerootingExact.LongHopExample | pool/bc_pool.go:311-315 | A pool in which the switch loses a block. |
| PoolMachine.InsertContinues | pool/bc_pool.go:477-492 | Inserting on any chain leaves every complete chain complete and unchanged up to its old head. |
| PoolMachine.WriteContinues | pool/bc_pool.go:587-601 | Writing current's lowest block to disk changes what no complete chain means. |
| PoolMachine.PopToContinues | pool/bc_pool.go:548-562 | A rollback, also one cut short, changes what no chain resting on current means. |
| PoolMachine.DirectContinues | pool/bc_pool.go:574-585 | A block written past the pool, and the notification after it, leave every complete chain as it was. |
| PoolMachine.DirectExactly | pool/bc_pool.go:574-585 | The current chain moves up to the new block if and only if it is empty; otherwise it stays as it is, and a new empty chain at that block becomes current. |
| PoolMachine.KeptContinues | chain/chain.go:115-128 | A block stored by an insertion that then reports an error leaves every complete chain as it was, and current no longer at the disk's head. |
| PoolMachine.ForkContinues | pool/bc_pool.go:70-82 | Forking a new chain off leaves every complete chain as it was. |
| PoolMachine.ForkIsSound | pool/bc_pool.go:70-82 | The new chain is complete and linked through its parent down to the disk. |
| PoolMachine.SwitchKeepsInvExactly | pool/bc_pool.go:294-308 | Over fitting hops an accepted switch keeps the invariant if and only if the target's root has its tail at the disk's head and every chain on that root is complete; the code asks for neither. |
| PoolMachine.AskedKeepsInvExactly | pool/bc_pool.go:294-308 | The same whatever block the store answers as its head. |
| PoolMachine.SwitchContinues | pool/bc_pool.go:294-308 | Over fitting hops a switch goes through and leaves every complete chain as it was, whatever its target. |
| PoolRuns.StepKeepsInvExactly | pool/bc_pool.go:285-326 | Every insert, fork, write, rollback and direct insert keeps the invariant: blocks fill exactly (tail, head], are hash-linked, current rests on the disk with its tail at the disk head. A switch over fitting hops does if and only if it is safe. |
| PoolRuns.RunStaysExactly | pool/bc_pool.go:477-601 | A run over fitting hops stays within the invariant if and only if each of its switches is safe. |
| PoolRuns.EveryRunKeepsInv | pool/bc_pool.go:477-601 | The invariant holds after any run of inserts, forks, writes, rollbacks, direct inserts and safe switches. |
| PoolRuns.ReachableFromInit | pool/bc_pool.go:285-292 | So it holds in every state such a run reaches from the one `init` sets up over any linked disk. |
| PoolRuns.StepContinues | pool/bc_pool.go:294-318 | A step that does not roll a complete chain back leaves it as it was up to its old head, a switch over fitting hops also when it is not safe. |
| PoolRuns.EveryRunContinues | pool/bc_pool.go:477-601 | Over any such run a complete chain that no rollback disturbs goes on exactly as it was up to its old head. |
| PoolRuns.RollbackKeepsExactly | pool/bc_pool.go:548-562 | A rollback to n keeps a chain's logical sequence if and only if the chain rests on current, reads no disk above n, or nothing is rolled back. |
| PoolRuns.RewriteContinues | pool/bc_pool.go:587-601 | Writing the lowest k blocks changes what no complete chain means. |
| PoolRuns.RewriteRestores | pool/bc_pool.go:548-601 | Writing back what a rollback returned restores disk and memory, up to current's tail hash, which ends as the disk head's. |
| PoolRuns.RollbackThenWriteExactly | pool/bc_pool.go:548-601 | Rollback and write are inverse if and only if current's tail hash named the disk head before. |
| TailHashes.StepKeepsTailNamed | pool/bc_pool.go:73-77 | Every step keeps an undisturbed complete chain's tail hash either unset or the hash of the block at its tail; of a switch only fitting hops are asked. |
| TailHashes.NewChainIsNamed | pool/bc_pool.go:70-82 | So does a chain when it is created. |
| TailHashes.CurrentTailHash | pool/bc_pool.go:563-570 | Current's tail is at the disk head, and its tail hash names the disk head exactly when it is set. |
| TailHashes.SwitchedForkHasNoTailHash | pool/bc_pool.go:73-77 | After switching to a fork taken at the disk head, current's tail hash is unset. |
| ForkSwitch.ForkPointIsGreatestCommon | pool/bc_pool.go:970-997 | The downward scan finds a fork point exactly when the chains share a block, and they agree at every height at or below it and at none above, up to current's head. |
| ForkSwitch.PassesExactly | pool/bc_pool.go:563-570 | The rollback's own check passes if and only if something is cut, or current's tail hash named the disk's head before. |
| ForkSwitch.WholeSwitch | pool/snapshot_pool.go:65-102 | For any target with a fork point, over hops that fit once the disk is cut, told from the pool before: nil is dereferenced exactly when the target has nothing above the fork point; else the switch fails exactly when nothing is cut and the tail hash does not name the head, is refused exactly when nothing is cut and the target lacks the head, and otherwise the target is current, the disk is the prefix up to the lower of head and fork point, every complete chain on current or reaching the disk below the cut goes on, every block rolled back is still held by the losing chain, and the invariant holds if and only if the target rests on current or its root stands complete at the cut. |
| ForkSwitch.CompleteTargetHoldsHead | pool/snapshot_pool.go:65-102 | A complete target is never refused. |
| ForkSwitch.DirectForkExactly | pool/snapshot_pool.go:65-102 | For a fork taken directly off current, the switch keeps every chain's meaning if and only if the fork point is at most one above the disk head. |
| ForkSwitch.PathForkExactly | pool/snapshot_pool.go:65-102 | For any way of real forks down to current, the re-rooting after the rollback keeps every chain's meaning if and only if the hops fit once current's tail is lowered to the cut. |
| ForkSwitch.AccountForkIsRefused | pool/pool.go:262-270 | Once the rollback of an account to the fork point has removed anything, the switch after it is refused, unless the target ends at the fork point: the store answers the block removed last, and the target has another there. |
| PoolExamples.SwitchToOvertakenChain | pool/snapshot_pool.go:65-102 | A run from a fresh pool after which a switch to a chain left aside goes through, current's tail hash is not the disk's head, and the next write breaks the links of the disk. |
| PoolExamples.SwitchBackToAside | pool/bc_pool.go:294-308 | A run after which a switch leaves current's tail one below the disk's head. |
| PoolExamples.RollbackDisturbsAside | pool/bc_pool.go:548-562 | A run after which a rollback takes a block from a complete chain. |
| PoolExamples.SwitchBackFails | pool/snapshot_pool.go:91-95 | A run after which every switch with nothing to cut fails on the empty tail hash. |
| PoolExamples.LongHopIsReached | pool/bc_pool.go:311-315 | The pool in which a switch loses a block is reached by three insertions and a fork. |
| Attach.ForkyMeans | pool/bc_pool.go:354-450 | Whatever chains are offered, complete or not. Insertable: the trimmed snippet starts at the chain's head height, and continues it if the chain is complete or nothing was trimmed. Fork: it starts above a common block with a differing first block. Every block trimmed away is in that chain at its height. |
| Verdicts.ForkyExactly | pool/bc_pool.go:354-450 | Exactly when each verdict is given, and what it leaves of the snippet, told from the blocks. The first chain in the order that is not passed over decides: it is appended to if and only if the snippet begins at its head or holds its head below its own; forked from if and only if its head lies within the snippet and is another block, and its own blocks share the one the snippet stands on and then differ somewhere above, with equal blocks in between; nil is dereferenced if and only if it has no block there. If all are passed over, current decides likewise through its references, and otherwise the snippet is unplaced. |
| Verdicts.VerdictIsUnique | pool/bc_pool.go:354-450 | There is one verdict for a snippet, and one rest of it. |
| Attach.NilHeadExactly | pool/bc_pool.go:412-420 | A turn dereferences nil if and only if it passes over some chains and then comes to one whose head lies within the snippet, does not end where the snippet begins, and has no block there. |
| Attach.NoHeadMeans | pool/bc_pool.go:207-220 | A chain has a block at its head if and only if it holds one in memory on the way down, or the disk has one there. |
| Attach.SafeForEverySnippet | pool/bc_pool.go:354-420 | A turn is safe for whatever snippet comes if and only if every chain offered has a block at its head. |
| Attach.FreshPoolCrashesExactly | pool/bc_pool.go:354-420 | On the pool of an account with nothing stored, nil is dereferenced if and only if the snippet starts at height 0 without the empty hash below it; otherwise such a snippet is appended. |
| Attach.MatchUpTrims | pool/bc_pool.go:422-450 | The fork-point search only removes blocks the chain has, from the bottom, and keeps the rest. |
| Attach.CutMeans | pool/bc_pool.go:398-408 | Cutting a snippet leaves exactly its blocks above the height. |
| Attach.InsertSnippetAppends | pool/bc_pool.go:452-468 | After an append verdict the snippet is used up and the chain grows by exactly its blocks. |
| Attach.InsertSnippetContinues | pool/bc_pool.go:452-468 | All of it or up to a refusal, inserting keeps the invariant and every complete chain. |
| Attach.PlaceContinues | pool/bc_pool.go:805-825 | One turn of the append loop keeps the invariant and every complete chain, whatever the verdict, the chains offered and the hashes. |
| Placing.InsertSnippetExactly | pool/bc_pool.go:452-468 | A chain takes all of a snippet that begins at its head height, and is then extended by exactly its blocks, if and only if the hash below it is the head's; otherwise it takes none. |
| Placing.PlaceExactly | pool/bc_pool.go:805-825 | One turn, by its verdict: the chain appended to is extended by exactly the trimmed blocks; a fork is one more chain, on the parent, with exactly the trimmed blocks, and is offered from then on; otherwise the pool is as it was. What was not placed stays in the table. |
| Placing.AppendAllLoops | pool/bc_pool.go:795-827 | The whole loop goes turn by turn as the verdicts over the pools in between say, up to its end or a nil dereference. |
| Placing.LoopsMemory | pool/bc_pool.go:795-827 | At the end of any loop that goes so, memory holds what it held before and exactly the trimmed blocks of the snippets placed; the disk is as it was. |
| Placing.NothingIsLost | pool/bc_pool.go:795-827 | Over complete chains every block of the pool and of the snippets is in the pool at the end, or in a snippet that is left in the table. |
| AppendLoop.AppendAllContinues | pool/bc_pool.go:795-827 | So does the whole loop over any snippets in any order, however it ends; chains forked on the way are tried as well. |
| AppendLoop.NeverCrashesExactly | pool/bc_pool.go:795-827 | Whatever snippets come, the loop runs to its end if and only if every chain offered has a block at its head. |
| AppendLoop.FreshPoolCrashes | pool/bc_pool.go:412-420 | A first block of a new account on which the loop of a fresh pool dereferences nil. |
| AppendLoop.ForksFromTried | pool/bc_pool.go:354-391 | A fork is only taken from current or from a chain that was offered. |
| SnippetAssembly.GatherKeeps | pool/bc_pool.go:739-748 | For any order of pending blocks, gathering keeps every snippet gap-free, linked and disjoint from the others, loses no block and invents none. |
| SnippetAssembly.GatherDropsExactly | pool/bc_pool.go:1026-1038 | A pending block ends up in no snippet if and only if at its turn some snippet has it strictly between tail and head, and neither that snippet nor one before it begins on top of the block. |
| SnippetAssembly.TwinIsDropped | pool/bc_pool.go:1026-1038 | Three pending blocks the last of which is dropped. |
| SnippetAssembly.DistinctHeads | pool/bc_pool.go:1014-1024 | Different snippets have different heads, so the head table loses none. |
| SnippetAssembly.LoopGenSnippetChains | pool/bc_pool.go:730-769 | The two loops together end, and what they leave is assembled. |
| SnippetAssembly.AssemblyMeans | pool/bc_pool.go:750-767 | Assembled: each snippet in the table is gap-free and linked, none ends where another begins, and the gathered blocks are all there, each in one. |
| SnippetOrder.NothingIsDropped | pool/bc_pool.go:739-748 | With no two blocks at one height gathering loses no block, whatever the order. |
| SnippetOrder.OrderDoesNotMatter | pool/bc_pool.go:730-769 | And the snippets left after the whole pass are the same for every order. |
| SnippetChains.SnippetChain.Merge | pool/bc_pool.go:195-201 | Merging puts the other snippet's blocks below and takes over its tail. |
| SnippetChains.SnippetChain.CutTo | pool/bc_pool.go:398-408 | The loop leaves what the value-level cut says. |
| SnippetChains.FindForkPoint | pool/bc_pool.go:422-450 | Walking the pool's objects, trims in place to what the value-level search leaves and returns the chain's block at the new tail exactly when it forks there. |
| SnippetChains.ForkyOf | pool/bc_pool.go:354-397 | The loop over the pool's chains reaches the value-level verdict, the nil dereference included, trims in place accordingly and leaves the pool alone. |
| SnippetChains.InsertSnippetInto | pool/bc_pool.go:452-468 | The loop moves block after block from the snippet into the pool as the value-level insertion says. |
| AppendChains.PlaceOne | pool/bc_pool.go:805-825 | One turn on the objects: pool, chains offered next, snippet and whether it stays in the table are as the value-level turn says. |
| AppendChains.LoopAppendChains | pool/bc_pool.go:795-827 | The whole loop on the objects ends with the pool the value-level loop ends with, dereferences nil exactly where that does, and leaves the same snippets. |
| ChainPools.ChainPool.constructor | pool/bc_pool.go:285-292 | The new pool shows as the initial state. |
| ChainPools.ChainPool.GetBlock | pool/bc_pool.go:211-220 | Following references finds what the chain means at the height. |
| ChainPools.ChainPool.InsertBlock | pool/bc_pool.go:477-492 | Does the insert step, and says whether the block was accepted. |
| ChainPools.ChainPool.ForkChain | pool/bc_pool.go:70-82 | Does the fork step. |
| ChainPools.ChainPool.WriteToChain | pool/bc_pool.go:587-601 | Does the write step when the store takes the block; when the store keeps it in error the disk has it and the pool does not know; otherwise nothing changes. |
| ChainPools.ChainPool.InsertNotify | pool/bc_pool.go:574-585 | Does the notify step: an empty current moves up or a new chain becomes current. |
| ChainPools.ChainPool.ModifyRefer | pool/bc_pool.go:310-318 | The pointer-reversing loop does the value-level swap, as written, or dereferences nil exactly where that cannot run. |
| ChainPools.ChainPool.CurrentModifyToChain | pool/bc_pool.go:294-308 | Does the switch step against the block the store answers as its head, the disk's or the one removed last: refuses without a change, or ends with the target on disk and current; dereferences nil exactly where the value-level step does. |
| ChainPools.ChainPool.Rollback | pool/bc_pool.go:548-572 | For any removals the store refuses, rolls back to the first refusal, and reports success exactly when it got to the height, the tail hash names the disk head, and the store does not still answer with a block it removed, as an account's does. |
| ChainPools.ChainPool.GetForkPoint | pool/bc_pool.go:970-997 | The scan ends and returns the fork point's block and the block above it. |
| ChainPools.ChainPool.LongestChain | pool/bc_pool.go:940-955 | The highest chain if more than four above current, else current. |
| ChainPools.ChainPool.CheckFork | pool/snapshot_pool.go:55-63 | Tries a fork exactly when some chain is more than four above current, to the highest, with the value-level outcome. |
| ChainPools.ChainPool.ForkTo | pool/snapshot_pool.go:65-102 | The sequence of scan, account side, rollback and switch has the value-level outcome, the nil dereferences included; an account side that fails leaves the pool untouched. |
| ChainPools.ChainPool.AddDirectBlock | pool/bc_pool.go:770-794 | Does the direct step exactly on a success verdict for a block the store takes; one kept in error is on disk and the pool is not told. |
| ChainPools.ChainPool.SnapshotTryInsert | pool/snapshot_pool.go:129-174 | Writes exactly the unbroken streak of verified blocks taken in above the tail, and one block more, on disk only, if the streak ends at one kept in error. |
| ChainPools.ChainPool.TryInsert | pool/account_pool.go:204-250 | The same for the account pool's loop. |
| ChainPools.InsertLoopIsSafe | pool/snapshot_pool.go:129-174 | For any verdicts, version bumps and store answers: the disk grows by the contiguous run of good blocks from tail + 1, and by one kept in error if the run ends there; it stays linked, every complete chain goes on, and the invariant holds if and only if no block was kept in error; such a block is offered again. |
| ChainPools.DirectErrorBreaks | chain/chain.go:115-128 | A direct insertion that ends in a store error leaves disk and chains linked and the invariant broken. |
| ChainPools.StopsAtFirstRefusal | pool/bc_pool.go:551-558 | A rollback stops at the highest refused height. |
| Accounts.SuccessIsVerified | verifier/account_verifier.go:103-163 | A success verdict means each part succeeded and the snapshot is known. |
| AccountVerdicts.VerdictExactly | verifier/account_verifier.go:37-163 | All three verdicts, told from ledger and block. Fail if and only if the block breaks a rule against its signer's head or opens an account it may not, or has received its source before, or the block stored at the source's place has another hash, refers to a higher snapshot or has another amount. Pending if and only if it does not fail and the source or the snapshot is not stored. Success otherwise. |
| AccountVerdicts.EarlyReceiveWaits | verifier/account_verifier.go:222-255 | A receive whose send has not arrived yet is pending. |
| Accounts.InsertKeepsOkExactly | verifier/account_verifier.go:37-84 | Inserting a verified block keeps the ledger well-formed (numbered, linked, amounts adding up, snapshot heights never falling, receives matched to sends) if and only if its hash is new, it stands one above its parent, and what it receives is a send addressed to its signer. |
| Conservation.StrangerReceiveIsAccepted | verifier/account_verifier.go:222-255 | A run after which the verifier accepts a receive of a send to somebody else. |
| Conservation.HeadsAreBasesPlusModified | verifier/account_verifier.go:174-212 | The heads' balances are what the accounts opened with plus all modified amounts, over any set of accounts. |
| Conservation.MoneyIsConserved | verifier/account_verifier.go:174-255 | Where no send is received twice, balances plus money in flight equal what the accounts opened with. |
| Conservation.InsertAdds | verifier/account_verifier.go:37-84 | A verified insert changes balances plus money in flight by nothing, or, if it receives again in that way, by the amount. |
| Conservation.EveryRunConserves | ledger/ledger.go:85-129 | On every run of verified inserts from genesis they add up to 400 and what was received a second time. |
| Conservation.EveryBalanceIsBounded | ledger/ledger.go:85-129 | So every balance stays between 0 and that. |
| Conservation.InsertKeepsOnceExactly | verifier/account_verifier.go:37-68 | A verified insert keeps every send received at most once if and only if the block does not receive what its signer has received already, at height 0 or while naming another account as receiver. |
| Conservation.InsertConservesExactly | verifier/account_verifier.go:51-60 | A verified insert conserves money if and only if it does not do so for a positive amount. |
| Conservation.RepeatIsAccepted | chain/account_chain.go:124-125 | A run after which the verifier accepts a second receive of the same send. |
| LedgerExamples.MisnamedReceiveIsAccepted | verifier/account_verifier.go:51-60 | A run after which the verifier accepts a receive of what the signer received at height 1, as it names another account; the sum grows by 30. |
| LedgerExamples.MisnamedReceiveCrashesTheIndex | ledger/req_pool.go:64-67 | In a node that keeps the request index that block then dereferences nil, after it is stored. |
| Conservation.GenesisIsOk | store/block_store.go:37-48 | The store's two opening accounts form a well-formed ledger of 400. |
| Conservation.BySourceFinds | chain/account_chain.go:119-132 | The lookup finds the highest receive of the source above height 0, or there is none. |
| CausalCut.CutPointExists | pool/account_pool.go:72-84 | The cut point exists exactly when the account was opened no higher than the snapshot. |
| CausalCut.CutIsExact | chain/account_chain.go:107-118 | Cutting removes exactly the blocks that refer above the snapshot. |
| CausalCut.CutKeepsSources | verifier/account_verifier.go:243-247 | No receive is left whose send was cut. |
| CausalCut.CutIsOk | chain/account_chain.go:107-118 | What is left is a well-formed ledger, with every send still received at most once. |
| CausalCut.CutConserves | chain/account_chain.go:107-118 | A cut conserves money. |
| Worklist.TryRollback | pool/account_pool.go:45-69 | Returns exactly the sends above the height, also where the head is no longer stored, or an error when there is no such stored block. |
| Worklist.RecordKeepsLast | pool/pool.go:174-177 | The two updates together record the task last seen, lower or higher; one of the same height stays. |
| Worklist.Follow | pool/pool.go:187-197 | The next round is the lowest receive per account of this round's sends; the run ends at a send without one, or whose receiver's head is no longer stored. |
| Worklist.RanksRise | pool/pool.go:168-204 | The least causal rank of the tasks rises every round. |
| Worklist.GetWaitRollbackAccounts | pool/pool.go:168-204 | The loop terminates; it returns rather than dereferencing nil if and only if there is a closed cover of the tasks above which every send is received in an account whose head is still stored, and then returns the height last met per account, with the hash of the block stored there. |
| Worklist.LowestIsLeastClosure | pool/pool.go:168-204 | The lowest heights explored are closed under send to receive and the least such closure of the tasks. |
| Worklist.CrashMeansNoClosure | pool/pool.go:189-191 | Where it dereferences nil, there is no such cover. |
| DragPaths.ReturnedIsClosedExactly | pool/pool.go:217-227 | What is returned is a closed cover if and only if wherever a way of sends above and their receives leads to an account, a way of the greatest length leads there as low. |
| DragPaths.ReturnedAboveExactly | pool/pool.go:243-271 | For one account's task, the account is returned above it if and only if some such way leads back to the account. |
| RollbackSets.EveryRunIsCausal | pool/pool.go:168-204 | Every run of verified inserts has a causal order, so the loop terminates on it. |
| RollbackSets.PrefixesAreCausal | pool/pool.go:168-204 | So does every ledger cut short. |
| RollbackSets.OrphansSitAtTheCut | pool/pool.go:152-157 | A closed rollback leaves a receive without its send only at the very height an account is rolled back to. |
| RollbackSets.DraggedAccountsKeepOrphans | pool/pool.go:152-157 | And every account dragged lower than asked keeps such a receive. |
| RollbackSets.ReturnedMoneyIsRolledBackTooHigh | pool/pool.go:217-227 | A run in which money goes out and comes back, and the height returned is above the send. |
| AccountForks.CollectTasks | pool/pool.go:137-156 | Collects each account's cut point where its head refers at or above the fork, and dereferences nil exactly when some such account was opened above it or has a head that is no longer stored, or the fork is at snapshot 0 and some account with a pool has no head. |
| AccountForks.CutTasksExactly | pool/account_pool.go:72-84 | An account gets a task exactly when its top refers at or above the fork, and then to its highest block that does not refer above it. |
| AccountForks.TasksSplit | pool/account_pool.go:72-84 | A block refers above the fork exactly when it lies above its account's task. |
| AccountForks.CutIsClosedExactly | pool/pool.go:137-157 | The collected tasks are themselves closed under send to receive if and only if every send above the fork was received. |
| AccountForks.ForkSetExists | pool/pool.go:157-157 | A closed cover of a fork's tasks exists under the same condition. |
| AccountForks.ForkFollowsExactly | pool/pool.go:157-157 | A fork whose tasks were collected computes its rollback set, without dereferencing nil, if and only if every send above the fork was received, whatever the heads of other accounts. |
| AccountForks.LowestIsTheCut | pool/pool.go:168-204 | The lowest heights a fork's loop explores are the causal cut itself. |
| AccountForks.ForkRollsBackToCutExactly | pool/pool.go:137-164 | The heights a fork rolls its accounts back to are the cut, and a consistent rollback, if and only if no account sent anything above the fork. |
| ForkExamples.SendAboveTheFork | pool/pool.go:137-164 | A run with a send above the fork, whose receiver the fork returns above its cut point. |
| ForkExamples.OpenedAboveTheFork | pool/account_pool.go:72-84 | A run after which a fork finds no block to roll an account back to. |
| ForkExamples.HeadNoLongerStored | pool/account_pool.go:72-84 | An account opened below the fork whose removed head stops the collection. |
| ForkExamples.ReceiverNoLongerFound | pool/pool.go:187-191 | An account whose removed head stops the loop, though a closed cover exists. |
| Stores.GenKeyInjective | store/block_store.go:170-172 | Keys are equal exactly when address and height are. |
| Stores.OthersUnaffected | store/block_store.go:107-120 | What one account stores or deletes no other account notices. |
| Stores.PutHolds | store/block_store.go:117-120 | Storing on top makes the by-height map hold the longer chain. |
| Stores.DeleteHolds | store/block_store.go:107-110 | Deleting the top makes it hold the shorter one. |
| AccountChains.AccountChain.constructor | chain/account_chain.go:28-40 | Reopening reads the head back by the height it was saved with, and finds none where that was removed. |
| AccountChains.AccountChain.InsertChain | chain/account_chain.go:72-84 | For any block: stores it and makes it the head; the maps and the head describe the chain with the block on top if and only if it is the next one, under a new hash. |
| AccountChains.AccountChain.RemoveChain | chain/account_chain.go:85-105 | For any block: refused exactly when a point locks its height; otherwise its entries are deleted and the head is what its hash was looked up as. Of the block on top the maps then describe the chain without it, and the head is the block removed. |
| AccountChains.AccountChain.FindAccountAboveSnapshotHeight | chain/account_chain.go:107-118 | Finds the cut point, and dereferences nil exactly when the head is stale. |
| AccountChains.AccountChain.GetBySourceBlock | chain/account_chain.go:119-132 | Finds the highest receive of the source, and dereferences nil exactly when the head is stale and above height 0. |
| AccountChains.AccountChain.SnapshotPoint | chain/account_chain.go:153-184 | Pushes, refuses or dereferences nil as the value-level check says. |
| AccountChains.AccountChain.RollbackSnapshotPoint | chain/account_chain.go:187-212 | The popping loop leaves what the value-level function says. |
| AccountChains.EveryRunKeepsLocks | chain/account_chain.go:72-243 | Over any run of appends, removals from the top, pushes and pops the stack strictly ascends in snapshot height, does not fall in account height, and every point names a stored block. |
| AccountChains.StaleAfterRemoval | chain/account_chain.go:92-95 | The head is stale exactly from a removal to the next append. |
| AccountChains.StaleHeadMisleads | verifier/account_verifier.go:174-212 | With a stale head every block that continues the stored chain is rejected, and what is accepted one above the head leaves a gap. |
| AccountChains.StepKeepsHeadAbove | chain/account_chain.go:72-105 | Over appends, removals, pushes and pops the head is the chain's top or was above it, and refers to no lower snapshot. |
| AccountChains.RollbackStopsAtLock | pool/bc_pool.go:551-570 | A rollback stops at the asked height or the topmost lock, whichever is higher, and the head names that height exactly when nothing was removed. |
| AccountChains.OfferIsAcceptedExactly | chain/account_chain.go:134-184 | What an account offers the next snapshot is accepted unless its head is stale; then nil is dereferenced. |
| AccountChains.OfferExactly | chain/account_chain.go:134-151 | An account offers its head to the next snapshot if and only if that is above its topmost lock. |
| AccountChains.AppendIsOffered | chain/account_chain.go:134-151 | After any append on top it offers exactly the block appended. |
| AccountChains.PushedOfferIsTaken | chain/account_chain.go:134-184 | Once its offer has become a point it offers nothing. |
| AccountChains.PushExactly | chain/account_chain.go:153-184 | A point is pushed if and only if there is a head, the block is stored with that hash, and the point is above the top one in snapshot height and not below it in account height; nil is dereferenced if and only if the block is not stored and the rest holds. |
| AccountChains.PoppedExactly | chain/account_chain.go:187-212 | After the first check, the points below the end's height are popped from the top, and one at that height with them; with no other left it is refused, and all are gone. |
| AccountChains.RollbackPointsExactly | chain/account_chain.go:187-212 | Called with the top and a point at or below it, exactly the points from that one up are removed if and only if the two are the same. |
| SnapshotLocks.InsertSnapshotBlock | chain/chain.go:115-128 | The block is stored as the head whatever becomes of its points, which are pushed one after the other up to the first not accepted. |
| SnapshotLocks.PushStopsAtFirst | chain/chain.go:117-126 | Where a point is not accepted, it is the first such: every point before it stays pushed, and none after it is looked at. |
| SnapshotLocks.InsertKeepsMatchedExactly | chain/chain.go:115-128 | A stored snapshot block keeps every account's stack what the stored snapshots make if and only if all its points were accepted. |
| SnapshotLocks.MinedSnapshotIsAcceptedExactly | chain/chain.go:65-82 | A block built from the accounts' own offers is accepted if and only if none of them has a stale head. |
| SnapshotLocks.NextAccountSnapshot | chain/chain.go:65-82 | A mined block lists an account if and only if its head is above its topmost lock, once and with its head; nil is dereferenced if and only if some account has a lock and no head. |
| AccountChains.LocksHaveHead | chain/account_chain.go:72-243 | No account whose locks stand is without a head. |
| SnapshotLocks.MinedTakesAll | chain/chain.go:65-128 | Once a mined block is accepted no account has anything left to list. |
| SnapshotLocks.RecordAccounts | pool/snapshot_pool.go:232-242 | Keeps the first point seen as start and the last as end. |
| SnapshotLocks.GetUnlockAccountSnapshot | pool/snapshot_pool.go:215-230 | Start and end are each account's highest and lowest point above the fork, the head always included. |
| SnapshotLocks.UnLockAccounts | pool/pool.go:273-281 | Succeeds exactly when every account's unlock does, and then has done each once; refused on the way, it has done each at most once and nothing else. |
| SnapshotLocks.StartIsTop | chain/account_chain.go:187-194 | Once a snapshot besides genesis is stored, every start is the top of its account's stack, so the first check passes. |
| SnapshotLocks.ForkKeepsMatchedExactly | pool/snapshot_pool.go:79-85 | For every fork point: the unlocks go through if and only if a snapshot besides genesis is stored or genesis lists no account; after them the stacks are what the remaining snapshots make if and only if no account was met, or the fork point lies below the head and each account had a single point above it. |
| SnapshotVerifiers.VerifyReferred | verifier/snapshot_verifier.go:23-58 | Told from the accounts' chains: fail if and only if some listed height is stored with another hash; pending if and only if none is and some listed height is not stored; success if and only if every listed block is stored. The per-account results say the same of each block looked at, up to the first that differs. |
| SnapshotVerifiers.ResultExactly | verifier/snapshot_verifier.go:36-49 | One listed block: pending if and only if nothing is stored at its height, fail if and only if another block is, success if and only if it is. |
| SnapshotVerifiers.VerifiedIsAcceptedExactly | chain/chain.go:115-128 | A verified block never makes the insertion dereference nil; it is taken in if and only if it lists no account twice and none below its topmost lock, and otherwise kept in error, with the stacks no longer what the stored snapshots make. |
| LockExamples.HeadAfterRemoval | chain/account_chain.go:92-95 | An account of two blocks whose head, after the upper is removed, is that block. |
| LockExamples.StaleOfferCrashes | chain/account_chain.go:134-184 | What it then offers the next snapshot makes the insertion dereference nil. |
| LockExamples.StaleHeadAccepts | verifier/account_verifier.go:174-212 | After a removal the verifier accepts what follows the removed block and rejects what follows the block left. |
| LockExamples.TwoPointsStay | pool/snapshot_pool.go:79-85 | An account listed by two snapshots above the fork keeps both points when they are unlocked. |
| LockExamples.HeadIsUnlockedToo | pool/snapshot_pool.go:215-230 | With the fork point at the head nothing is removed, and the head's point is taken off all the same. |
| LockExamples.GenesisStopsForks | pool/snapshot_pool.go:79-84 | With only a genesis that lists an account stored, every unlock is refused. |
| LockExamples.VerifiedBelowLock | chain/chain.go:115-128 | A verified snapshot block that is kept in error. |
| SnapshotChains.InsertExtendsExactly | chain/snapshot_chain.go:87-93 | Inserting extends the sequence behind the maps if and only if the block fits on top. |
| SnapshotChains.RemoveShortens | chain/snapshot_chain.go:94-107 | Removing the head takes the last block off it. |
| SnapshotChains.EveryRunDescribes | chain/snapshot_chain.go:87-107 | After any run from genesis the two maps, the head and the head key describe one hash-linked sequence. |
| SnapshotChains.SnapshotChain.constructor | chain/snapshot_chain.go:32-50 | An empty store gets genesis, a used one gives its head back, one with another genesis is refused. |
| SnapshotChains.SnapshotChain.InsertChain | chain/snapshot_chain.go:87-93 | For any block: puts it into the maps and makes it the head; they describe one sequence with the block on top if and only if it fits there. |
| SnapshotChains.SnapshotChain.RemoveChain | chain/snapshot_chain.go:94-107 | For any block: deletes it and takes the head from its parent's hash; of the head the maps then describe the sequence without it. |
| Requests.ReqPool.Insert | ledger/req_pool.go:52-69 | Does the insert on the index, and dereferences nil exactly where the value-level function does. |
| Requests.ReqPool.Rollback | ledger/req_pool.go:71-82 | Does the removal likewise. |
| Requests.ReqPool.GetReqs | ledger/req_pool.go:89-103 | Returns exactly the account's requests that are not received. |
| Requests.EveryHistoryMarks | ledger/req_pool.go:52-82 | On every history, in whatever order blocks come and go, there is a request exactly for each send heard of, and its mark is that of the last event on it. |
| Requests.HistoryCrashesExactly | ledger/req_pool.go:64-67 | The next event dereferences nil if and only if it is a receive of a send never heard of as addressed to the receiver. |
| Requests.TellsTruthExactly | ledger/req_pool.go:52-82 | The mark says what the chains say if and only if the last event was the removal of the send; or its insertion, with no receive of it there; or the insertion of a receive, with the send still there; or the removal of a receive, with the send still there and no other receive. |
| Requests.OrderlyHistoriesMirror | ledger/req_pool.go:52-82 | When receives come after their sends, once, and leave before them, the marks always say what the chains say and nothing dereferences nil. |
| Requests.OpenRequestsAre | ledger/req_pool.go:89-103 | On every history, what is listed as open is the requests whose last event was not the insertion of a receive. |
| Requests.OrderlyOpenRequestsAre | ledger/req_pool.go:89-103 | In good order what is listed as open is the unreceived sends and the rolled-back ones. |
| Requests.SendRemovedFirst | ledger/req_pool.go:76-80 | A history in which the send leaves before its receive and is then listed as not received. |
| Requests.OneOfTwoReceivesRemoved | ledger/req_pool.go:76-80 | A history with two receives of a send, one of them removed, after which it is listed as not received. |
| Requests.RolledBackSendIsOpen | ledger/req_pool.go:89-103 | A send that was rolled back is listed as open. |
| Schedule.GenPlan | consensus/hdpos.go:207-222 | Slot i of a round starts i intervals after the round and is the i-th member's. |
| Schedule.RoundsMeetExactly | consensus/hdpos.go:207-222 | Consecutive rounds meet without gap or overlap if and only if there are as many members as configured. |
| Schedule.TimeToIndexExactly | consensus/hdpos.go:224-228 | The index of a time is k if and only if round k contains the time. |
| Schedule.LookupIsRightExactly | consensus/hdpos.go:224-228 | Over all times: the round looked up contains the time if and only if its start fits 32 bits and the time is not before genesis, or on a round boundary. |
| Schedule.WrongLookups | consensus/hdpos.go:224-228 | Two times looked up in a round that does not contain them. |
| Schedule.AcceptsExactlyTurn | consensus/hdpos.go:84-97 | For any members, a producer is accepted if and only if the time starts a slot and the slot, counted round-robin from genesis, is the signer's first. |
| Schedule.OneProducerPerSlot | consensus/hdpos.go:84-97 | With distinct members, one per slot, the signer accepted is member (d / interval) mod memberCnt, and nobody off a slot's start. |
| Schedule.PlanIsUnique | consensus/hdpos.go:248-261 | A remembered plan and a fresh one of the same round are equal. |
| Schedule.Teller.ElectionIndex | consensus/hdpos.go:248-261 | Remembered or not, the answer is the plan of the round. |
| Schedule.Teller.RemovePrevious | consensus/hdpos.go:267-276 | Forgets exactly the rounds that ended before the time, and counts them. |
| Schedule.Teller.VerifyProducer | consensus/hdpos.go:84-97 | Whatever is remembered, the answer is whose turn it is. |

## Left out

- Networking, JSON, tickers, goroutines, shells and the websocket protocol (`p2p/`, `syncer/`, `node/`, `cmd/`): nothing to prove about state.
- Locks: each public operation is one atomic step. The fork-version counter appears only as a verdict that was voided meanwhile.
- Fetch requests and `loopFetchForSnippets`: heuristics over network calls that do not change the pool.
- `AddBlock`, `compound` and the sets of free and compound blocks: the pending blocks are given as a sequence in any order.
- How hashes and addresses are computed: both are opaque identifiers.
- The clock: times are whole seconds; the saturation of durations beyond 292 years is not modelled.
- Chain names: an identifier is a number that only grows; its wrap-around after 2^31 chains is not modelled.
- The pool's disk is a sequence of blocks, and the store's answers are arguments; `AccountChains` and `SnapshotChains` are the stored chains behind it, and the two are not one object here.
- `selfAc` and the lazily filled map of accounts: `SnapshotLocks` keeps the accounts as a map of values, so it does not capture that the chains share one store; `Stores.OthersUnaffected` says why they do not meet there.
- The head map also holds the snapshot head, under a key that an account could be named by; accounts of that name are not modelled.
- ChainPools.ChainPool.ForkTo: the account side (unlocking and rolling back accounts) is two answers, yes or no; what it does is modelled on its own in `SnapshotLocks` and `Worklist`.
- AppendChains.LoopAppendChains: takes snippets and chains in any order, of which the sort by tail height is one, and does not count the snippets placed.
- PoolRuns.EveryRunKeepsInv: is about safe switches; `StepKeepsInvExactly` and `RunStaysExactly` say that the others over fitting hops break the invariant, `RerootingExact.RerootKeepsExactly` that hops that do not fit change what some chain means.
- ForkSwitch.WholeSwitch: is about hops that fit once the disk is cut, for the same reason.
- Conservation.EveryRunConserves: takes blocks that fit their ledger (`Accounts.Fitting`); `InsertKeepsOkExactly` says that any other leaves a ledger that is not well-formed.
- The order of the disk: a block stored out of turn, after the invariant is broken, is shown at the end of the sequence, while the store files it under its height.
- Verifying a block of genesis type after the start, and blocks whose hash is already in the ledger.
- The end of `ForkAccounts`, which follows the key point's accounts, and `ForkAccountTo` and `PendingAccountTo`: fetch requests and switches of single accounts, whose parts are modelled.
- `verifier.Task`, timeouts and retry counters: driven by the clock.
- `Committee.update`: a loop of sleeps.
- `confirmed` in the request index, `printChains`, `ExistInCurrent` and similar reads: easy beside the rest.
