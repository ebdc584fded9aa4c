# Chiliz chain node: a verified model of its core

This project models, in Dafny, the parts of the node where state is rewritten in place and
where a mistake would silently corrupt a chain:

* **The canonical chain store.** Headers, total difficulties, the number-to-hash index, the
  transaction lookup, the durable head markers, the freezer and the in-memory caches; header
  insertion, the header and the block reorganisation, the rewind with its callbacks, the
  search for a block with state, the fork choice, and the two fast ancestor lookups.
* **The chain indexer**, as an object and as a state machine whose sections are processed
  without the lock while the chain is reorganised.
* **The event feed**, as an in-place array algorithm and as a concurrent protocol.
* **Gas and fees**: buying gas, the intrinsic cost, the refund, the fee payment, and the
  transaction loop of a block.
* **Derivation paths**: parser, printer and iterators.

Main results, each for all inputs, all runs or all reachable states:

* A reorganisation, of headers or of blocks, for any fork point, leaves the index exactly the
  parent-link path of the new head **if and only if** the freezer held a prefix of that path,
  and the transaction lookup exactly that path's **if and only if** no dropped block repeats
  a transaction that the new branch does not mine again. A missing block changes nothing.
* In every durable state a rewind passes through, the head-header marker names a stored header
  and the two block markers name whole blocks. A head block that moved has its state or is
  genesis. On an ungapped chain the rewind ends at the
  first ancestor meeting its target; the target is lowered only to a head block below the
  freezer's end; no header, total difficulty or index entry of any fork is left above it, and
  neither what lies at or below it nor the transaction lookup is touched.
* Both head searches return the highest ancestor with state after the requested root is
  crossed, so the "stateless at a non-genesis block" exit is dead; the hash search runs into
  a nil header exactly at a gap below a block with state.
* In every run of the indexer in which no failed backend Reset overlaps a locked call, every
  stored section, from the checkpoint up, is exactly one section of parent links above the
  previous one, and what Sections reports above the checkpoint is canonical. In every run in
  which the unsigned count does not wrap, overlaps included and interleaved at every access,
  any two counted heads stay as many parent links apart as blocks lie between them. So what an
  undisturbed Sections reports is canonical **if and only if** the reported hash is not zero
  and no counted head is missing. Overlaps that leave a head missing for good, and one that
  wraps the count, are given.
* For every interleaving a feed's Send serves each channel that stays subscribed exactly once
  and each removed one at most once, counts right, and never deletes index -1.
* A message is refused exactly by the clause that says so; nothing under- or overflows 64 or
  256 bits or panics on the way; and the supply changes by what the EVM did less the burned
  fees **if and only if** a message that does not pay the base fee, which only the coinbase's
  free messages to system contracts may, finds it with the payee.
* A block is accepted exactly as replaying its transactions on their runs of the EVM says, or
  rejected with the error of the first transaction that fails; pool and used gas make up the
  gas limit; and the supply changes by what the EVM did less base fee times gas used.
* Over any run of block writes the head never loses in (justified number, total difficulty),
  and a run that never asks the random generator never returns to a displaced head.
* Parsing a printed derivation path gives the path back.

`dafny verify dfyconfig.toml` checks the project.

## Layout

| file | source | content |
|---|---|---|
| `Options.dfy` | | optional values |
| `Chain.dfy` | `core/rawdb` accessors | headers, database, batches, exact index, total difficulty |
| `HeaderChain.dfy` | `core/headerchain.go` | WriteHeaders, Reorg, writeHeadersAndSetHead, GetAncestor, caches |
| `BlockReorg.dfy` | `core/blockchain.go` | reorg, writeHeadBlock, transaction lookups |
| `Rewind.dfy` | `core/blockchain.go` | rewindHashHead, rewindPathHead |
| `SetHead.dfy` | `core/headerchain.go`, `core/blockchain.go` | setHead and its callbacks |
| `ForkChoice.dfy` | `core/forkchoice.go` | fork choice and runs of it |
| `GetHashFn.dfy` | `core/evm.go` | the BLOCKHASH closure |
| `Indexer.dfy`, `IndexerProtocol.dfy` | `core/chain_indexer.go` | the indexer and its protocol |
| `Feed.dfy`, `FeedProtocol.dfy` | `event/feed.go`, `event/feedof.go` | the feed and its protocol |
| `Balance.dfy`, `Intrinsic.dfy`, `Fees.dfy`, `Transition.dfy`, `Processor.dfy` | `core/state_transition.go`, `core/gaspool.go`, `core/state_processor.go`, `core/evm.go`, `core/vm/evm.go`, `consensus/parlia/parlia.go` | gas and fees |
| `HdPath.dfy` | `accounts/hd.go` | derivation paths |

## Modelling decisions

* A hash is a free term over the header it was taken of: collision free and never zero. A
  header carries its transactions, as its transaction root commits to them.
* `Numbered(h)` says that heights count parent links down to height zero;
  `NumberFollowsParent` says it of one link. The consensus engine checks both before the code
  modelled here runs. `Linked` says it of a list of headers. (`ValidateHeaderChain` itself
  checks only that numbers are contiguous.)
* Batches are explicit sequences of operations. Reads go to the database and never see a
  pending batch. The freezer is read before the key-value store.
* The caches are finite maps from which entries may vanish between calls (`Evict`) and
  whenever an insertion adds one.
* Block-level results are stated for a full-synced node: header head, snap head and block
  head coincide. A rewind starts from a store whose headers have their bodies up to the head
  block.
* A branch that repeats a transaction does not pass the nonce check, so the lookup of an
  accepted chain is never lost; the reorganisation itself does not check this.
* The justified number, the miner's preference and the byte order of hashes are fixed
  functions of a header. The random generator and the outcome of moving the canonical chain
  are inputs of a fork-choice step.
* The indexer's chain database may change in any way between any two steps, as long as every
  canonical header above genesis has a parent hash. Each read and each write of the section
  count or of a section head that the setValidSections of a failed Reset, which takes no lock,
  can overlap is a step of its own, in one order of all accesses. The count wraps at 64 bits
  when it is lowered; runs in which it does are excluded by name (`NoWrap`). A zero checkpoint
  hash is ignored in the protocol. `Sections` with no section reports height -1 where the
  source wraps.
* Go's channels and scheduler are an object (`Outside`) that may let any send fail, choose
  any ready case, and log what happened; the EVM is a method of which only "returns no more
  gas than given" and "the supply keeps fitting 256 bits" is known, and which logs its runs.
* Gas results are for messages priced for the block they run in (`Ordinary`), whose base fees
  `vm.NewEVM` has zeroed where they are disabled and the message names no price; later forks
  imply London; before London, where the source does not check it, a message without gas does
  not name a fee cap beyond 256 bits. A message of the coinbase to a system contract may pay
  less than the base fee. Its tip then wraps, so that the base fee is taken from the payee,
  and 2^256 too much is credited if the payee does not own it (`Fees.SettlementSupply`). Under
  Parlia such a transaction is a system transaction, which the block loop does not apply; its
  set of recipients has one more than the modelled system contracts.
* Two comments in the source promise more than its code does, and the model follows the code:
  the reorganisation of `core/headerchain.go` cannot correct an index entry that is frozen,
  and white space in a derivation path is ignored around components only.

## Model

| member | source | states |
|---|---|---|
| `Chain.Ancestor` | core/headerchain.go:196-206 | the reference meaning of a path: the ancestor at a height is well numbered and has that height |
| `Chain.AncestorTrans` | core/headerchain.go:196-206 | an ancestor's ancestor is the ancestor |
| `Chain.AncestorParent` | core/headerchain.go:196-206 | neighbouring heights of a path are linked by the parent hash |
| `Chain.ExactIffFrozenOnPath` | core/rawdb/accessors_chain.go:47-58 | an index rewritten above the freezer is exact if and only if the freezer holds a prefix of the new path |
| `Chain.FrozenOffPathExample` | core/rawdb/accessors_chain.go:47-58 | two frozen blocks whose index no write can make exact for a sibling of the second |
| `Chain.PathsAgreeBelow` | core/headerchain.go:190-206 | paths that meet at a height agree below it |
| `Chain.CanonicalPath` | core/headerchain.go:455-470 | a header found in an exact index has its whole path there |
| `Chain.DeleteCanonRun` | core/headerchain.go:180-187 | deletes exactly the contiguous run of entries present in the database, whatever the batch holds, and ends |
| `HeaderChains.LinkedPath` | core/headerchain.go:250-258 | in a linked list every header is the ancestor, at its height, of every later one |
| `Chain.StoreOneMore` | core/headerchain.go:266-270 | adding a header with its total difficulty under a stored parent keeps the store sound |
| `HeaderChains.CacheOneMore` | core/headerchain.go:267-273 | and keeps the three caches in agreement |
| `HeaderChains.FlushWithHeader` | core/headerchain.go:266-270 | the two queued writes of a header amount to one new record |
| `HeaderChains.ShortcutAgrees` | core/headerchain.go:262-275 | skipping the lookup after an unknown parent gives the same answer as looking each header up, although the caches are being filled and drop entries |
| `HeaderChains.RecordSound` | core/headerchain.go:249-287 | a finished insertion keeps every total difficulty the sum along the path, stores exactly the given headers in addition, and counts exactly the new ones |
| `HeaderChains.RecordAborted` | core/headerchain.go:268-281 | after an abort the caches, whatever they dropped, agree with the store if and only if no header was new |
| `HeaderChains.LastIsNew` | core/headerchain.go:262-275 | what follows a missing header in the list is missing, too |
| `HeaderChains.RecordNothing` | core/headerchain.go:264-265 | known headers leave no trace |
| `HeaderChains.StoredIsCrossLinked` | core/headerchain.go:196-206 | in a sound store the backward walk never misses a parent |
| `HeaderChains.HeaderChain.Evict` | core/headerchain.go:504-516 | dropping cached entries keeps agreement |
| `HeaderChains.HeaderChain.GetHeader` | core/headerchain.go:504-516 | cached or not, the answer is the store's; a cached hash answers for any number |
| `HeaderChains.HeaderChain.GetTd` | core/headerchain.go:488-500 | the same for total difficulties |
| `HeaderChains.HeaderChain.RecordOne` | core/headerchain.go:265-273 | queues one record and caches it at once, where others may be dropped |
| `HeaderChains.HeaderChain.RecordAll` | core/headerchain.go:249-276 | the loop with its shortcut does what looking every header up would do, up to what the caches drop |
| `HeaderChains.HeaderChain.WriteHeaders` | core/headerchain.go:235-287 | the error cases exactly; on success exactly the given headers are added, the store stays sound, the count is the number of new headers; cache agreement exactly unless aborted with something new |
| `HeaderChains.HeaderChain.OverwriteStale` | core/headerchain.go:188-206 | ends; fails exactly if the path to an indexed block has a gap; otherwise the entries above the cross link become the path |
| `HeaderChains.HeaderChain.ClearStale` | core/headerchain.go:179-207 | both clean-up loops together, reading only the database |
| `HeaderChains.Extend` | core/headerchain.go:208-219 | the new headers' entries, and the last one as head marker |
| `HeaderChains.ReorgExact` | core/headerchain.go:179-223 | deleted run, overwritten stretch and new entries add up to the new path exactly if the freezer agrees |
| `HeaderChains.HeaderChain.Reorg` | core/headerchain.go:165-229 | an exact index becomes exact for the last header if and only if the freezer is on its path; on a missing parent nothing changes; markers follow |
| `HeaderChains.HeaderChain.WriteHeadersAndSetHead` | core/headerchain.go:296-332 | the error cases exactly; status and head as the fork choice decides on the written store; the store stays sound; the index stays exact if and only if a switch did not contradict the freezer; neither the fork choice nor the reorganisation fails |
| `HeaderChains.HeaderChain.Choose` | core/headerchain.go:312-331 | the part after the headers are written: status, head and index from the decision |
| `HeaderChains.HeaderChain.SwitchTo` | core/headerchain.go:326-330 | a reorganisation to stored headers never misses a parent |
| `HeaderChains.HeaderChain.GetAncestor` | core/headerchain.go:452-484 | the same hash and number as following parent links; gives up exactly when a header of the non-canonical run is missing or the budget is smaller than it; the budget drops by its length |
| `HeaderChains.DoubleRead` | core/headerchain.go:464-469 | if the index is replaced at most once between the three reads, the ancestor read is the header's |
| `HeaderChains.DoubleReadMissesTwoSwitches` | core/headerchain.go:464-469 | replaced away and back, it need not be |
| `BlockReorgs.SpanSplit` | core/blockchain.go:2672-2717 | the lookup of a path splits at any height |
| `BlockReorgs.LookupIff` | core/blockchain.go:2749-2768 | adding and deleting lookups as the source does gives the new path's lookup if and only if no dropped transaction of the common part is lost |
| `BlockReorgs.ReduceOld` | core/blockchain.go:2672-2679 | walks the old branch down to a height, collecting exactly its transactions, or names the missing block |
| `BlockReorgs.ReduceNew` | core/blockchain.go:2680-2685 | the same for the new branch and its blocks |
| `BlockReorgs.ReduceBoth` | core/blockchain.go:2692-2717 | ends at the highest common block, or no fork point exists over stored blocks |
| `BlockReorgs.FindFork` | core/blockchain.go:2656-2717 | succeeds if and only if the branches meet over stored blocks, at the highest common block, with the new blocks in order and the dropped transactions |
| `BlockReorgs.HashDifference` | core/types/transaction.go:575-590 | set difference |
| `BlockReorgs.DeleteLookups` | core/blockchain.go:2766-2768 | removes exactly those lookups |
| `BlockReorgs.WriteLookups` | core/rawdb/accessors_indexes.go:75-80 | maps every transaction of the block to its height |
| `BlockReorgs.MarkHead` | core/blockchain.go:1316-1325 | the index entry and the three head markers in one batch |
| `BlockReorgs.WrittenStep` | core/blockchain.go:2749-2757 | writing the next block as head extends the written stretch of index and lookup |
| `BlockReorgs.DeleteUseless` | core/blockchain.go:2759-2788 | leaves the index the new path below the new head, empty above, and drops what only the old branch mined |
| `BlockReorgs.ReorgedIndex` | core/blockchain.go:2656-2788 | with the head written the index is exact if and only if the freezer is on the new path |
| `BlockReorgs.ReorgedLookup` | core/blockchain.go:2656-2788 | and the lookup is the new path's if and only if no repeated transaction is lost |
| `BlockReorgs.LostLookups` | core/blockchain.go:2763-2768 | the lookups lost are exactly those of common transactions that a dropped block repeats and the new branch does not mine again |
| `BlockReorgs.LookupLostExample` | core/blockchain.go:2763-2768 | a reorganisation after which the lookup of a transaction of the new path is missing |
| `BlockReorgs.UniqueDropsAreSafe` | core/blockchain.go:2763-2768 | none is when a transaction occurs once per branch |
| `BlockReorgs.ExtensionIsReorged` | core/blockchain.go:1958-1964 | extending the head needs no reorganisation |
| `BlockReorgs.BlockChain.WriteHeadBlock` | core/blockchain.go:1310-1348 | index entry, lookups and all three markers, durable and in memory |
| `BlockReorgs.BlockChain.WriteNext` | core/blockchain.go:2749-2757 | one block of it, keeping the stretch written so far |
| `BlockReorgs.BlockChain.WriteNewChain` | core/blockchain.go:2747-2757 | writes the new path up to below the head, collecting its transactions |
| `BlockReorgs.BlockChain.Reorg` | core/blockchain.go:2656-2788 | fails exactly if the branches do not meet over stored blocks, and then changes nothing |
| `BlockReorgs.BlockChain.SetHeadBlock` | core/blockchain.go:1956-1972 | reorg and writeHeadBlock together: index and lookup exact under exactly the two conditions; the store untouched; on error all as before |
| `Rewinds.RewindHashHead` | core/blockchain.go:852-925 | the loop computes the recursive search |
| `Rewinds.HashFindsHighest` | core/blockchain.go:852-925 | a head above zero is the highest stored ancestor with state after the root, not below the limit |
| `Rewinds.HashResetsOnlyIfNone` | core/blockchain.go:852-925 | on an ungapped chain it ends at zero only if there is none from the limit up, and never runs into nil |
| `Rewinds.HashNilIff` | core/blockchain.go:917-923 | it runs into a nil header exactly at a gap below a block with state before the root |
| `Rewinds.HashNilExample` | core/blockchain.go:917-923 | a store in which it does |
| `Rewinds.HashRootNumber` | core/blockchain.go:886-890 | the reported number is the highest block with the requested root, or zero |
| `Rewinds.RewindPathHead` | core/blockchain.go:928-1000 | the loop computes the recursive search, followed by recovery where needed |
| `Rewinds.PathFindsHighest` | core/blockchain.go:928-1000 | a break happens at the highest ancestor with available or recoverable state after the release |
| `Rewinds.PathResetsOnlyIfNone` | core/blockchain.go:969-992 | on an ungapped chain an early return means there is none from the pivot up |
| `Rewinds.PathRootNumber` | core/blockchain.go:953-963 | the reported number is the highest block with the requested root, or zero |
| `Rewinds.RewindHead` | core/blockchain.go:1010-1015 | whatever is returned above zero has its state, and lies on the path or is genesis |
| `SetHeads.FlushDeletes` | core/headerchain.go:713-726 | a deletion batch removes headers, bodies and entries it names and nothing else |
| `SetHeads.FlushDeletesTds` | core/headerchain.go:713-726 | and so for total difficulties |
| `SetHeads.MarkersMoved` | core/headerchain.go:683-687 | after the markers moved, the header marker names a stored header, the block markers name whole blocks, none above the header, and memory agrees with disk |
| `SetHeads.MarkersTruncated` | core/blockchain.go:1126-1136 | truncating the freezer above the markers keeps their headers and blocks readable |
| `SetHeads.ConsistentTruncated` | core/blockchain.go:1126-1136 | and so genesis and the bodies up to the head block |
| `SetHeads.Heights` | core/headerchain.go:694-703 | the contiguous run of heights with stored headers, highest first; ends |
| `SetHeads.BlockChain.Parent` | core/headerchain.go:661-666 | the cached read of the parent is the store's, although higher cached headers may be gone |
| `SetHeads.BlockChain.DegradeBlock` | core/blockchain.go:1058-1094 | the head block becomes what the search finds, a whole block with state; the fatal exit is dead |
| `SetHeads.BlockChain.DegradeSnap` | core/blockchain.go:1095-1110 | the snap block goes to the header if its whole block is stored, else to genesis |
| `SetHeads.BlockChain.Degrade` | core/blockchain.go:1054-1114 | both together, in one batch of markers; a head block that moved has its state or is genesis |
| `SetHeads.BlockChain.MoveMarkers` | core/blockchain.go:1054-1124 | header marker on the header, block markers on whole blocks at or below it, durably, a moved head block with its state; force exactly when the freezer reaches beyond the head block and no pivot does |
| `SetHeads.BlockChain.WipeHeight` | core/headerchain.go:706-721 | freezer truncated at once, everything stored at the height on any fork scheduled, headers and blocks of the markers readable throughout |
| `SetHeads.BlockChain.WipeHeights` | core/headerchain.go:705-721 | the same for the run of heights |
| `SetHeads.BlockChain.RewindOne` | core/headerchain.go:658-722 | one turn: markers first, data after; the target lowered only as allowed |
| `SetHeads.BlockChain.Turn` | core/headerchain.go:658-722 | keeps what the loop has established, for gapped and ungapped chains |
| `SetHeads.BlockChain.RewindAll` | core/headerchain.go:658-722 | the loop ends, at a header that meets the target it ends with |
| `SetHeads.BlockChain.Finish` | core/headerchain.go:723-730 | the deletions flushed and the caches purged |
| `SetHeads.BlockChain.SetHead` | core/headerchain.go:633-731 | ends; in every durable state the header marker has its header and the block markers their blocks; the final head block has its state unless it is genesis or did not move; the final head, the target it meets and everything left are as promised; caches agree |
| `SetHeads.RewindingStep` | core/headerchain.go:658-722 | a turn keeps: head on the path, no earlier block met the target, all heights above scheduled |
| `SetHeads.RewindingDone` | core/headerchain.go:723-726 | flushing turns the schedule into the final store |
| `SetHeads.LeftByDeletes` | core/blockchain.go:1126-1146 | total difficulties and bodies outside the deleted heights are untouched; within they go with their headers, bodies at frozen heights aside |
| `SetHeads.CoversAtEnd` | core/blockchain.go:1115-1123 | the freezer reaches no further than the head block, unless a pivot lies beyond or the time target is not above the block's |
| `SetHeads.TargetStep` | core/headerchain.go:676-682 | the target is the one asked for or one lowered to a durably written head block below the freezer's end |
| `SetHeads.FlushKeepsBelow` | core/headerchain.go:723-726 | headers and whole blocks at or below the head survive the deletions |
| `SetHeads.RewoundIndexExact` | core/headerchain.go:619-620 | an exact index stays exact for the new head |
| `SetHeads.RewoundLeavesNothingAbove` | core/headerchain.go:694-721 | in a sound store no header or total difficulty of any fork is left above |
| `ForkChoices.BetterIsStrictOrder` | core/forkchoice.go:84-132 | the order the choice follows is irreflexive and transitive |
| `ForkChoices.ExternTd` | core/forkchoice.go:85-98 | the difficulty compared is the sum along the path, whether the block or only its parent is stored |
| `ForkChoices.SwitchImproves` | core/forkchoice.go:84-157 | a switch never loses in (justified number, total difficulty), and strictly improves unless a coin was asked |
| `ForkChoices.DecisionIsOrder` | core/forkchoice.go:84-157 | without a coin it switches exactly to what is better, unless both blocks are the miner's own |
| `ForkChoices.StoredIsDecided` | core/forkchoice.go:84-98 | between stored headers of a sound store the choice never fails |
| `ForkChoices.StepImproves` | core/blockchain.go:1944-1972 | so does a block write, which keeps the store sound |
| `ForkChoices.RunNeverWorse` | core/blockchain.go:1944-1972 | over any run the head never loses |
| `ForkChoices.RunStrictlyImproves` | core/blockchain.go:1944-1972 | over a run without coins every new head is better than all before |
| `ForkChoices.NeverReturns` | core/blockchain.go:1944-1972 | such a run never returns to a displaced head |
| `ForkChoices.CoinCanReturn` | core/forkchoice.go:125-130 | with the coin it can |
| `GetHashFns.HashAtIsAncestor` | core/evm.go:114-128 | the walk gives the ancestor's hash if and only if nothing on the way is missing |
| `GetHashFns.CacheStep` | core/evm.go:119-121 | the cache grows by the next ancestor hash |
| `GetHashFns.GetHashFn.WalkTo` | core/evm.go:110-128 | the walk from the last known hash; ends above genesis |
| `GetHashFns.GetHashFn.Query` | core/evm.go:93-129 | the answer of a fresh walk, whatever was asked before |
| `Indexers.LinkedShrinks` | core/chain_indexer.go:480-492 | dropping sections keeps the links |
| `Indexers.LinkedVerified` | core/chain_indexer.go:423-430 | so does verifying the last head |
| `Indexers.LinkedReorged` | core/chain_indexer.go:249-275 | so does a reorganisation |
| `Indexers.ReorgedDrops` | core/chain_indexer.go:249-275 | which drops exactly the sections above the checkpoint that reach beyond the given height |
| `Indexers.AdvancedKnows` | core/chain_indexer.go:276-300 | a new head makes known exactly the complete and confirmed sections, or nothing |
| `Indexers.LinkedCheckpointed` | core/chain_indexer.go:131-144 | a checkpoint keeps the links above it |
| `Indexers.LinkedFinished` | core/chain_indexer.go:348-369 | storing a section keeps the links even if others moved the count meanwhile |
| `Indexers.ClimbStaysCanonical` | core/chain_indexer.go:423-430 | parent links from a canonical block stay canonical |
| `Indexers.CanonicalBelow` | core/chain_indexer.go:423-430 | a canonical section head makes all heads below canonical, whatever is missing above |
| `Indexers.VerifyStops` | core/chain_indexer.go:423-430 | verification stops at the checkpoint or at a canonical head |
| `Indexers.VerifyDropsOnly` | core/chain_indexer.go:423-430 | it drops only non-canonical heads |
| `Indexers.VerifyKeeps` | core/chain_indexer.go:423-430 | and leaves the others as they were |
| `Indexers.LastHeadIsEnough` | core/chain_indexer.go:423-430 | comparing one head at a time makes all stored heads canonical |
| `Indexers.ChainIndexer.SetValidSections` | core/chain_indexer.go:480-492 | exactly the heads between the two counts are removed |
| `Indexers.ChainIndexer.VerifyLastHead` | core/chain_indexer.go:423-430 | the loop computes the recursive verification |
| `Indexers.ChainIndexer.AddCheckpoint` | core/chain_indexer.go:131-144 | sets the checkpoint and keeps the links |
| `Indexers.ChainIndexer.NewHead` | core/chain_indexer.go:244-301 | both branches, keeping the links |
| `Indexers.ChainIndexer.ProcessSection` | core/chain_indexer.go:389-418 | on a still chain succeeds exactly if the backend does and the section is stored and linked, with the canonical head; a failed Reset drops all sections |
| `Indexers.ChainIndexer.EndUpdate` | core/chain_indexer.go:348-369 | the locked end of an update |
| `Indexers.ChainIndexer.Sections` | core/chain_indexer.go:435-441 | above the checkpoint every counted section head is canonical |
| `IndexerProtocols.WeakResets` | core/chain_indexer.go:393-396 | a step of the unlocked setValidSections(0), whatever the lock holder is doing, keeps every count in play spaced: stored heads below it are as many parent links apart as blocks lie between them |
| `IndexerProtocols.WeakShrinks` | core/chain_indexer.go:487-491 | so does a step of a locked setValidSections, whatever the unlocked one is doing |
| `IndexerProtocols.WeakVerifies` | core/chain_indexer.go:423-430 | so does a step of verifyLastHead |
| `IndexerProtocols.WeakPlaces` | core/chain_indexer.go:139-143 | so does storing the head of a checkpoint, although the count may have been raised beyond it |
| `IndexerProtocols.SpacedGrows` | core/chain_indexer.go:347-349 | a head stored above the one it was built on is spaced from all below, whatever is missing |
| `IndexerProtocols.WeakEnds` | core/chain_indexer.go:347-369 | so does the locked end of an update |
| `IndexerProtocols.WeakStep` | core/chain_indexer.go:305-492 | every step of every thread that does not take one from a count of zero keeps it |
| `IndexerProtocols.ReachableIsWeak` | core/chain_indexer.go:305-492 | so it holds in every state reached without a wrap |
| `IndexerProtocols.StrongStep` | core/chain_indexer.go:305-492 | without an overlapping reset no counted head goes missing, none is left over, and the count does not wrap |
| `IndexerProtocols.ReachableIsLinked` | core/chain_indexer.go:305-492 | in every run without overlap each stored head is one section of parent links above the previous one, whenever no call is under way |
| `IndexerProtocols.LinkedIffFull` | core/chain_indexer.go:480-492 | in every run without a wrap the sections are linked if and only if no counted head is missing and none is left over |
| `IndexerProtocols.FreshIsLinked` | core/chain_indexer.go:104-123 | a new indexer satisfies both invariants |
| `IndexerProtocols.ResetRuns` | core/chain_indexer.go:393-396 | left alone, the unlocked steps remove exactly the counted heads |
| `IndexerProtocols.ShrinkRuns` | core/chain_indexer.go:480-492 | left alone, the steps of a locked setValidSections add up to the object's method |
| `IndexerProtocols.VerifyRuns` | core/chain_indexer.go:423-430 | left alone, the steps of verifyLastHead add up to the object's method |
| `IndexerProtocols.QueryRuns` | core/chain_indexer.go:435-441 | and those of Sections to it |
| `IndexerProtocols.OverlapBreaks` | core/chain_indexer.go:393-396 | a reset that runs between decision and execution of a reorganisation leaves the links broken exactly if a section was kept |
| `IndexerProtocols.LateResetIsHarmless` | core/chain_indexer.go:393-396 | one that begins before and runs after the execution leaves them whole |
| `IndexerProtocols.HoleRemains` | core/chain_indexer.go:487-491 | from any three linked sections, an interleaving that leaves the first head missing under a canonical second one, which verifyLastHead does not notice |
| `IndexerProtocols.CountWraps` | core/chain_indexer.go:487-488 | from one section, an interleaving in which both calls lower the count |
| `IndexerProtocols.VerifyRestores` | core/chain_indexer.go:423-430 | what verifyLastHead leaves: its last hash is not zero if and only if the chain reaches it; then every stored head is canonical; all counted ones are if and only if moreover none is missing |
| `IndexerProtocols.SectionsAreCanonical` | core/chain_indexer.go:435-441 | in every state reached without overlap what Sections reports above the checkpoint is canonical, with a hash that is not zero |
| `IndexerProtocols.SectionsAreCanonicalIff` | core/chain_indexer.go:435-441 | in every state reached without a wrap it is if and only if the hash is not zero and no counted head is missing |
| `Feeds.SwapHides` | event/feed.go:218-222 | deactivating hides one channel behind the prefix and loses none |
| `Feeds.DeleteRemoves` | event/feed.go:213-215 | deleting removes one occurrence, from the prefix too if it lay there |
| `Feeds.Find` | event/feed.go:203-210 | the first index, or -1 exactly if there is none |
| `Feeds.Delete` | event/feed.go:213-215 | shifts the tail over the deleted case in place |
| `Feeds.Deactivate` | event/feed.go:218-222 | swaps in place with the end of the prefix |
| `Feeds.SetValues` | event/feed.go:136-139 | all channels kept, all values set |
| `Feeds.Delivers` | event/feed.go:150-153 | a delivery keeps the books balanced |
| `Feeds.Removes` | event/feed.go:161-167 | so does a removal, in the served or the unserved part |
| `Feeds.Served` | event/feed.go:168-171 | accounts for exactly the case deactivated |
| `Feeds.TrySends` | event/feed.go:149-155 | the non-blocking pass, for every outcome; ends |
| `Feeds.RemoveOnRequest` | event/feed.go:161-167 | finds the channel beyond slot 0 and removes one occurrence |
| `Feeds.DeleteSub` | event/feed.go:162-163 | deletes the first slot of a subscribed channel, never slot 0 and never -1 |
| `Feeds.SelectOne` | event/feed.go:159-171 | every choice of select keeps the books, and something shrinks |
| `Feeds.Deliver` | event/feed.go:141-172 | ends with every channel served or removed |
| `Feeds.Settled` | event/feed.go:118-180 | balanced books at the end: exactly once if not removed, at most once if removed, and what remains is the merged list less the removed |
| `Feeds.Feed.Subscribe` | event/feed.go:86-92 | one more subscription |
| `Feeds.Feed.Remove` | event/feed.go:95-116 | one less, wherever it sits |
| `Feeds.Feed.MergeInbox` | event/feed.go:130-134 | the list becomes all subscriptions |
| `Feeds.Feed.Send` | event/feed.go:120-180 | the log of deliveries and removals balances with the list left; the count is the number of deliveries of the value; slot 0 and the empty values are restored |
| `FeedProtocols.WaitingIsListed` | event/feed.go:108-115 | a remove that waits finds its channel beyond slot 0 |
| `FeedProtocols.InvSubscribe` | event/feed.go:73-93 | subscribing keeps the invariant |
| `FeedProtocols.InvUnsubscribe` | event/feed.go:95-106 | so does looking in the inbox |
| `FeedProtocols.InvRemoved` | event/feed.go:108-115 | so does removing, with or without a Send in progress |
| `FeedProtocols.InvMerge` | event/feed.go:128-134 | so does merging the inbox |
| `FeedProtocols.InvDeliver` | event/feed.go:149-155 | so does a delivery |
| `FeedProtocols.InvStep` | event/feedof.go:51-146 | every action of the protocol, which the generic feed shares, keeps it |
| `FeedProtocols.ReachableInv` | event/feed.go:73-180 | in every reachable state each open subscription is in exactly one of inbox and list and no delete has panicked |
| `FeedProtocols.NoDeliveryAfterUnsubscribe` | event/feed.go:189-194 | nothing is delivered on a channel all of whose Unsubscribe calls have returned |
| `FeedProtocols.SendIsExact` | event/feed.go:118-180 | a Send about to finish has served exactly whom it should |
| `Balances.WrapIsModular` | core/state_transition.go:463-466 | conversion to 256 bits ignores multiples of 2^256 |
| `Balances.WrapAdd` | core/state_transition.go:463-466 | converting a summand first makes no difference |
| `Balances.WrapMul` | core/state_transition.go:463-466 | nor does converting a factor |
| `Balances.AddMovesTotal` | core/state_transition.go:489-501 | adding moves the supply by the amount while it fits |
| `Balances.SubMovesTotal` | core/state_transition.go:271-273 | subtracting does exactly if the balance covers it |
| `Balances.TransferConserves` | core/evm.go:131-141 | a permitted transfer conserves the supply and moves the amount, also to oneself |
| `Intrinsics.ToWordSize` | core/state_transition.go:123-129 | the least number of words covering the size, up to the largest size |
| `Intrinsics.GuardIsExact` | core/state_transition.go:93-112 | the division guard detects exactly the sums that do not fit |
| `Intrinsics.DataGasChecked` | core/state_transition.go:74-112 | overflow exactly if the cost does not fit 64 bits, else the cost |
| `Intrinsics.IntrinsicGas` | core/state_transition.go:73-120 | the same with the access list, added modulo 2^64 |
| `Transitions.GasPool.AddGas` | core/gaspool.go:29-35 | panics exactly if the pool would not fit 64 bits |
| `Transitions.GasPool.SubGas` | core/gaspool.go:39-45 | refuses exactly what the pool does not hold |
| `Fees.DepositCovered` | core/state_transition.go:238-264 | after the checks, deposit plus value is at most the balance required |
| `Fees.ContextIsOrdinary` | core/vm/evm.go:163-174 | a message priced for a block is priced for the context NewEVM makes of it, base fees disabled or not |
| `Fees.UnderpricedIsFree` | core/state_transition.go:317-323 | only free messages of the coinbase to a system contract get through below the base fee |
| `Fees.PriceFits` | core/state_transition.go:259-264 | a message whose required balance fits 256 bits has a price that does |
| `Fees.PriceSplits` | core/state_transition.go:169-172 | the effective price is the effective tip plus the base fee if and only if the fee cap pays the base fee |
| `Fees.GasSplits` | core/state_transition.go:451-479 | gas bought is gas returned plus tip plus base fee |
| `Fees.CappedRefund` | core/state_transition.go:489-495 | the largest refund within the counter and the quotient of the gas used |
| `Fees.SettledTotal` | core/state_transition.go:451-507 | settling restores the deposit to the supply less what is burned |
| `Fees.WordsAreExact` | core/state_transition.go:463-507 | the conversions of the settlement to 256 bits make no difference to any balance |
| `Fees.UnderpricedPayee` | core/state_transition.go:459-479 | below the base fee settling takes the base fee from the payee, modulo 2^256, and leaves every other balance as it was |
| `Fees.UncoveredExample` | core/state_transition.go:459-479 | a message with a payee that owns nothing, which ends up with 2^256 less the fee |
| `Fees.SettlementSupply` | core/state_transition.go:451-507 | the supply moves by what is burned if and only if the message pays the base fee or the payee owns it |
| `Transitions.StateTransition.BuyGas` | core/state_transition.go:238-275 | refuses exactly for lack of funds or of pool; otherwise pool, counters and balance move together |
| `Transitions.StateTransition.Purchase` | core/state_transition.go:277-359 | the exact error; the deduction does not underflow, and the value is still there |
| `Transitions.StateTransition.TakeIntrinsic` | core/state_transition.go:404-432 | the exact error after the purchase; both errors of clause 6 are dead |
| `Transitions.StateTransition.RefundGas` | core/state_transition.go:489-507 | refund, balance and pool together; panics exactly if price or pool do not fit |
| `Transitions.StateTransition.PayFees` | core/state_transition.go:459-479 | who is paid what |
| `Transitions.Settles` | core/state_transition.go:451-487 | the settled words are what the EVM's run determines, and conserve the supply if and only if covered |
| `Transitions.StateTransition.Settle` | core/state_transition.go:451-479 | the quotient of the fork; neither the price nor the pool panics |
| `Transitions.StateTransition.Execute` | core/state_transition.go:434-486 | the EVM runs once and its result is settled exactly |
| `Transitions.StateTransition.TransitionDb` | core/state_transition.go:371-487 | fails exactly as the clauses say; otherwise pool, gas used, refund and accounts follow from the EVM's run, and the supply if and only if an underpriced message is covered |
| `Processors.ApplyTransaction` | core/state_processor.go:158-208 | the transition's own verdict; receipt, accounts, pool and supply against the EVM's run |
| `Processors.UnderpricedIsSystem` | consensus/parlia/parlia.go:317-330 | a transaction that gets through below the base fee is among the free ones of the coinbase to a system contract, all of which Parlia takes as system transactions |
| `Processors.AcceptedStep` | core/state_processor.go:116-137 | replaying one more transaction on its run of the EVM |
| `Processors.ApplyPriced` | core/state_processor.go:158-187 | the supply moves by the EVM's change less the burned fees |
| `Processors.ApplyOrdinary` | core/state_processor.go:122-136 | the verdict is the one that replaying the transactions before leads to |
| `Processors.LoopSystem` | core/state_processor.go:107-115 | a system transaction keeps the loop's accounts |
| `Processors.LoopOrdinary` | core/state_processor.go:116-137 | so does an ordinary one |
| `Processors.ProcessOne` | core/state_processor.go:106-137 | one turn of the loop, or the exact reason for rejecting the block |
| `Processors.Process` | core/state_processor.go:61-156 | accepted exactly as the replay says, with pool plus used gas the gas limit, cumulative gas the prefix sum, from Cancun on ordinary before system transactions, supply changed by the EVM less base fee times gas used; or rejected with the first failing transaction's own error |
| `HdPaths.ParseComponent` | accounts/hd.go:90-113 | an accepted component fits 32 bits |
| `HdPaths.ParseDerivationPath` | accounts/hd.go:68-118 | computes the parse, with each error |
| `HdPaths.AppendComponents` | accounts/hd.go:90-117 | the loop stops at the first bad component |
| `HdPaths.String` | accounts/hd.go:122-136 | computes the printed form |
| `HdPaths.DecimalReadsBack` | accounts/hd.go:101-104 | a printed number is never read in another base |
| `HdPaths.ComponentRoundTrip` | accounts/hd.go:90-136 | a printed component parses to itself, hardened or not |
| `HdPaths.RoundTrip` | accounts/hd.go:68-136 | parsing a printed path gives it back exactly if it is not empty |
| `HdPaths.ParsePrintParse` | accounts/hd.go:68-136 | printing and parsing again what was accepted, in any base, spacing or relative form, changes nothing |
| `HdPaths.PrintInjective` | accounts/hd.go:120-136 | one printed form per path |
| `HdPaths.WhitespaceIgnored` | accounts/hd.go:91-99 | white space around a component does not matter |
| `HdPaths.PathIterator.Next` | accounts/hd.go:154-180 | the n-th call gives the base with n - 1 added to the stepped component on 32 bits, in the closure's own array |

## Left out

- LevelDB, the freezer's files, RLP, tries, snapshots and prefetchers: the database is an abstract value, states are sets of available and recoverable roots.
- The EVM interpreter, signature recovery, KZG and Keccak: methods or values of which only the stated facts are known.
- Parlia's votes, snapshots and turn order, and the engine's Finalize: a justified number is a function of the header; block results end before Finalize.
- eth/, ethclient/, ethstats/, graphql/ and console/: networking, RPC and user interface.
- InsertReceiptChain, ancient writes, diff layers, remote verification and the transaction indexer: input and output and timers around the store modelled here.
- insertChain and insertSideChain: they depend on validator and processor behaviour outside this model.
- Events, logs, metrics, gauges and wall-clock throttling: they do not feed back into the state modelled.
- Block, body, receipt and lookup caches of core/blockchain.go: only the header chain's caches are modelled.
- Write errors of a batch: the source exits the process.
- The `repair` mode of setHeadBeyondRoot, its final reload of the last state, and the hash-to-number mapping: they do not change what the rewind itself leaves behind.
- A restart of the indexer from the count it persisted: the protocol begins with a new indexer or any state its invariants hold in.
- What a Sections reports while a failed Reset runs beneath it: its reads of count and head need not belong together.
- Child indexers: a reorganisation passes them a height one too high, so their cascade has no clean statement beyond the parent's.
- Access lists are counted, not listed; the wrap-around of their unchecked addition is modelled.
- Invalid UTF-8 in derivation paths: strings are sequences of characters.
- Rewinds.Recover: which other states survive a recovery is not modelled, so nothing is promised about them.
- GetHashFns.GetHashFn.Query: the store is fixed while one closure lives.
- Indexers.ChainIndexer.ProcessSection: the object's version reads a chain that stays still; the protocol has the moving one.
- Processors.Process: a rejected block promises the reason and nothing more about the state, which the caller discards.
