# A verified model of the chain under DogecoinVM

DogecoinVM embeds btcd's block tree and lets Snowman consensus decide which block
comes next. This project models the parts of it where a mistake would lose or fork
the chain, and proves what they are for, from bit tricks on block heights up to
finality across crashes. Everything is Dafny; `dafny verify dfyconfig.toml` checks
the whole of it.

How the modules build on each other:

- **`Wire`**, **`Bits`**, **`BlockTree`**: blocks, the skip pointer arithmetic, and the
  tree of block nodes. A node is a value that holds its parent and its skip pointer.
  Plain parent walking (`At`, `Path`) is the reference for everything faster.
- **`MedianTime`**: the past median time, the clock of BIP 113.
- **`ChainView`**, **`Locate`**: the flat view of one branch, an array reused as the tip
  moves; block locators; the range queries served to peers.
- **`Utxo`**: unspent outputs, connecting and disconnecting a block with its journal.
  Connecting adds outputs over unspent ones without a word, as the code does.
- **`ChainSpec`**, **`ChainSafety`**: chain selection as functions of the chain state
  (index, statuses, best chain, ledger, snapshot), the invariant `Sound`, and what holds
  over every run of accepted blocks. `Sound` says that ledger and snapshot are those of
  replaying the best chain from genesis, that its blocks are validated and not
  invalidated, and that only blocks that can be replayed count as validated.
- **`Spending`**: what connecting a block means for every single output, said without
  the functions that connect it, and the order of the spend journal.
- **`TxIdentity`**: why, on a chain whose coinbases all differ, no block replaces an
  unspent output, with or without the check of BIP 30.
- **`Invalidation`**: InvalidateBlock and ReconsiderBlock as functions of the chain state,
  and the leaves off the best chain that drive both.
- **`ForkChoice`**: what a reorganization leaves, exactly, and from it when InvalidateBlock
  and ReconsiderBlock leave a heaviest chain, which tip, and which nodes flagged.
- **`CoinbaseBlocks`**, **`Histories`**: runs from genesis, out of blocks with a coinbase
  and nothing else, in which they do not leave what one might expect.
- **`BlockChain`**: the class that does all this the way the code does, with work lists, a
  dry run on a scratch view, and one block off or on at a time. Each method is proved to
  end in the state, and with the error, that the functions above give.
- **`FilterCheckpoints`**, **`FilterHistories`**: the checkpoint cache of BIP 157, a Go
  slice grown in place, and a run from genesis after which it can hold two chains.
- **`AddrManager`**, **`AddrMeaning`**: the address manager's buckets, lists and reference
  counts, and what its operations mean for a caller, with the numbers written out.
- **`Adapter`**, **`AdapterRuns`**, **`AdapterHistories`**, **`BlockAdapter`**: the Snowman
  adapter, first as a state machine with a failure or a crash possible between any two
  writes, with what its runs promise and runs where a promise stops; then as the class
  whose methods take the steps of that machine.
- **`Processing`**: what ProcessBlock, InvalidateBlock and ReconsiderBlock answer for any
  block, and what the answer says about where the block is afterwards.
- **`Builder`**: the wake-up protocol of the block builder as an interleaving of threads.

Validation rules are arbitrary predicates (`Rules`), so every result holds whatever the
rules are. Hashes are identifiers. Time, randomness, bucket hashes, database outcomes and
the capacity Go gives a reallocated slice are parameters.

Where the code differs from what is written about it, the model follows the code:

- InvalidateBlock is documented to invalidate all descendants and to leave the parent as
  the tip. For a block of the best chain the code flags only its descendants on the best
  chain, then picks a tip of most work, and reorganizes to it; the pick may be a
  descendant that it did not flag, and then the chain stays at the parent.
  `InvalidatedFlags` says exactly when all descendants end up flagged, `InvalidatedTip`
  exactly when the parent is the tip, and `HeavierLeafLeft` and `MovesFromParent` are runs
  where they are not.
- After either of InvalidateBlock and ReconsiderBlock a heavier chain free of invalid
  blocks may be left aside, and its end may be a leaf: InvalidateBlock gives up when its
  pick is no good, and ReconsiderBlock tries only the leaf it came upon last.
  `InvalidatedHeaviest` and `ReconsideredHeaviest` say exactly when the heaviest chain is
  kept; `HeavierLeafLeft` and `HeavierLeafSkipped` are runs where it is not.
- A rule violation in accept is commented as found before btcd changes anything. That
  holds of the best chain and the ledger. `RuleViolation` says exactly when the block is
  left in the index all the same, with its failure; `FailedForGood` follows it through a
  run, in which the block is a duplicate from then on, and `FailedBlockLeft` is such a run.
- ProcessBlock says that a block is on the main chain also when it leaves the chain where
  it is, because an ancestor of the block is known to be invalid. `MainChainMeans` says
  exactly when, and `SaidToBeMain` is a run from genesis that leads to it.
- The last seen time of an address can go back: an older sighting with a service not seen
  before replaces it, and no other older one does (`SeenAgain`).
- Accept may return an error for a block that is final after the next restart
  (`UnpersistedYetFinal`, `HalfDoneYetFinal`); until then the VM accepts nothing
  (`BrokenLatches`).
- Connecting a block is undone by disconnecting it exactly when the block replaced no
  unspent output (`DisconnectUndoesConnect`); `CoinbaseMadeTwice` is a block that does.
  The code checks this below the height of BIP 34 only, and says that such blocks cannot
  occur above it: `NothingReplaced` proves so from distinct coinbases.
- A request for filter checkpoints that fails half-way can leave the headers of two chains
  in the cache; `SingleChainKept` says exactly when, and `MixedHistory` is a run from
  genesis that leads to it.
- The acknowledged blocks alone need not be a prefix of the chain on disk: a restart can
  find a block whose Accept never returned. `AckedPrefixOfRun` says exactly in which runs
  they are, and `RecoveredThenAcked` is a run where they are not. `Durable` states what
  always holds.

## Model

| member | source | states |
|---|---|---|
| Bits.InvertLowestOneBits | btcd/blockchain/blockindex.go:171-174 | n & (n-1) clears the lowest one bit: digit by digit, and it is smaller for n > 0 |
| Bits.AncestorHeightMod4 | btcd/blockchain/blockindex.go:176-182 | the skip height of 4y + r for each r, in terms of y |
| Bits.AncestorHeightBelow | btcd/blockchain/blockindex.go:176-190 | a skip pointer always goes strictly down |
| Bits.FastLog2Floor | btcd/blockchain/chainview.go:18-32 | the masked shifts give the floor of the base-2 logarithm for every positive 32-bit number, and 0 for 0 |
| BlockTree.NewBlockNode | btcd/blockchain/blockindex.go:105-136 | every node built on a tree of such nodes has the right height, work, parent hash and skip pointer, down to genesis |
| BlockTree.WorkSumIs | btcd/blockchain/blockindex.go:105-136 | the work sum of a node is the work of all blocks from genesis to it |
| BlockTree.Ancestor | btcd/blockchain/blockindex.go:192-221 | the skip search ends at the node plain parent walking ends at, is nil exactly out of range, and iterates exactly Steps times |
| BlockTree.StepsQuadrupled | btcd/blockchain/blockindex.go:171-221 | four times height and target: the same parent steps, and one more skip for each of them |
| BlockTree.StepsBetween | btcd/blockchain/blockindex.go:171-221 | step counts for targets between multiples of four |
| BlockTree.StepsFromPowerOfTwo | btcd/blockchain/blockindex.go:171-221 | from height 2^(2k+1), every target takes at most (k+1)(3k+2)/2 steps |
| BlockTree.StepsToHeightOne | btcd/blockchain/blockindex.go:171-221 | height 1 takes exactly that many, so the bound is attained |
| BlockTree.WorstCaseFrom29Bits | btcd/blockchain/blockindex.go:171-182 | from height 2^29 at most 330 iterations for every target, and 330 for target 1 |
| BlockTree.StepsFromAnyHeight | btcd/blockchain/blockindex.go:171-221 | from any height below 2^(2k), for every target, at most 5k(k+1)/2 steps: quadratic in the bit length |
| BlockTree.AnyHeightBoundClosed | btcd/blockchain/blockindex.go:171-221 | the closed form of that bound |
| MedianTime.CalcPastMedianTime | btcd/blockchain/blockindex.go:308-345 | the timestamp of one of the last eleven blocks, all of them near genesis; at least v exactly when m - m/2 of these m blocks or more have timestamps of at least v |
| MedianTime.MedianOfEleven | btcd/blockchain/blockindex.go:308-345 | the same of the past median time that the snapshot and the timestamp rule use |
| MedianTime.MedianOfHeights | btcd/blockchain/blockindex.go:308-345 | on numbers: timestamps 0 to 10 have median 5 |
| MedianTime.MedianOf | btcd/blockchain/blockindex.go:325-344 | of n timestamps it is one, and it is at least v exactly when n - n/2 of them or more are |
| MedianTime.MedianUnique | btcd/blockchain/blockindex.go:325-344 | that determines it: no other number is at least exactly the same values |
| MedianTime.SortCounts | btcd/blockchain/blockindex.go:325-329 | sorting keeps how many timestamps are at least any value |
| MedianTime.MedianAtLeast | btcd/blockchain/blockindex.go:331-344 | the element in the middle after sorting is at least v exactly when n - n/2 of the n timestamps or more are |
| MedianTime.MedianStep | btcd/blockchain/validate.go:692-699 | one block later than its parent's median time does not lower the median time |
| MedianTime.MedianTimeMonotone | btcd/blockchain/blockindex.go:308-345 | along any chain whose timestamps obey the rule, the past median time never decreases, short even windows included |
| ChainView.View.constructor | btcd/blockchain/chainview.go:54-59 | the view of a tip is its whole chain |
| ChainView.View.SetTip | btcd/blockchain/chainview.go:108-148 | from any consistent view, shrinking, regrowing over stale storage and resetting included, the view becomes exactly the chain of the new tip despite the early exit |
| ChainView.View.Fill | btcd/blockchain/chainview.go:144-147 | the loop that stops at the first entry already right leaves every entry right |
| ChainView.View.NodeByHeight | btcd/blockchain/chainview.go:185-198 | the node of the branch at a height, nil exactly out of range |
| ChainView.View.Contains | btcd/blockchain/chainview.go:224-230 | one comparison decides membership in the branch |
| ChainView.View.Next | btcd/blockchain/chainview.go:243-259 | the child on the branch, nil exactly for nodes off it and the tip |
| ChainView.View.FindFork | btcd/blockchain/chainview.go:285-322 | the highest node common to the node's chain and the view, nil exactly when there is none |
| ChainView.View.BlockLocator | btcd/blockchain/chainview.go:350-414 | the locator of the node, or of the tip when none is given |
| ChainView.LocatorShape | btcd/blockchain/chainview.go:357-414 | a locator starts at the node, descends strictly along the node's own chain and ends at genesis |
| ChainView.LocatorLength | btcd/blockchain/chainview.go:366-381 | its length is exactly the number of entries computed beforehand |
| ChainView.MaxEntries | btcd/blockchain/chainview.go:366-381 | that number, computed with fastLog2Floor, fits its eight bits |
| Locate.LocateInventory | btcd/blockchain/chain.go:1662-1725 | the block after the one resumed at, none exactly when that is the tip, and how many blocks there are to the stop block, if it is still to come, or else to the tip, unless they are more than may be served; without a locator, the stop block if it is known |
| Locate.LocateBlocks | btcd/blockchain/chain.go:1727-1750 | the hashes right after the block resumed at, none above the stop block if it is still to come; the last is the stop block or else the tip, or there are as many as may be served |
| Locate.ResumesFirst | btcd/blockchain/chain.go:1693-1702 | a locator resumes at its first hash that is on the best chain, and at genesis if none is |
| Locate.Follow | btcd/blockchain/chain.go:1741-1748 | following next that many times stays on the best chain and gives its stretch of hashes |
| Locate.LocatorOvershoot | btcd/blockchain/chain.go:1678-1725 | a locator from height h forking off at f resumes at a common ancestor s with s = f when h - f <= 11 and f - s <= h - f - 11 otherwise |
| Locate.OvershootOfFork | btcd/blockchain/chain.go:1678-1725 | the same from the highest block two chains share, which findFork finds |
| Locate.IntervalBlockHashes | btcd/blockchain/chain.go:1623-1660 | the hashes of the end block's own ancestors at every positive multiple of the interval, an error exactly for unknown or unvalidated blocks |
| Utxo.SpendMeans | btcd/blockchain/utxoviewpoint.go:283-314 | inputs can be spent exactly when each is unspent and none named twice; exactly they are gone, each recorded at its position |
| Utxo.ConnectTxMeans | btcd/blockchain/utxoviewpoint.go:269-319 | a transaction connects exactly when its inputs can be spent, also over unspent outputs; exactly which outputs are then unspent, and with what contents |
| Utxo.ConnectCounts | btcd/blockchain/chain.go:848-856 | connecting a block records as many coins as countSpentOutputs says |
| Spending.BlockConnects | btcd/blockchain/utxoviewpoint.go:269-359 | a block connects if and only if each transaction after the coinbase finds all of its inputs there when its turn comes, none named twice; exactly what was made and not spent since, or was there and not spent, is unspent afterwards |
| Spending.BlockHolds | btcd/blockchain/utxoviewpoint.go:269-319 | what an unspent output holds: what its last maker in the block paid, with the height of the block, marked as a coinbase exactly if made by the first transaction, or what it held before |
| Spending.EveryInputSpent | btcd/blockchain/utxoviewpoint.go:283-314 | every input of every transaction after the coinbase is unspent just before it, and unspent after the block only if that transaction or a later one makes it |
| Spending.CoinbaseSpendsNothing | btcd/blockchain/utxoviewpoint.go:275-281 | the inputs of a coinbase are not spent, and nothing is recorded for them |
| Spending.JournalOrder | btcd/blockchain/utxoviewpoint.go:297-307 | the journal has one coin for each input of the transactions after the coinbase, in their order, each as it was just before its transaction |
| Spending.CountsEveryInput | btcd/blockchain/chain.go:848-856 | countSpentOutputs is the number of all inputs of all transactions after the coinbase |
| Spending.DisconnectNeeds | btcd/blockchain/utxoviewpoint.go:361-497 | disconnecting goes through exactly when the journal has that many coins |
| Utxo.UnspendUndoesSpend | btcd/blockchain/utxoviewpoint.go:430-489 | restoring recorded coins undoes spending them |
| Utxo.DisconnectUndoesConnectTx | btcd/blockchain/utxoviewpoint.go:361-497 | disconnecting a transaction restores the unspent outputs exactly when it replaced none that was unspent and that it did not spend |
| Utxo.DisconnectUndoesConnect | btcd/blockchain/utxoviewpoint.go:361-497 | disconnecting a block with its journal restores the unspent outputs exactly, spends inside the block included, if and only if the block replaced no output that was unspent |
| Utxo.KeepsUnspentMeans | btcd/blockchain/validate.go:930-959 | that condition, transaction by transaction: an output that was unspent is made again only at or after a transaction that spends it |
| Utxo.UndoAt | btcd/blockchain/utxoviewpoint.go:361-497 | undoing a block on any coins, output by output: back if the block spent it first, gone if the block made it first, else untouched |
| Utxo.CoinbaseMadeAgain | btcd/blockchain/utxoviewpoint.go:269-281 | every coinbase made twice with its first output unspent: after disconnecting the second the output is gone |
| Utxo.CoinbaseMadeTwice | btcd/blockchain/utxoviewpoint.go:269-281 | the same on numbers |
| TxIdentity.DistinctTxs | btcd/blockchain/validate.go:1113-1139 | on a chain whose coinbases differ from every other transaction, no transaction occurs twice |
| TxIdentity.NothingReplaced | btcd/blockchain/validate.go:1113-1139 | the next block of such a chain replaces no unspent output, so that skipping the check of BIP 30 changes nothing |
| TxIdentity.ReplaySame | btcd/blockchain/validate.go:1113-1139 | replaying such a chain with and without that check gives the same ledger |
| ChainSpec.AttachSplits | btcd/blockchain/chain.go:518-545 | the chain of a node is the best chain up to the fork and the nodes to attach |
| ChainSpec.PathDistinct | btcd/blockchain/blockindex.go:402-420 | no hash occurs twice on a chain |
| ChainSafety.CheckOutcome | btcd/blockchain/chain.go:979-1140 | the dry run stops at the first block that is not validated and breaks a rule on the chain up to it (StopAt), passes exactly when there is none, leaves exactly the statuses that follow, and never misses an input of a validated block |
| ChainSafety.VerdictSound | btcd/blockchain/chain.go:1085-1137 | a dry run leaves the statuses of the best chain alone, takes no invalidity back, and marks as valid only what can be replayed |
| ChainSafety.ReorganizeToSound | btcd/blockchain/chain.go:872-970 | atomicity: a reorganization ends on exactly the node's chain, or changes nothing but statuses of nodes to attach and leaves the node known to be invalid |
| ChainSafety.MarkInvalidSound | btcd/blockchain/chain.go:530-543 | marking nodes off the best chain keeps the invariant |
| ChainSafety.ConnectBestSound | btcd/blockchain/chain.go:1156-1290 | connecting a node keeps the invariant, and never fails an assertion |
| ChainSafety.AcceptSound | btcd/blockchain/accept.go:24-94 | accepting any block keeps the invariant, never fails an assertion, and changes the best chain only by extending it with the block or by switching to a strictly heavier chain that ends in it |
| ChainSafety.AcceptHeaviest | btcd/blockchain/chain.go:1246-1290 | tip work never decreases, equal work never displaces the tip, and every heavier node is known to be invalid or has an ancestor that is |
| ChainSafety.RunSafe | btcd/blockchain/accept.go:24-94 | the same over every run of blocks |
| ChainSafety.HeaviestChain | btcd/blockchain/accept.go:24-94 | in every state of every run from genesis the tip is a heaviest chain not known to be invalid, and no lighter than in any earlier state |
| ChainSafety.GenesisSound | btcd/blockchain/chainio.go:1074-1093 | the state made from a genesis block satisfies the invariant |
| BlockChain.JournalKeys | btcd/blockchain/chain.go:667-673 | the spend journal holds exactly the blocks of the best chain after genesis |
| BlockChain.JournalStable | btcd/blockchain/chain.go:1052-1065 | a block's journal entry stays what it was when the block was connected |
| BlockChain.DisconnectReplay | btcd/blockchain/chain.go:905-922 | disconnecting the tip of a replayed chain gives the ledger of replaying one block less |
| BlockChain.Chain.constructor | btcd/blockchain/chainio.go:1074-1093 | the chain of a genesis block |
| BlockChain.Chain.ConnectBlock | btcd/blockchain/chain.go:571-700 | the block must extend the best chain and bring one coin for each spent input; the new view, journal and snapshot |
| BlockChain.Chain.DisconnectBlock | btcd/blockchain/chain.go:722-846 | the node must be the tip; the view, coins, journal and snapshot one block back |
| BlockChain.Chain.DetachOne | btcd/blockchain/chain.go:893-922 | a round of disconnecting leads to the replayed state of the shorter chain, and never to its assertion |
| BlockChain.Chain.AttachOne | btcd/blockchain/chain.go:931-956 | a round of connecting leads to the replayed state of the longer chain, and never to its assertion |
| BlockChain.Chain.UndoOnView | btcd/blockchain/chain.go:1021-1071 | undoing blocks on a scratch view reaches the coins of replaying the chain up to the fork |
| BlockChain.Chain.CheckOnView | btcd/blockchain/chain.go:1073-1137 | the second half of the dry run gives the statuses and the error of the dry run as a function |
| BlockChain.Chain.VerifyReorganizationValidity | btcd/blockchain/chain.go:979-1140 | the whole dry run, which changes statuses only; the journal entries it loads are those of the blocks to detach |
| BlockChain.Chain.ReorganizeChain | btcd/blockchain/chain.go:872-970 | disconnecting and connecting one at a time ends in exactly the state, and with the error, of the reorganization as a function; a passed dry run meets no failure when committed |
| BlockChain.Chain.FindFork | btcd/blockchain/chain.go:523 | the fork is where the nodes to attach begin |
| BlockChain.Chain.CollectAttach | btcd/blockchain/chain.go:523-531 | the walk collects the nodes above the nearest one known to be invalid, all of them when there is none |
| BlockChain.Chain.CollectDetach | btcd/blockchain/chain.go:545-550 | the best chain above the fork, tip first |
| BlockChain.Chain.GetReorganizeNodes | btcd/blockchain/chain.go:507-553 | the lists, and the statuses left with them: reorganizing by the lists is reorganizing to the node, also when the lists are empty because of an invalid ancestor |
| BlockChain.PlannedTo | btcd/blockchain/chain.go:507-553 | the collected lists connect to the fork and to each other, so the must-extend and must-be-at-the-end checks hold |
| BlockChain.Chain.ConnectBestChain | btcd/blockchain/chain.go:1156-1290 | the three branches, state and result, of connecting as a function |
| BlockChain.Chain.ExtendBestChain | btcd/blockchain/chain.go:1170-1244 | the first branch: checks skipped for validated blocks, flags set as they are |
| BlockChain.Chain.MaybeAcceptBlock | btcd/blockchain/accept.go:24-94 | state and result of accepting as a function, and with it all that is proved of that |
| BlockChain.Chain.CheckConnectBlockTemplate | btcd/blockchain/validate.go:1369-1407 | a block is valid for the tip exactly when it names the tip, is sane, and passes the rules of its context and of connecting; nothing changes |
| BlockChain.Chain.MarkAll | btcd/blockchain/chain.go:533-543 | exactly the listed nodes are flagged as having an invalid ancestor |
| BlockChain.Chain.CollectOrphans | btcd/blockchain/blockindex.go:460-472 | exactly the nodes off the best chain, and exactly their parents |
| BlockChain.Chain.SelectTips | btcd/blockchain/blockindex.go:474-488 | exactly the orphans that are no orphan's parent, although entries are deleted on the way |
| BlockChain.Chain.InactiveTips | btcd/blockchain/blockindex.go:453-489 | exactly the leaves of the tree off the best chain, none twice |
| BlockChain.Chain.UpdateDescendants | btcd/blockchain/chain.go:1848-1869 | walking down from every tip reaches every descendant of a node off the best chain, and there always is a tip at or above it |
| BlockChain.Chain.SelectBestTip | btcd/blockchain/chain.go:1911-1935 | a tip of most work among those not known to be invalid, none exactly when all are |
| BlockChain.Chain.CondemnAbove | btcd/blockchain/chain.go:1883-1895 | every block of the best chain above the invalidated one is flagged and listed, tip first |
| BlockChain.Chain.InvalidateSide | btcd/blockchain/chain.go:1841-1878 | for a block off the best chain, the statuses of it and of exactly its descendants change |
| BlockChain.Chain.InvalidateMain | btcd/blockchain/chain.go:1880-1951 | for a block of the best chain, the chain ends in its parent and then moves to a best tip |
| BlockChain.Chain.MoveToBest | btcd/blockchain/chain.go:1911-1951 | the chain moves to a tip of most work not known to be invalid, leaves off the chain and its own end considered |
| BlockChain.Chain.InvalidateBlock | btcd/blockchain/chain.go:1820-1951 | all cases of InvalidateBlock, errors included |
| BlockChain.Chain.ClearDescendants | btcd/blockchain/chain.go:1975-2009 | flags are cleared on the block and on exactly its descendants; a tip to reconsider is always found |
| BlockChain.Chain.VerifyAndReorganize | btcd/blockchain/chain.go:2017-2041 | verifying first and then reorganizing, which verifies again, is one reorganization to the tip, and no error |
| BlockChain.Chain.ReconsiderBlock | btcd/blockchain/chain.go:1956-2041 | all cases of ReconsiderBlock |
| BlockChain.CheckValidated | btcd/blockchain/chain.go:1101-1115 | validated blocks pass a second dry run unchanged |
| Invalidation.LeafAbove | btcd/blockchain/blockindex.go:456-489 | every node off the best chain is below a leaf off the best chain, or is one |
| Invalidation.IsAncestor | btcd/blockchain/blockindex.go:277-298 | true exactly for proper ancestors |
| Invalidation.InvalidatedSideSound | btcd/blockchain/chain.go:1841-1878 | afterwards exactly the nodes invalid before, the block and all its descendants are known to be invalid; the best chain and its ledger are as before |
| Invalidation.TruncatedSound | btcd/blockchain/chain.go:1880-1906 | the invariant holds again once the invalidated blocks are off the chain |
| Invalidation.TruncatedFlags | btcd/blockchain/chain.go:1880-1906 | before the chain moves on: all descendants of a block of the best chain are flagged exactly when each was on the best chain or invalid already |
| Invalidation.InvalidatedSound | btcd/blockchain/chain.go:1820-1951 | InvalidateBlock keeps the invariant; the block is then invalid and neither it nor a descendant is on the best chain |
| Invalidation.ReconsideredSound | btcd/blockchain/chain.go:1970-2009 | the block is no longer invalid, descendants only if they failed themselves, no other node changes |
| Invalidation.ReconsiderUndoesInvalidate | btcd/blockchain/chain.go:1956-2009 | before the chain moves on: reconsidering undoes invalidating a block off the best chain exactly when no descendant was invalid by ancestry alone before |
| Invalidation.ReconsideredToSound | btcd/blockchain/chain.go:1956-2041 | ReconsiderBlock keeps the invariant, and the tip's work does not decrease |
| Invalidation.HistorySound | btcd/blockchain/chain.go:1820-2041 | over every run of accepting, invalidating and reconsidering, ledger and snapshot are those of the best chain, and no block of it has an invalid ancestor |
| ForkChoice.ReorganizeExact | btcd/blockchain/chain.go:507-553 | a reorganization to any node, exactly: whether the chain moves, which nodes are known to be invalid afterwards, and which nodes have such an ancestor |
| ForkChoice.ReorganizeHeaviest | btcd/blockchain/chain.go:872-970 | it leaves a heaviest chain exactly when no node free of invalid ancestors, before and after, has more work than the node or, if the chain stays, the old tip |
| ForkChoice.InvalidatedHeaviest | btcd/blockchain/chain.go:1820-1951 | InvalidateBlock leaves a heaviest chain if and only if nothing viable outweighs the picked tip, if the chain moves to it, or the parent, if an ancestor of the pick is invalid or breaks a rule |
| ForkChoice.InvalidatedTip | btcd/blockchain/chain.go:1815-1951 | the parent of an invalidated block of the best chain is the tip afterwards if and only if it is the pick or the chain does not move to the pick; otherwise the pick is the tip |
| ForkChoice.InvalidatedFlags | btcd/blockchain/chain.go:1815-1951 | InvalidateBlock leaves all descendants flagged if and only if each was on the best chain, invalid already, or flagged by the reorganization to the pick |
| ForkChoice.ReconsideredTaint | btcd/blockchain/chain.go:1975-2009 | which ancestors still count against a node once a block is reconsidered |
| ForkChoice.ReconsideredHeaviest | btcd/blockchain/chain.go:1956-2041 | ReconsiderBlock leaves a heaviest chain if and only if nothing free of invalid ancestors outweighs the one leaf it tries, if the chain moves there, or the old tip, if not |
| ForkChoice.ReconsiderRestores | btcd/blockchain/chain.go:1956-2041 | ReconsiderBlock, to its end, undoes invalidating a block off the best chain if and only if its own reorganization flags every descendant that was invalid by ancestry alone, and nothing that was not invalid |
| Histories.HeavierLeafLeft | btcd/blockchain/chain.go:1911-1951 | a run from genesis: InvalidateBlock stays at the parent with a heavier valid leaf untried and a descendant unflagged |
| Histories.MovesFromParent | btcd/blockchain/chain.go:1815-1951 | a run from genesis: InvalidateBlock does not leave the parent as the tip |
| Histories.HeavierLeafSkipped | btcd/blockchain/chain.go:1983-2009 | a run from genesis: ReconsiderBlock moves to the leaf it found last, past the heavier one that had been the tip |
| FilterCheckpoints.Cache.Grow | btcd/server.go:1070-1085 | append: the cache keeps its entries, in place or in a larger array |
| FilterCheckpoints.Cache.FindFork | btcd/server.go:1096-1105 | the largest position where cache and request agree |
| FilterCheckpoints.Cache.Collect | btcd/server.go:1107-1153 | the reply, and what has been overwritten in the backing array when a header is missing |
| FilterCheckpoints.Cache.OnGetCFCheckpt | btcd/server.go:1032-1162 | reply and cache after every request, answered or not |
| FilterCheckpoints.AgreeBelow | btcd/blockchain/chain.go:1623-1660 | chains that agree on one checkpoint agree on all before it |
| FilterCheckpoints.ReplyAgrees | btcd/server.go:1107-1153 | every reply is, position by position, a direct lookup of the interval hashes of the stop block |
| FilterCheckpoints.SingleChainKept | btcd/server.go:1128-1160 | after any request the cache holds checkpoints of a single chain exactly when the request did not grow it in place, overwrite part of what differs and then fail |
| FilterCheckpoints.MixedCache | btcd/server.go:1128-1160 | a cache filled by one request, mixed by the next, and the wrong header a later reply then has |
| FilterCheckpoints.ServingAgrees | btcd/server.go:1032-1162 | over every run of other requests, while the tree grows and the best chain changes, single chain and right replies throughout |
| FilterHistories.MixedHistory | btcd/server.go:1128-1160 | a run from genesis with a chain of 3000 blocks and one of 4000 that takes over, both validated: the cache is of a single chain, a request for the second mixes it, and a reply for the first is wrong |
| AddrManager.BucketsCount | btcd/addrmgr/knownaddress.go:18-26 | the reference count is the number of new buckets that hold the address |
| AddrManager.ListedOnce | btcd/addrmgr/addrmanager.go:913-999 | a tried address has one place on one tried list, a new one has none |
| AddrManager.TablesAgree | btcd/addrmgr/addrmanager.go:164-280 | what the invariant of all operations means: references count buckets and stay between one and eight, tried addresses are on one list and in no bucket, counters and limits hold |
| AddrManager.CountsAdd | btcd/addrmgr/addrmanager.go:643-646 | new and tried addresses are all addresses |
| AddrManager.VictimsFacts | btcd/addrmgr/addrmanager.go:244-280 | expiring a bucket that is not empty makes room |
| AddrManager.Manager.constructor | btcd/addrmgr/addrmanager.go:1207-1218 | empty tables satisfy the invariant |
| AddrManager.Manager.UpdateAddress | btcd/addrmgr/addrmanager.go:164-240 | which of the cases of updateAddress happens, the exact tables after it, and the invariant: at most 8 references, at most 65 addresses in a bucket, a positive argument for Int31n |
| AddrManager.Manager.AddToBucket | btcd/addrmgr/addrmanager.go:228-236 | one more reference from a bucket, over-full buckets expired first |
| AddrManager.Manager.ExpireNew | btcd/addrmgr/addrmanager.go:242-280 | the bad addresses of a bucket and the oldest of the others lose this reference, and the index if it was the last |
| AddrManager.Manager.PickTried | btcd/addrmgr/addrmanager.go:282-297 | the first of the oldest on a list |
| AddrManager.Manager.RemoveFromNew | btcd/addrmgr/addrmanager.go:938-951 | the address leaves every new bucket, its references drop by their number, and the first one is recorded |
| AddrManager.Manager.Evict | btcd/addrmgr/addrmanager.go:969-999 | the eldest goes back to a new bucket with room for it |
| AddrManager.Manager.Good | btcd/addrmgr/addrmanager.go:913-999 | the exact tables after Good; no address is lost, and the branch for an address in no bucket is never taken |
| AddrManager.Manager.Attempt | btcd/addrmgr/addrmanager.go:865-883 | the attempt is counted and dated, nothing moves |
| AddrManager.Manager.Connected | btcd/addrmgr/addrmanager.go:885-908 | the timestamp moves after twenty minutes, nothing else does |
| AddrManager.Manager.SetServices | btcd/addrmgr/addrmanager.go:1001-1020 | the services are replaced, nothing moves |
| AddrManager.InsertedTabled | btcd/addrmgr/addrmanager.go:210-219 | a new address is counted before it has a bucket |
| AddrManager.ReferencedTabled | btcd/addrmgr/addrmanager.go:228-236 | one more reference keeps counts and limits |
| AddrManager.DroppedTabled | btcd/addrmgr/addrmanager.go:252-260 | one reference less keeps them, forgetting the address at zero |
| AddrManager.PromotedTabled | btcd/addrmgr/addrmanager.go:938-967 | moving to a tried list with room keeps them |
| AddrManager.SwappedTabled | btcd/addrmgr/addrmanager.go:974-999 | swapping with an address of a full list keeps them |
| AddrMeaning.Sizes | btcd/addrmgr/addrmanager.go:106-134 | 1024 buckets of at most 65, 64 lists of at most 256, and 1 to 8 references |
| AddrMeaning.DrawDecides | btcd/addrmgr/addrmanager.go:196-236 | a known new address below 8 references, not in the bucket yet, gains exactly one if the draw out of twice its references is 0, and else no bucket changes |
| AddrMeaning.UnknownInserted | btcd/addrmgr/addrmanager.go:210-236 | an unknown address is new with one reference, in the bucket for its source |
| AddrMeaning.UpdateLeaves | btcd/addrmgr/addrmanager.go:164-240 | what updateAddress never does: move a tried address, touch another bucket, drop anything from a bucket of at most 64, or move an address at its limit |
| AddrMeaning.WhoMakesRoom | btcd/addrmgr/addrmanager.go:242-280 | from a bucket of more than 64 every bad address goes, and of the others one that none of those left is older than |
| AddrMeaning.SeenAgain | btcd/addrmgr/addrmanager.go:174-194 | services add up; the timestamp goes back exactly for an older sighting with a service not seen before |
| AddrMeaning.GoodWithRoom | btcd/addrmgr/addrmanager.go:913-967 | with fewer than 256 on its list a good address goes to the end of it and out of all buckets, and no other moves |
| AddrMeaning.GoodEvicts | btcd/addrmgr/addrmanager.go:969-999 | with 256 it takes the place of one no younger than the others, which is new again with one reference, in its own bucket if fewer than 64 are left there, or else in the first one freed |
| AddrMeaning.BadMeans | btcd/addrmgr/knownaddress.go:78-108 | isBad with all its limits in seconds and counts |
| Adapter.ProcessOnTip | btcd/blockchain/process.go:142-244 | a block on top of the tip extends the chain by itself or breaks a rule and leaves best chain and ledger alone; never an orphan, a side chain, a reorganization or a failed assertion |
| Adapter.ProcessCases | btcd/blockchain/process.go:142-244 | what each check leads to, in order: duplicate, insane, out of context, failing to connect, connected |
| Adapter.RuleViolation | vm/block_adapter.go:211-219 | with a rule violation the state changes if and only if the block is new and sane and passes the rules of its context but not of connecting; then index and status gain it as failed, and from then on it is a duplicate |
| Processing.ProcessMeans | btcd/blockchain/process.go:142-244 | an orphan is exactly a new, sane block with an unknown parent, and then nothing changes but the pool; any other block taken without an error is indexed on top of its parent, and on the main chain, as reported, exactly if on top of the tip or with more work |
| Processing.ProcessErrors | btcd/blockchain/process.go:142-244 | which check refuses which block, in their order, and that only failing to connect leaves a trace |
| Processing.MainChainMeans | btcd/blockchain/chain.go:1246-1290 | a block reported as on the main chain is the tip if and only if none of its ancestors was known to be invalid; otherwise the chain has not moved |
| Processing.SaidToBeMain | btcd/blockchain/chain.go:1270-1290 | a run from genesis where it has not moved |
| Processing.ReorganizeResult | btcd/blockchain/chain.go:872-970 | a reorganization fails exactly when nothing on the way is known to be invalid and the dry run does not pass |
| Processing.DryRunFlags | btcd/blockchain/chain.go:1085-1137 | which flag each block of a dry run ends with: valid before the first to break a rule, failed at it, invalid by ancestry after it |
| Processing.InvalidateErrors | btcd/blockchain/chain.go:1820-1951 | which error InvalidateBlock returns exactly when, and when it changes nothing |
| Processing.ReconsiderErrors | btcd/blockchain/chain.go:1956-2041 | ReconsiderBlock fails exactly for unknown blocks, and leaves valid ones alone |
| Adapter.StepInv | vm/block_adapter.go:152-255 | every step of verify, accept, persist, reject, flush, crash and restart keeps the invariant and takes no final block back |
| Adapter.FaultInv | vm/block_adapter.go:211-219 | a failure part-way latches the VM; at most that one block can still reach the disk |
| Adapter.RestartInv | vm/vm.go:303-317 | a restart takes the chain on disk for final |
| Adapter.FinalGrows | vm/block_adapter.go:199-240 | final blocks stay final, in order, over every run |
| Adapter.Durable | btcd/btcd.go:228-241 | over any interleaving of accepts, failures, crashes and restarts the chain on disk is the final blocks and at most one more; an acknowledged block is on disk from then on, at its height |
| Adapter.TipIsLastAccepted | vm/vm.go:90-95 | while not broken and idle, btcd's tip is the last accepted block, disk and memory hold exactly the final blocks, and no block is orphaned |
| Adapter.AcceptExtends | vm/block_adapter.go:199-226 | every accept takes the tip-extension branch: nothing is ever disconnected, and no orphan or side chain breaks the VM |
| Adapter.AcceptedHeight | vm/block_adapter.go:237-239 | accepted heights rise by one each time |
| Adapter.SiblingRefused | vm/block_adapter.go:203-206 | a sibling of a final block is never accepted later |
| AdapterRuns.RunLog | vm/vm.go:303-317 | what became final since the start follows, in order, what was on disk at the start, for every run |
| AdapterRuns.AckedPrefixOfRun | vm/block_adapter.go:228-240 | over every run: the acknowledged blocks are a prefix of those that became final if and only if no accept is acknowledged after a restart that found more on disk than was final; all are acknowledged if and only if there was no such restart |
| AdapterRuns.StepChecked | vm/block_adapter.go:152-185 | every step keeps each verified block on top of a final one, and valid for the tip while it is on top of the last accepted one |
| AdapterRuns.VerifiedConnects | vm/block_adapter.go:170-215 | in every run, a verified block that is still on top of the last accepted one and not indexed is refused by no rule when it is accepted |
| AdapterRuns.FailedForGood | vm/block_adapter.go:211-219 | in every run, a block that failed to connect in accept is in the index as failed, nothing else has changed, and until a restart or another kind of failure accepting it again changes nothing |
| AdapterRuns.BrokenLatches | vm/block_adapter.go:145-155 | in every run, from a failure part-way to the next restart no block becomes final and none is verified |
| AdapterHistories.RecoveredThenAcked | vm/vm.go:303-317 | a run where the acknowledged blocks are not a prefix |
| AdapterHistories.FailedBlockLeft | vm/block_adapter.go:211-219 | a run where a rule violation leaves its block in the index |
| AdapterHistories.UnpersistedYetFinal | vm/block_adapter.go:228-234 | a run where Accept returns an error and the block is final after the restart |
| AdapterHistories.HalfDoneYetFinal | vm/block_adapter.go:211-219 | the same after a failure inside ProcessBlock, whatever it left in memory |
| BlockAdapter.VM.constructor | vm/vm.go:303-317 | a VM initialized from the chain on disk is a start state of the machine |
| BlockAdapter.VM.Verify | vm/block_adapter.go:152-185 | a step of the machine; nil exactly for a block on top of the last accepted one, at the next height, sane and valid for the tip, while not broken; exactly then it is among the verified ones |
| BlockAdapter.VM.Accept | vm/block_adapter.go:199-240 | the steps connect, persist, acknowledge; nil exactly when the block is acknowledged, on disk and last accepted, and no longer among the verified ones; any error leaves all of these alone, and only a failure to persist breaks the VM |
| BlockAdapter.VM.Reject | vm/block_adapter.go:242-255 | the block leaves the verified ones, and nothing else changes |
| BlockAdapter.VM.ProcessBlock | btcd/blockchain/process.go:142-244 | duplicates, sanity, orphans and acceptance in this order; the pool holds the block exactly if it is new and sane with an unknown parent, and then the chain is as before; taken without an error otherwise, it is indexed |
| Builder.StepKeeps | vm/block_builder.go:94-105 | every step of every thread keeps a wake-up coming while a waiter sleeps with the flag set |
| Builder.DecidedBy | vm/block_builder.go:196-214 | in every run a waiter is blocked exactly if it had read the flag clear and needToBuild was false when it asked, and about to return exactly if either was not so |
| Builder.ReturnsFor | vm/block_builder.go:200-210 | a waiter returns nil only if it had read the flag set or needToBuild was true |
| Builder.Rechecks | vm/block_builder.go:188-218 | after a wake-up or a tick, reading the flag and asking lead to returning exactly if either says so, and back to waiting otherwise |
| Builder.FlagIs | vm/block_builder.go:94-105 | the flag is set exactly when it was set and not cleared since |
| Builder.SlotIs | vm/block_builder.go:94-105 | the slot is full exactly when something was sent and not received since |
| Builder.AwayIs | vm/block_builder.go:196-218 | a waiter is away exactly when it has not come, or its last step was to return or to give up |
| Builder.NoLostWakeUp | vm/block_builder.go:186-220 | under every interleaving a lone waiter is never blocked with the flag set, the slot empty and no signaller between its two steps; with several, another one is awake |
| Builder.TwoWaiters | vm/block_builder.go:186-220 | with two waiters the bare statement fails for the one that sleeps |

## Left out

- Script execution, signatures, hashing, encodings and merkle roots: validation is an arbitrary predicate.
- The UTXO cache, ffldb, leveldb and pruning: connecting, disconnecting and flushing are modelled by their effect.
- Torn database writes: a failed or interrupted write of a block leaves the disk before or after that block, never between; btcd's own recovery of the UTXO set at startup is not modelled.
- Database errors inside chain operations: only the adapter's state machine has them, where memory becomes arbitrary and the VM latches.
- BFFastAdd, checkpoints and deployment thresholds in ProcessBlock: sanity and checkpoint checks are one parameter.
- The legacy spend journal format, which lacks heights.
- Size, weight, bits and serialized work in the snapshot and the database.
- The orphan pool beyond its staying empty: its limit and its expiry do not matter to the adapter.
- Heaviest chain after InvalidateBlock or ReconsiderBlock: not kept in general; proved exactly when it is.
- The height of BIP 34: connecting refuses a block that replaces an unspent output at every height, the code only below that one; on chains with distinct coinbases the two agree (`ReplaySame`).
- BlockChain.Chain.ConnectBestChain: without BFFastAdd, which the adapter never sets, and without database failures.
- BlockChain.Chain.ExtendBestChain: checks are skipped for validated nodes only, not for BFFastAdd.
- BlockChain.Chain.MaybeAcceptBlock: storing the block cannot fail.
- BlockChain.Chain.CheckConnectBlockTemplate: says whether the block is valid, not which rule it breaks; sanity is a parameter.
- Invalidation.TruncatedFlags: is about the statuses before the final reorganization; `InvalidatedFlags` is about those after it.
- Invalidation.ReconsiderUndoesInvalidate: is about the statuses before the final reorganization; `ReconsiderRestores` is about those after it.
- BlockAdapter.VM.Accept: inside ProcessBlock only rules fail; other failures are the step ConnectFault of the machine.
- BlockAdapter.VM.ProcessBlock: the orphan pool is empty, as `TipIsLastAccepted` proves it is, and sanity and checkpoints are one flag.
- Locks and notifications: chain operations are atomic steps, except in the builder.
- AddrManager.Manager.UpdateAddress: addresses are values in the index, so a bucket cannot hold a stale pointer to one; routability and bucket hashes are parameters.
- Saving and loading addresses, choosing one at random, and classifying networks.
- FilterCheckpoints.Cache.OnGetCFCheckpt: starts from the interval hashes; requests while out of sync or for another filter type are refused before it.
- BlockTree.NewBlockNode: heights are unbounded, the code has 32-bit heights.
- Block building, delays, gossip, RPC and validator sampling.
