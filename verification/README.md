# Verified model of Border

Border is a small blockchain with services around it: a ledger whose blocks are paid for with proven
bandwidth, a script machine, a peer-to-peer layer, payment channels, a radio broadcast for receivers
without internet, a DAO, a compute market and a metered relay. This project models their logic in Dafny
and proves what each of them is for. `dafny verify dfyconfig.toml` checks everything.

Every stateful component appears twice: as a specification on values, about whose whole runs the theorems
are proved, and as a class that updates its fields the way the program does and is proved to compute that
specification.

| files | component |
|---|---|
| `Economics`, `Transactions`, `Blocks`, `Ledger`, `BorderChain` | supply schedule, retarget, blocks, the ledger and its object |
| `ChainValidity`, `Accounting`, `Balances`, `Authenticity`, `ReceiptUse`, `Solvency`, `Mining`, `MinedServices`, `Intake` | what every run of the ledger keeps |
| `Sync` | fork search and batched catch-up against honest and arbitrary peers |
| `Bytes`, `Script`, `ScriptPrograms`, `ScriptOpcodes`, `ScriptTemplates`, `Multisig`, `ScriptEngine` | the script machine as small steps, its structured meaning, each opcode, the templates, the interpreter |
| `Receipts`, `Channels`, `ChannelManager`, `ChannelProtocol`, `ChannelClosing`, `ChannelEnds` | payment channels between two managers and a hostile network, their opening, closing and what is paid |
| `Lora`, `LoraDelivery`, `LoraRepeats`, `LoraBroadcast` | packets, reassembly with and without repeated packets, and the way from queue to receiver |
| `Gossip`, `GossipReach` | one router, its cache, and how little and how much a flood over any topology does |
| `Treasury`, `Governance`, `GovernanceRuns`, `GovernanceEffects`, `GovernanceEngine` | proposals, votes, execution and treasury |
| `Workers`, `Market`, `MarketRuns`, `MarketMeaning`, `MarketAssignments`, `MarketExample`, `ComputeMarket` | choice of workers, assignment and payment |
| `Relay`, `BorderRelay` | byte metering |
| `Numbers`, `Wrappers`, `Sequences`, `Maps`, `Text` | shared arithmetic, options, filtering and stable sorting, totals over maps, decimal text |

## Conventions

- Amounts are whole satoshi wherever the program rounds to eight places; weights and treasury amounts of
  the DAO as well. Ratios (reputation, quorum, rewards before rounding, the retarget) are real numbers, and
  rounding is half to even, as Python's `round`. Where a rounded amount is halved again, half a satoshi is
  rounded as the double that holds the amount makes Python round it (`Economics.Halve`).
- Hashing and signatures are function parameters. Where a proof needs it, it asks that the blocks
  two chains have at one index do not collide, or that a signature under the sender's key was made by the
  sender.
- Time, random identifiers, random samples of peers and the answers of peers are parameters.
- One public call is one atomic step; the proofs range over all interleavings of such steps.
- An event that a precondition of a theorem excludes is named in a `Fair`, `Honest` or `Fresh` predicate
  next to that theorem.

## Where the code and its documentation part

- `find_fork` is documented to return -1 on failure (`border/p2p/sync.py:140`); it returns 0, also when the
  two chains have nothing in common (`ChainSync.ForkOfStrangers`). `ChainSync.ForkIsHighestCommon` states
  when the result is a common block.
- Syncing is described as applying blocks from the fork on. add_block only accepts the next index, so a
  chain that has forked from the peer's is never reorganised; `ChainSync.SyncOutcome` is exact about it.
- The retarget raises the difficulty when blocks took longer than expected. `Economics.RetargetMonotone`
  and `Economics.RetargetFollowsTime` follow the code.
- Full validation checks links, hashes, bytes and difficulty, but no signature, transaction or receipt, so
  replace_chain takes chains that add_block would refuse; `ChainValidity.StepIsFullAndMore` is exact about
  the difference, `ChainValidity.ReplacementTakesUnsigned` shows such a chain.
- Block validation compares the receipts of a block with earlier blocks only. A block may list one proof
  twice and count its bytes twice (`ReceiptUse.TwiceIsEnough`); `ReceiptUse.ReceiptsCountOnceExactly` says
  in which runs no receipt counts twice.
- Block validation asks no balance, so a received block can overdraw an address
  (`Solvency.ReceivedBlockOverdraws`).
- Taking a bandwidth proof into the pool checks no signature, and mining puts every pending proof into its
  block: one bad proof stops mining (`Mining.BadProofStopsMining`).
- `cumulative_supply` halves an already rounded reward. It stops being the sum of the block rewards in the
  19th era (`Economics.CumulativeSupplyExact`), and in the end reports the whole cap, which is never paid
  (`Economics.CumulativeSupplyReachesCap`).
- A false OP_IF counts an inner OP_ELSE as its own end. `ScriptPrograms.IfLandsRight` says exactly for which
  scripts it resumes in the right place, `ScriptPrograms.NestedElseChangesVerdict` shows one where it does not.
- The radio checksum is written and never checked (`Lora.ChecksumIsNotChecked`). The receiver counts packets
  and not their numbers, so a repeated packet can lose a payload for good (`LoraRepeats.FirstPacketsDecide`,
  `LoraRepeats.OneRepeatLosesPayload`).
- On hardware a content of more than 255 packets raises after it has left the queue, so it is lost
  (`LoraBroadcast.QueueIsFair`).
- A vote that arrives after the deadline finalises the proposal with a supply of zero and thereby rejects it,
  even if it had passed by its votes (`GovernanceRuns.LateVoteRejects`,
  `GovernanceRuns.LateVoteReversesVerdict`). `GovernanceRuns.DecidedExactly` says exactly when a proposal
  passes and when it is rejected. A tally may close a vote early
  (`GovernanceRuns.TallyIgnoresDeadline`, `GovernanceRuns.EarlyTallyPasses`).
- Receiving does not look at the channel's state (`ChannelClosing.ReceiveIgnoresState`): receipts signed
  before closing still count afterwards, exactly up to the sender's frozen total
  (`ChannelClosing.LateReceiptsStayWithinFrozenTotal`, `ChannelClosing.LastReceiptStillCounts`).
- `fail_job` is documented to free the worker of a failed job. On a finished job it frees a worker that may
  be busy with another one (`MarketAssignments.FailSoundExactly`, `MarketExample.FailingCompletedJob`).

## Model

| member | source | states |
|---|---|---|
| `Economics.EmissionStaysBelowCap` | border/blockchain/economics.py:83-102 | the rewards of the first n blocks, each rounded half-even, sum to at most 420 000 satoshi less than the maximal supply, and to exactly that from era 33 on |
| `Economics.BlockRewardNeverRises` | border/blockchain/economics.py:83-102 | a later block never earns a higher base reward |
| `Economics.ComputeCumulativeSupply` | border/blockchain/economics.py:105-120 | the era loop terminates and computes, at every height, the block-by-block sum of the halved rewards, capped; half a satoshi goes the way the double nearest to the reward went |
| `Economics.CumulativeSupplyMonotone` | border/blockchain/economics.py:105-120 | never falls with height and never passes the cap |
| `Economics.CumulativeSupplyExact` | border/blockchain/economics.py:105-120 | at every height: it equals the sum of all block rewards so far if and only if the height lies in the first 18 eras; the first halving of a rounded reward that matters is the one into the 19th |
| `Economics.CumulativeSupplyReachesCap` | border/blockchain/economics.py:105-120 | it reports the whole cap from the last block of the 33rd era on and never before, although the rewards that are paid stop 420 000 satoshi short of it |
| `Economics.SupplyHeadroom` | border/blockchain/economics.py:143-145 | supply and headroom add up to the cap, or the headroom is zero |
| `Economics.RetargetIsClamped` | border/blockchain/economics.py:152-184 | a retarget stays within a factor four and within the absolute bounds |
| `Economics.RetargetMonotone` | border/blockchain/economics.py:152-184 | more elapsed time never lowers the new difficulty, the direction the code takes |
| `Economics.RetargetFollowsTime` | border/blockchain/economics.py:152-184 | the direction is strict: a window of twice the expected time doubles the difficulty, one of half the time halves it |
| `Economics.RetargetIsProportional` | border/blockchain/economics.py:152-184 | inside the clamp and the bounds the new difficulty is the old one times elapsed over expected time, cut to a whole number |
| `Economics.RetargetSteady` | border/blockchain/economics.py:152-184 | a window that took exactly the expected time keeps the difficulty |
| `Ledger.ValidateBlockMeaning` | border/blockchain/chain.py:268-300 | the ordered checks accept exactly the blocks that continue the chain, spend no used receipt, are sealed, paid for and validly signed |
| `ChainValidity.RunKeepsChainValid` | border/blockchain/chain.py:302-325 | after any interleaving of intake, add_block, mining and replace_chain the full re-validation holds, although it is written separately from block validation |
| `ChainValidity.StepIsFullAndMore` | border/blockchain/chain.py:268-325 | on a valid chain a block is accepted if and only if the longer chain passes full validation and, in addition, its index, receipts and all signatures are in order |
| `ChainValidity.ReplacementTakesUnsigned` | border/blockchain/chain.py:268-368 | for every hash and signature scheme, a concrete chain that replace_chain adopts and whose last block add_block refuses: its only receipt is unsigned |
| `ChainValidity.StepLength` | border/blockchain/chain.py:150-155 | exact effect of every event on the chain: one more block, a longer valid replacement, or nothing |
| `ChainValidity.RunNeverShrinks` | border/blockchain/chain.py:358-368 | chain length never decreases along a run |
| `ChainValidity.RunExtendsPrefix` | border/blockchain/chain.py:150-155 | without replace_chain every earlier chain stays a prefix and the genesis block stays first |
| `ChainValidity.DifficultyInRange` | border/blockchain/economics.py:174-184 | every block of a valid chain has a difficulty within the bounds |
| `ChainValidity.DifficultyConstantInWindow` | border/blockchain/chain.py:85-89 | difficulty is constant inside a window of 2016 blocks |
| `ChainValidity.DifficultyAtBoundary` | border/blockchain/chain.py:91-103 | at a boundary it moves by at most a factor four, floored |
| `ChainValidity.DifficultyGrowthBound` | border/blockchain/chain.py:85-103 | at height h it is at most the minimum times 4^(h div 2016) |
| `ChainValidity.ProvenWork` | border/blockchain/chain.py:282-286 | h blocks prove at least h times the minimal number of bytes |
| `ChainValidity.RunDifficulty` | border/blockchain/chain.py:85-103 | in every run whose replacement chains start at the minimal difficulty, as the genesis block does: range, growth bound, proven work, constancy inside a window, and the factor four at a boundary |
| `Accounting.RunConsistent` | border/blockchain/chain.py:347-381 | after any run the balance cache and the three spent sets equal a rebuild from the whole chain |
| `Accounting.ReceiptsOfMeaning` | border/blockchain/chain.py:370-381 | a receipt is in the spent set if and only if some block of the chain contains it |
| `Accounting.RunNeverReusesReceipt` | border/blockchain/chain.py:288-290 | without replace_chain no bandwidth receipt id appears in two blocks |
| `ReceiptUse.TwiceIsEnough` | border/blockchain/chain.py:282-292 | one verified proof of half the required bytes pays for a block that lists it twice, and for no block that lists it once |
| `ReceiptUse.PoolIsDistinct` | border/blockchain/chain.py:205-211 | in every run the pool of pending proofs holds each receipt once |
| `ReceiptUse.ReceiptsCountOnceExactly` | border/blockchain/chain.py:268-300 | in runs without replace_chain no receipt counts twice anywhere, within a block or across blocks, if and only if every block taken from elsewhere lists its receipts once |
| `ReceiptUse.LocalReceiptsCountOnce` | border/blockchain/chain.py:109-163 | a node that only mines its own blocks never counts a receipt twice |
| `Accounting.UndoRestoresBalances` | border/blockchain/chain.py:335-345 | applying a transaction with sign -1 undoes sign +1 for every address |
| `Accounting.ChainConservation` | border/blockchain/chain.py:335-345 | the balances add up to what was minted, less fees and less what went to the empty address |
| `Accounting.RunConservation` | border/blockchain/chain.py:396-401 | in every run the cached balances add up to total supply less all non-coinbase fees, with the exact difference when addresses are empty |
| `Balances.OneTransfer` | border/blockchain/chain.py:335-345 | a transaction moves its amount from its sender to its recipient and its fee away from the sender, for either sign and every address |
| `Balances.BalanceIsHistory` | border/blockchain/chain.py:335-352 | in every run the balance of an address is the sum of all it received less all it sent and paid in fees, over the transactions of the chain |
| `Authenticity.RunIsAuthentic` | border/blockchain/chain.py:287-300 | without replace_chain every payment on the chain is signed with a key of its sender over its id, addresses, amount, fee and time, and every bandwidth and storage proof with a key of the node that claims it |
| `Authenticity.MempoolIsAuthorised` | border/blockchain/transaction.py:103-124 | in every run nothing waits in the mempool that its sender did not sign |
| `Solvency.NoOverdraft` | border/blockchain/chain.py:242-262 | in every run whose blocks spend this node's own mempool and pay nothing negative: confirmed balance, reserved amount and mempool cost of every address stay ordered and non-negative |
| `Solvency.FairInputsNeverOverdraw` | border/blockchain/chain.py:109-262 | the same with conditions on inputs alone: pending proofs that claim nothing negative make every mined coinbase non-negative |
| `Solvency.ReceivedBlockOverdraws` | border/blockchain/chain.py:268-300 | a signed transfer of coins nobody has is refused by add_transaction, accepted inside a received block, and leaves the sender with a negative balance |
| `Solvency.ReleaseExact` | border/blockchain/chain.py:173-183 | confirming transactions returns exactly their reserved cost |
| `Solvency.ReleaseDropsEmpty` | border/blockchain/chain.py:173-183 | a reservation released to nothing leaves no entry behind, and reservations of other addresses stay |
| `Intake.PaymentEnters` | border/blockchain/chain.py:242-262 | in every run a payment enters the mempool if and only if its sender signed it, the fee reaches 0.0001 coins, and what the sender holds by the chain's history less what is reserved covers it; then exactly that much is reserved |
| `Intake.WaitingIsMined` | border/blockchain/chain.py:109-189 | in every run everything that waits in the mempool goes into the next mined block, each copy once, and waits no longer |
| `Intake.ProofsEnter` | border/blockchain/chain.py:205-228 | in every run a bandwidth or compute proof is taken if and only if its id is neither on the chain nor pending, the latter from workers with the stake |
| `Intake.StorageProofEnters` | border/blockchain/chain.py:230-240 | a storage proof in the same way, if its node signed it |
| `Solvency.MinedBlockSpendsMempool` | border/blockchain/chain.py:124-144 | a locally mined block spends only mempool transactions, each copy once |
| `Solvency.InitialSolvent` | border/blockchain/chain.py:28-50 | a new ledger owes nothing |
| `Mining.MinedBlockShape` | border/blockchain/chain.py:109-144 | a mined block holds the unspent pending proofs of all three kinds in order, one coinbase in front, paying the rounded minimum of headroom and base reward, those services and fees, then exactly the eligible transactions by falling fee, ties as offered |
| `Mining.CoinbaseAndGenesis` | border/blockchain/block.py:200-216 | the fields of the coinbase, and the genesis block, sealed by its own hash |
| `MinedServices.ServicesPaidOnce` | border/blockchain/chain.py:109-171 | over local runs a mined block holds every proof that was pending, of all three kinds; afterwards none is pending, all are spent, and none is in any later block |
| `MinedServices.BandwidthPaidByTheByte` | border/blockchain/block.py:85-88 | bandwidth is paid by the byte, one coin a gigabyte, however it is cut into proofs |
| `MinedServices.ComputePaidByRate` | border/blockchain/block.py:103-107 | a compute proof earns the agreed price or its rate, whichever is more, to the nearest satoshi |
| `Mining.TwoSortsAreOne` | border/blockchain/block.py:232-258 | sorting in create_block, filtering and sorting again in finalize is one stable sort |
| `Mining.MinedBlockAccepted` | border/blockchain/chain.py:109-144 | what create_block returns is accepted on the same tip if and only if all its bandwidth proofs verify |
| `Mining.MiningSucceeds` | border/blockchain/chain.py:146-155 | in every reachable state mining extends the chain if and only if the usable pending proofs are enough and all of them verify |
| `Mining.BadProofStopsMining` | border/blockchain/chain.py:109-155 | one usable pending proof that does not verify stops mining for good: over any further local run the chain stays and the proof stays pending |
| `Mining.SupplyNeverPassesCap` | border/blockchain/chain.py:396-401 | over runs of locally mined blocks total supply never exceeds the cap |
| `Mining.RunKeepsStorageVerified` | border/blockchain/chain.py:230-240 | every pending storage proof of a run carries a valid signature |
| `ChainObject.BorderChain.constructor` | border/blockchain/chain.py:28-50 | the object starts as the ledger that holds the genesis block |
| `ChainObject.BorderChain.ApplyTxToCache` | border/blockchain/chain.py:335-345 | the cache becomes the specified balance map for either sign |
| `ChainObject.BorderChain.RebuildBalanceCache` | border/blockchain/chain.py:347-352 | the cache becomes the fold over every transaction of the chain |
| `ChainObject.BorderChain.RebuildSpentSet` | border/blockchain/chain.py:370-381 | spent sets and balances become those of the chain, nothing else changes |
| `ChainObject.BorderChain.SubmitProof` | border/blockchain/chain.py:205-211 | accepts exactly unspent, not yet pending receipts and queues them |
| `ChainObject.BorderChain.SubmitComputeProof` | border/blockchain/chain.py:213-228 | the same for compute proofs of staked workers |
| `ChainObject.BorderChain.SubmitStorageProof` | border/blockchain/chain.py:230-240 | the same for storage proofs, whose signature is checked |
| `ChainObject.BorderChain.SubmitTransaction` | border/blockchain/chain.py:242-262 | accepts exactly verified, sufficiently paid, covered transfers and reserves their cost |
| `ChainObject.BorderChain.Validate` | border/blockchain/chain.py:268-300 | returns the first failing check, and Valid exactly on acceptable blocks |
| `ChainObject.BorderChain.ValidateChain` | border/blockchain/chain.py:302-325 | the verdict of full validation over the whole chain |
| `ChainObject.BorderChain.Create` | border/blockchain/chain.py:109-144 | the candidate block of the specification, or none for lack of bytes |
| `ChainObject.BorderChain.ReleaseReservations` | border/blockchain/chain.py:173-183 | releases the cost of each transaction, dropping entries that reach zero |
| `ChainObject.BorderChain.Spend` | border/blockchain/chain.py:157-171 | marks the block's receipts and proofs spent and clears them from the pools |
| `ChainObject.BorderChain.ConfirmTransactions` | border/blockchain/chain.py:173-189 | reservations, mempool and balances after a block, in that order |
| `ChainObject.BorderChain.Add` | border/blockchain/chain.py:146-203 | the verdict of block validation; the whole new ledger on acceptance, no change otherwise; a fully valid chain stays fully valid |
| `ChainObject.BorderChain.Replace` | border/blockchain/chain.py:358-368 | adopts exactly longer valid chains and rebuilds its sets; a fully valid chain stays fully valid |
| `ChainSync.ForkIsHighestCommon` | border/p2p/sync.py:137-158 | on hash-linked chains without a collision between blocks at one index, the search returns the highest index with equal hashes exactly when the genesis hashes agree, and 0 otherwise |
| `ChainSync.ForkOfStrangers` | border/p2p/sync.py:137-158 | on any two one-block chains with different genesis hashes the search answers 0, although they have nothing in common |
| `ChainSync.HashesEqualBelow` | border/p2p/sync.py:137-158 | equal hashes at one index mean equal hashes, and alike blocks, at every lower index |
| `ChainSync.NodesAreHonest` | border/p2p/server.py:84-104 | a node answering from its own chain is an honest peer if and only if none of its block hashes is empty; a chain and its prefixes do not collide |
| `ChainSync.SyncKeepsPrefix` | border/p2p/sync.py:102-135 | against any peer whatsoever the old chain stays a prefix of the new one |
| `ChainSync.AcceptanceTransfers` | border/blockchain/chain.py:150-155 | whether a block is accepted depends only on what the chain's hashes cover |
| `ChainSync.RunBuildsByAddBlock` | border/blockchain/chain.py:146-155 | every chain of a run without replace_chain was built block by block by accepted blocks |
| `ChainSync.SyncOutcome` | border/p2p/sync.py:102-135 | against an honest peer, with no collision between blocks at one index: if our tip is on its chain we end with its chain up to the reported height, otherwise nothing changes |
| `ChainSync.CatchUp` | border/p2p/sync.py:102-135 | a prefix of the peer's chain becomes the peer's chain up to its reported height, whatever the hash function |
| `ChainSync.NodesFork` | border/p2p/sync.py:137-158 | for any two nodes grown from genesis by mining and accepted blocks, the search finds the last block they share |
| `ChainSync.NodesSync` | border/p2p/sync.py:102-135 | for any two such nodes, syncing appends exactly the peer's further blocks when our tip is on its chain, and changes nothing otherwise |
| `ChainSync.NodesCatchUp` | border/p2p/sync.py:102-135 | a node whose chain is a prefix of such a node's ends with that chain |
| `ChainSync.ComputeFork` | border/p2p/sync.py:137-158 | the loop over lo and hi computes the specified search |
| `ChainSync.RunSyncFrom` | border/p2p/sync.py:102-135 | fork search and download leave the node in the specified state |
| `ChainSync.Download` | border/p2p/sync.py:111-132 | the batch loop terminates and applies batches until one fails or none is left |
| `ChainSync.RunSyncPass` | border/p2p/sync.py:88-100 | syncs with the first peer of the greatest reported height, and only if it is taller |
| `Bytes.LERoundTrip` | border/blockchain/script.py:169 | little-endian encoding reads back |
| `Bytes.LEInverse` | border/blockchain/script.py:299 | reading and encoding gives the same bytes |
| `Bytes.SignedRoundTrip` | border/blockchain/script.py:276-284 | a sum or difference that fits 32 bits reads back as that number |
| `Script.LimitsHold` | border/blockchain/script.py:199-200 | on any bytes: n rounds dispatch n opcodes, never more than 202, on a stack of at most 64 entries |
| `Script.EveryRunStops` | border/blockchain/script.py:233-345 | on any bytes the machine halts within 203 rounds with the outcome of the run |
| `ScriptPrograms.ScriptMeansProgram` | border/blockchain/script.py:233-345 | for every structured script without an ELSE-conditional inside a THEN branch, running its bytes equals evaluating only the chosen branches, whatever bytes it pushes |
| `ScriptPrograms.BlockRuns` | border/blockchain/script.py:233-345 | the same for a block embedded anywhere in any code |
| `ScriptPrograms.IfLandsRight` | border/blockchain/script.py:307-319 | the skip of OP_IF ends behind its THEN branch if and only if that branch holds no conditional with an ELSE; otherwise it ends inside it |
| `ScriptPrograms.ElseLandsRight` | border/blockchain/script.py:321-331 | the skip of OP_ELSE always ends behind its own OP_ENDIF |
| `ScriptPrograms.NestedElseChangesVerdict` | border/blockchain/script.py:307-319 | a concrete script on which the machine and the structured meaning disagree |
| `ScriptOpcodes.NumbersPush` | border/blockchain/script.py:246-251 | OP_FALSE and the numbers 1 to 16 push their bytes, or raise an overflow on a full stack |
| `ScriptOpcodes.TopEntry` | border/blockchain/script.py:252-262 | OP_DROP removes, OP_DUP repeats and OP_HASH256 hashes the top entry |
| `ScriptOpcodes.EqualCompares` | border/blockchain/script.py:263-271 | OP_EQUAL leaves 1 for equal entries and the empty string otherwise; OP_EQUALVERIFY nothing or an error |
| `ScriptOpcodes.NotNegates` | border/blockchain/script.py:273-275 | OP_NOT leaves the opposite truth value |
| `ScriptOpcodes.ArithmeticMeans` | border/blockchain/script.py:277-285 | OP_ADD and OP_SUB leave four bytes that read back as a + b and a - b, b on top, or raise exactly outside 32 bits |
| `ScriptOpcodes.SignedReading` | border/blockchain/script.py:277-285 | the signed reading of any bytes is congruent to the unsigned one and within half the range |
| `ScriptOpcodes.CheckSigMeans` | border/blockchain/script.py:372-382 | OP_CHECKSIG takes the key from the top and the signature below it, and leaves 1 exactly when it verifies |
| `ScriptOpcodes.MultisigMeans` | border/blockchain/script.py:384-417 | OP_CHECKMULTISIG over any stack: it takes keys, signatures, their counts and one entry below, and leaves 1 exactly when all are text and the signatures match keys in order |
| `ScriptOpcodes.HeightsAndEnds` | border/blockchain/script.py:299-345 | OP_CLAIMTIMEVERIFY passes exactly from the height on top on, OP_RETURN and unknown bytes end the run |
| `ScriptOpcodes.Underflows` | border/blockchain/script.py:362-371 | every opcode that takes entries raises an underflow when these are missing |
| `ScriptOpcodes.IfTakesTop` | border/blockchain/script.py:307-334 | OP_IF takes the top entry and goes on or skips by its truth |
| `ScriptOpcodes.PushPushThen` | border/blockchain/script.py:233-345 | two pushes and an opcode standing anywhere in any code leave after three rounds what the opcode leaves for its two operands |
| `ScriptOpcodes.EqualScript` | border/blockchain/script.py:263-265 | the script that pushes x and y and compares them succeeds if and only if they are the same bytes |
| `ScriptTemplates.TemplatesExist` | border/blockchain/script.py:106-185 | for which keys, signatures, counts, heights and data the templates can be built, and what a data carrier holds |
| `ScriptTemplates.P2pkhAcceptsExactly` | border/blockchain/script.py:113-137 | accepted if and only if the key has the locked hash and its signature verifies |
| `ScriptTemplates.TimelockAcceptsExactly` | border/blockchain/script.py:162-177 | accepted if and only if additionally the locked height is reached |
| `ScriptTemplates.DataCarrierUnspendable` | border/blockchain/script.py:179-184 | never spendable |
| `Multisig.GreedyComplete` | border/blockchain/script.py:402-414 | the one-pass scan matches all signatures if and only if some strictly order-preserving matching of signatures to keys exists |
| `Multisig.MultisigAcceptsExactly` | border/blockchain/script.py:139-160 | m-of-n with m signatures is accepted if and only if such a matching exists, in the order of the lists |
| `ScriptVM.ScriptEngine.Run` | border/blockchain/script.py:216-351 | the interpreter loop returns the outcome of the small-step machine |
| `ScriptVM.ScriptEngine.Round` | border/blockchain/script.py:234-345 | one pass of the loop body is one machine step |
| `ScriptVM.ScriptEngine.SkipBranch` | border/blockchain/script.py:311-331 | the skip loops compute the specified landing, or run off the end |
| `ScriptVM.ScriptEngine.Dispatch` | border/blockchain/script.py:249-345 | each opcode has its specified effect on the stack or its error |
| `ScriptVM.ScriptEngine.CountMatches` | border/blockchain/script.py:402-412 | the two nested loops with one shared key index compute the greedy scan |
| `ScriptVM.ScriptEngine.CheckManySignatures` | border/blockchain/script.py:384-416 | pops counts, keys, signatures and dummy in order and reports the missing number |
| `ScriptVM.ScriptEngine.CheckOneSignature` | border/blockchain/script.py:372-382 | pops key and signature and verifies |
| `ScriptVM.ScriptEngine.PushItem` | border/blockchain/script.py:357-360 | pushes unless 64 entries are there |
| `ScriptVM.ScriptEngine.PopItem` | border/blockchain/script.py:362-365 | pops the top, if any |
| `Receipts.SigningBytesInjective` | border/payments/receipt.py:26-29 | the signed text determines channel, nonce and amount, whatever the channel id contains |
| `Receipts.ClaimsSignAlike` | border/payments/receipt.py:26-29 | two claims of any number of coins have the same signed bytes if and only if they agree in channel, nonce, sign and the amount rounded to whole satoshi |
| `Receipts.WholeSatoshi` | border/payments/receipt.py:26-29 | for whole satoshi, which are all this side signs, the two texts are one |
| `ChannelProtocol.ChannelSafety` | border/payments/manager.py:141-215 | over any fair run and network: the receiver's total is the amount of its highest acknowledged nonce, at most the sender's, at most the deposit; no nonce twice; the settlement shares add up to the deposit on both sides |
| `ChannelProtocol.TotalsNeverDecrease` | border/payments/manager.py:195-215 | neither side's total nor the acknowledged nonce ever goes down |
| `ChannelProtocol.ClosingIsFinal` | border/payments/manager.py:226-316 | on the sender's side: once its channel has left the open state it never reopens, and its total and its receipts are final; what the receiver's side may still do is stated below |
| `ChannelClosing.ReceiveIgnoresState` | border/payments/manager.py:176-221 | receiving on a channel in any state is refused for the same reason, or has the same effect on everything but that state |
| `ChannelClosing.LateReceiptsStayWithinFrozenTotal` | border/payments/manager.py:176-221 | in any fair run, after the sender's channel has left the open state the receiver's total can only grow, and never past the sender's frozen total |
| `ChannelClosing.LastReceiptStillCounts` | border/payments/manager.py:176-221 | the bound is reached: in any fair run and whatever the states of both channels, the sender's last receipt, delivered late, is accepted and makes the totals equal |
| `ChannelClosing.LateReceiptCounts` | border/payments/manager.py:176-221 | a concrete run: the payer sends and settles, the payee closes, and the receipt that arrives then still counts in full |
| `ChannelProtocol.OthersLeaveChannel` | border/payments/manager.py:60-316 | no other call of either manager touches the channel's payments or signs a text of it |
| `ChannelEnds.EndedExactly` | border/payments/manager.py:226-316 | over every sequence of calls on one manager: a channel is closed if and only if its sender settled it, and no longer open if and only if that happened or one of its parties closed it |
| `ChannelEnds.BothSidesEndExactly` | border/payments/manager.py:226-316 | the same for the channel of either side in every fair run of the network |
| `ChannelEnds.StepHistory` | border/payments/manager.py:118-221 | a channel's history grows exactly by a payment of its sender's wallet, open, in time and covered, with the signed next receipt, or by a receipt its receiver takes, countersigned |
| `ChannelEnds.EveryReceiptHasACause` | border/payments/manager.py:118-221 | over every sequence of calls each receipt of a history was paid by the sender's wallet while the channel was open and not expired, or taken by its receiver with a signature that verified |
| `ChannelEnds.EveryChannelWasOpened` | border/payments/manager.py:60-112 | over every sequence of calls each channel was opened by one of them, with a positive deposit and on the terms it still has |
| `ChannelEnds.LatestIsLast` | border/payments/manager.py:322-330 | the latest receipt of a channel is the last of its history |
| `ChannelEnds.SendRefusals` | border/payments/manager.py:118-171 | what a payment is refused for, and that nothing else stops it |
| `ChannelEnds.ReceiveRefusals` | border/payments/manager.py:176-221 | what a receipt is refused for, and that nothing else stops it |
| `ChannelEnds.StrangersReceipt` | border/payments/manager.py:176-189 | on an unknown channel what verifies is countersigned and nothing is kept |
| `ChannelEnds.EndRefusals` | border/payments/manager.py:226-316 | what closing and settling are refused for |
| `ChannelEnds.SharesOfAnyChannel` | border/payments/channel.py:93-102 | the shares of any channel, even an overpaid one |
| `ChannelObject.ChannelManager.OpenChannel` | border/payments/manager.py:60-112 | registers a channel with empty history, or refuses a non-positive deposit |
| `ChannelObject.ChannelManager.SendPayment` | border/payments/manager.py:118-171 | the refusal or the signed receipt, with all four dictionaries afterwards |
| `ChannelObject.ChannelManager.ReceivePayment` | border/payments/manager.py:176-221 | the refusal, the stateless countersignature, or the recorded receipt |
| `ChannelObject.ChannelManager.CloseChannel` | border/payments/manager.py:226-247 | marks an open channel of the caller as closing |
| `ChannelObject.ChannelManager.SettleChannel` | border/payments/manager.py:252-316 | closes a channel for its sender |
| `Lora.PacketRoundTrip` | border/lora.py:66-88 | packing succeeds exactly on fields that fit, and unpacking gives the packet back |
| `Lora.ChecksumIsNotChecked` | border/lora.py:78-88 | eight bytes are enough to unpack, and packing back reproduces them if and only if the checksum was right: it is never checked |
| `Lora.ByteSumAdds` | border/lora.py:66-67 | the checksum adds up the bytes, in whatever pieces |
| `Lora.Chunk` | border/lora.py:135-157 | the packets are the payload cut at multiples of 214 bytes, numbered |
| `Lora.ChunkSizes` | border/lora.py:135-157 | every packet is full but the last, which holds at least a byte, and carries version, session, number and count |
| `Lora.JoinChunks` | border/lora.py:135-171 | the chunks put together are the payload |
| `Lora.ReassembleInAnyOrder` | border/lora.py:159-178 | any permutation of a payload's packets reassembles to it |
| `LoraDelivery.EveryPayloadOnce` | border/lora.py:315-338 | sessions of at most 255 packets, every packet once, any interleaving: every payload is delivered exactly once and intact, and no session stays open |
| `LoraRepeats.FirstPacketsDecide` | border/lora.py:159-178 | with repeats and other sessions in between: the first n packets heard of a session of n packets decide; it delivers what they join to, or, if that does not decode, nothing ever |
| `LoraRepeats.RepeatsBreakDelivery` | border/lora.py:315-338 | the payload is delivered if the first n packets heard are all different; with a codec that notices damage, if and only if they join to it |
| `LoraRepeats.OneRepeatLosesPayload` | border/lora.py:315-338 | two packets deliver their payload; the first of them heard twice before the second loses it |
| `LoraDelivery.LoRaReceiver.ReceivePacket` | border/lora.py:315-338 | the new session table, deliveries and result, including a complete but undecodable session |
| `LoraBroadcast.QueueIsFair` | border/lora.py:225-258 | after every run the queue is sorted by priority, sent plus waiting is what was queued in order within each priority, session numbers are consecutive, and sending failed for exactly the contents of more than 255 packets on hardware |
| `LoraBroadcast.SentExactly` | border/lora.py:252-289 | over every run sending fails exactly for payloads of more than 54 570 bytes on hardware, and then nothing goes out; otherwise what goes out joins to the payload |
| `LoraBroadcast.MostUrgentFirst` | border/lora.py:252-258 | what is sent next has the most urgent priority waiting and is the oldest of it |
| `LoraBroadcast.BroadcastReachesReceiver` | border/lora.py:252-338 | from queue to receiver: at most 65536 broadcasts, heard once in any order, are all received exactly once |
| `LoraBroadcast.LoRaBroadcaster.Queue` | border/lora.py:225-229 | append and stable sort |
| `LoraBroadcast.LoRaBroadcaster.Broadcast` | border/lora.py:252-289 | takes the head, numbers its session modulo 65536, sends and counts its packets; on hardware a content of more than 255 packets raises before anything is sent, and is lost |
| `LoraBroadcast.LoRaBroadcaster.Transmit` | border/lora.py:280-289 | sends up to the first packet that does not pack, and counts only a complete transmission |
| `Gossip.BroadcastIsBounded` | border/p2p/gossip.py:67-121 | one broadcast with TTL T causes at most 4 + ... + 4^T deliveries on any topology, in any order, even when caches forget |
| `Gossip.GossipDiesOut` | border/p2p/gossip.py:67-121 | all deliveries and messages in the air are bounded by the broadcasts alone |
| `Gossip.FloodIsFourWeights` | border/p2p/gossip.py:108-119 | the bound is four times what one forwarded message can cause |
| `Gossip.CacheIsNewest` | border/p2p/gossip.py:146-150 | the cache is the newest 2048 insertions in order |
| `Gossip.NoEarlyRepeat` | border/p2p/gossip.py:142-150 | any 2049 successive insertions into one cache are of different ids, so a repeat needs 2048 others in between |
| `Gossip.CacheIsOfMarks` | border/p2p/gossip.py:67-150 | in every run of the network a node's cache is the one its own broadcasts and deliveries make |
| `Gossip.NoEarlyReturn` | border/p2p/gossip.py:67-150 | in every run of the network, between two events at which a node takes the same id for new it takes at least 2048 other ids for new |
| `GossipReach.BroadcastSends` | border/p2p/gossip.py:67-85 | a broadcast sends one unchanged message to every chosen peer |
| `GossipReach.DeliverySends` | border/p2p/gossip.py:87-121 | a delivery that is new and has hops left goes on to every chosen peer with one hop less and otherwise unchanged; any other delivery sends nothing |
| `GossipReach.EventuallyDelivered` | border/p2p/gossip.py:67-121 | in a lossless run that ends with nothing in the air every message that was sent is delivered |
| `GossipReach.FloodReaches` | border/p2p/gossip.py:67-121 | a lossless broadcast with TTL T arrives at the end of every path of at most T chosen peers on which each node finds the message new, with the hops that are left over |
| `Gossip.GossipRouter.Receive` | border/p2p/gossip.py:87-121 | known ids change nothing; new ones are marked, handed to every handler in order and forwarded with one hop less |
| `Gossip.GossipRouter.Broadcast` | border/p2p/gossip.py:67-85 | marks the id and sends to at most four sampled peers |
| `Gossip.GossipRouter.Mark` | border/p2p/gossip.py:146-150 | the eviction loop keeps the newest 2048 |
| `Gossip.GossipRouter.On` | border/p2p/gossip.py:64-65 | appends a handler to its message type |
| `GovernanceRuns.TalliesAreBallots` | border/dao/governance.py:60-101 | for proposals submitted without votes each tally is the weight of the latest ballot of every voter |
| `GovernanceRuns.BallotIsLatestVote` | border/dao/governance.py:60-91 | the ballot on record of a voter is its latest accepted vote: authentic, of positive weight, and not followed by another |
| `GovernanceRuns.StatusMovesForward` | border/dao/governance.py:103-143 | a status only moves forward, payloads never change, and a closed tally is final |
| `GovernanceRuns.PassedMeansMajority` | border/dao/proposal.py:64-84 | every passed or executed proposal was active at a tally by whose supply its final votes meet quorum and 51 percent |
| `GovernanceRuns.RejectedMeans` | border/dao/governance.py:76-130 | every rejected proposal was active when a tally found quorum or majority missing, or when an authentic vote came after its deadline |
| `GovernanceRuns.DecidedExactly` | border/dao/governance.py:60-130 | over every run, both ways: passed or executed if and only if such a passing tally happened, rejected if and only if such a failing tally or late vote happened |
| `GovernanceRuns.PassingMeans` | border/dao/proposal.py:64-84 | passing in whole votes: a tenth of the supply takes part, and of a hundred votes for or against at least 51 are in favour |
| `GovernanceRuns.FiledExactly` | border/dao/governance.py:45-57 | over every run a proposal is on file if and only if somebody with ten coins submitted it, and its payload and deadline are those of the first such submission |
| `GovernanceEffects.BallotsExactly` | border/dao/governance.py:60-91 | over every run a voter has a ballot on record if and only if a vote of theirs was authentic, in time, of positive weight and found the proposal active, and it is the last such vote |
| `GovernanceEffects.ExecutedExactly` | border/dao/governance.py:132-202 | over every run a proposal is executed if and only if some event executed it while passed and feasible, in terms of its payload and the balance |
| `GovernanceEffects.EffectExactly` | border/dao/governance.py:132-202 | everything an event does to parameters, rates, income, spending and balance |
| `GovernanceEffects.LatestSettingStands` | border/dao/governance.py:145-185 | over every run a parameter has the value it was set to last, or its initial one |
| `GovernanceEffects.Unexecuted` | border/dao/governance.py:145-202 | what cannot be carried out changes nothing and is refused, but for a valid slash, which raises |
| `GovernanceRuns.LateVoteRejects` | border/dao/governance.py:76-78 | over every run: an authentic vote that finds the proposal active after its deadline leaves it rejected for good, whatever its votes |
| `GovernanceRuns.LateVoteReversesVerdict` | border/dao/governance.py:60-130 | in any state with a proposal that is past its deadline and has its majority: a tally passes it, a late vote just before the same tally rejects it |
| `GovernanceRuns.MajorityAwaitsTally` | border/dao/governance.py:45-101 | a concrete run that reaches such a state |
| `GovernanceRuns.TallyIgnoresDeadline` | border/dao/governance.py:103-130 | the verdict of a tally is the same for every end of the voting period |
| `GovernanceRuns.EarlyTallyPasses` | border/dao/governance.py:103-143 | a concrete run in which a proposal is tallied, passed and executed before its voting period ends |
| `GovernanceRuns.TreasuryIsSafe` | border/dao/treasury.py:66-115 | balance is income less spending and never negative; an executed pay-out was paid exactly once and as voted, and nothing else was paid |
| `GovernanceRuns.ParametersAreVoted` | border/dao/governance.py:145-185 | every parameter has its initial value or the one an executed, whitelisted proposal gave it |
| `Treasuries.BorderTreasury.Collect` | border/dao/treasury.py:66-82 | books positive fees |
| `Treasuries.BorderTreasury.SpendFunds` | border/dao/treasury.py:100-115 | pays out of the balance or refuses |
| `Treasuries.BorderTreasury.ApplyParameter` | border/dao/treasury.py:118-132 | sets one of the five fee rates |
| `GovernanceObject.GovernanceEngine.SubmitProposal` | border/dao/governance.py:45-57 | activates a new proposal of a sufficiently funded proposer |
| `GovernanceObject.GovernanceEngine.CastBallot` | border/dao/governance.py:60-91 | authenticity, state, deadline and weight in that order; an old ballot of the voter is taken back first |
| `GovernanceObject.GovernanceEngine.TallyProposal` | border/dao/governance.py:103-113 | closes an active proposal, reports others |
| `GovernanceObject.GovernanceEngine.FinaliseProposal` | border/dao/governance.py:115-130 | passed or rejected by quorum and majority |
| `GovernanceObject.GovernanceEngine.ExecuteProposal` | border/dao/governance.py:132-143 | executes a passed proposal once, or leaves it passed |
| `GovernanceObject.GovernanceEngine.ApplyPayload` | border/dao/governance.py:145-202 | the effect of each payload on parameters and treasury |
| `Workers.BestWorkerIsBest` | border/compute/worker.py:226-236 | a worker is chosen if and only if one can take the job; nobody able scores higher, and everyone able registered before it scores lower |
| `Workers.ScoreMeansEligible` | border/compute/worker.py:117-139 | the score is non-negative exactly for workers that can take the job |
| `Workers.ReputationIsShare` | border/compute/worker.py:55-66 | reputation is the share of completed jobs to four places, one half for a newcomer |
| `Workers.EligibleMeans` | border/compute/worker.py:83-125 | a worker can take a job if and only if it is free, was seen within a minute, holds a coin of stake and a reputation of 0.3, and one of its GPUs is large enough |
| `Workers.ScoreWeighs` | border/compute/worker.py:127-139 | how much reputation, stake and memory count in the difference of two scores |
| `MarketRuns.NoJobPaidTwice` | border/compute/market.py:90-148 | in every run no job is paid twice, and each payment goes to the worker of a genuine proof, is what that proof earns and at most twice the job's maximal price |
| `MarketMeaning.PaidExactly` | border/compute/market.py:90-148 | over every run the payments are exactly what its acceptable proofs call for, in order |
| `MarketMeaning.ProofExactly` | border/compute/market.py:90-148 | a proof is accepted if and only if it proves some job; then that job is completed, its worker credited and one payment logged, and nothing else changes |
| `MarketMeaning.RewardMeans` | border/compute/job.py:296-305 | the reward is the nearest satoshi to the rate or the agreed price, whichever is more |
| `MarketMeaning.AssignsToBest` | border/compute/market.py:65-85 | a pending job goes to the first of the best able workers if there is one, and nothing changes otherwise |
| `MarketMeaning.NoneWaitsAfterRetry` | border/compute/market.py:192-199 | over every run: after retrying no job waits for which a worker is there |
| `MarketMeaning.SubmitExactly` | border/compute/market.py:47-63 | a job is taken if and only if its id is new and its price positive; it is queued last and does not wait for a worker who is there |
| `MarketMeaning.FailExactly` | border/compute/market.py:154-181 | failing marks the first job with the id, blames and frees its worker, and queues a copy that goes straight to the best worker |
| `MarketMeaning.ExpireExactly` | border/compute/market.py:183-190 | exactly the jobs that waited for more than five minutes expire |
| `MarketMeaning.RegisterExactly` | border/compute/worker.py:209-221 | registering replaces the first worker with the id or adds one, a heartbeat refreshes it |
| `MarketAssignments.MarketIsSound` | border/compute/market.py:65-199 | in every fair run no worker holds two assigned jobs, a worker is busy exactly when it holds one, everyone earned what was paid to its wallet, and the log adds up to all earnings |
| `MarketAssignments.FailSoundExactly` | border/compute/market.py:154-181 | failing a job keeps all this if and only if the job is still open or its worker is free |
| `MarketExample.FailingCompletedJob` | border/compute/market.py:154-181 | a fair run of the market after which failing its completed job gives its worker two assigned jobs, whatever the input checks |
| `MarketObjects.BorderWorker.RecordCompletion` | border/compute/worker.py:146-149 | counts the job, adds the earnings, frees the worker |
| `MarketObjects.BorderWorker.RecordFailure` | border/compute/worker.py:151-153 | counts the failure and frees the worker |
| `MarketObjects.WorkerRegistry.Register` | border/compute/worker.py:209-214 | adds a worker at the end or replaces it in place |
| `MarketObjects.WorkerRegistry.HeartbeatOf` | border/compute/worker.py:216-221 | refreshes the worker with that id and reports whether there is one |
| `MarketObjects.WorkerRegistry.BestWorkerFor` | border/compute/worker.py:226-236 | the scoring loop and the sort choose the specified worker |
| `MarketObjects.WorkerRegistry.IndexOfWallet` | border/compute/market.py:255-261 | the first worker with a non-empty wallet |
| `MarketObjects.ComputeMarket.TryToAssign` | border/compute/market.py:65-85 | gives a pending job to the best worker and marks it busy, or changes nothing |
| `MarketObjects.ComputeMarket.SubmitAJob` | border/compute/market.py:47-63 | queues new, priced jobs and tries to assign them |
| `MarketObjects.ComputeMarket.SubmitAProof` | border/compute/market.py:90-148 | accepts exactly matching proofs of assigned jobs, completes, pays and credits |
| `MarketObjects.ComputeMarket.FailAJob` | border/compute/market.py:154-181 | fails the job, frees its worker, queues a copy and tries to assign it |
| `MarketObjects.ComputeMarket.ExpireStaleJobs` | border/compute/market.py:183-190 | expires exactly the pending jobs past their time and counts them |
| `MarketObjects.ComputeMarket.RetryPendingJobs` | border/compute/market.py:192-199 | tries every pending job in order and counts those that left the queue |
| `RelayMetering.MeteringIsExact` | border/relay.py:212-267 | for every session of every run: proven plus waiting bytes are the recorded ones and fewer than 10 MiB wait; after closing every byte is in exactly one proof |
| `RelayMetering.RunIsExact` | border/relay.py:228-252 | the proofs of a session are numbered without repetition and the books of all sessions hold |
| `RelayMetering.RunIsToldByEvents` | border/relay.py:127-226 | over every run the open sessions, the ones ever opened and the bytes recorded for each are read off the events alone |
| `RelayMetering.ProofsCoverRecords` | border/relay.py:136-267 | over every run the proofs of a closed session cover every byte recorded for it, those of an open one all but less than 10 MiB |
| `RelayMetering.NumberedInOrder` | border/relay.py:228-252 | over every run the proofs of a session are numbered 0, 1, 2 and so on |
| `RelayMetering.TickProvesWaiting` | border/relay.py:254-267 | in every run a tick proves exactly the sessions in which something waited for two minutes, all of it, and leaves the others alone |
| `RelayObjects.BorderRelay.Open` | border/relay.py:127-134 | adds fresh counters |
| `RelayObjects.BorderRelay.Record` | border/relay.py:212-226 | counts bytes and proves them once 10 MiB wait |
| `RelayObjects.BorderRelay.EmitProof` | border/relay.py:228-252 | one numbered proof, and all bytes marked as flushed |
| `RelayObjects.BorderRelay.Close` | border/relay.py:136-143 | removes the session and proves what waits |
| `RelayObjects.BorderRelay.Tick` | border/relay.py:254-267 | the flush loop proves exactly the due sessions in order |
| `RelayObjects.SessionStats.MarkFlushed` | border/relay.py:85-88 | the counters after a flush |

## Left out

- Economics.ComputeCumulativeSupply: adds the eras up exactly, while the program adds doubles; near 21 million coins these lie close enough to a satoshi apart that in eras 23 and 25 to 28, counted from 0, the program's total can be one satoshi off. Which heights report more than was paid does not change.
- Binary floating point: sums of amounts that are not whole satoshi, and rounding of ratios near a tie, are real arithmetic here.
- ChainObject.BorderChain.Replace: takes the new chain as a value, so later changes a caller makes to the very list object it passed in are not captured.
- Blocks, transactions, jobs, proposals, channels and receipts are values: what two holders of the same Python object see of each other's changes is not captured; ledger, registry, workers, treasury and relay sessions are objects.
- Pending pools after replace_chain: the code rebuilds the spent sets and keeps the pools; pool claims are made for runs without it.
- Uniqueness of compute and storage proofs in received blocks: block validation does not check it.
- Staking: whether a worker has the minimum stake is a parameter of submitting a compute proof; stake, unstake and slash are not part of this model.
- The on-chain branch of the channel manager, which calls Transaction.create with an argument it does not take, and the funding of escrow: channels run with no chain attached.
- One manager serving both ends of a channel: receiving overwrites the sender's total there, and the protocol theorem is about two managers.
- GovernanceObject.GovernanceEngine.ApplyPayload: a valid slash raises an error here as in the code, which reads an attribute that is never set; slashing a chain is not modelled.
- GovernanceRuns.TalliesAreBallots: assumes proposals that are submitted without votes; the code also accepts objects that bring tallies along.
- ChannelProtocol.ChannelSafety: assumes that what verifies under the key passed to receive was signed by the sender's calls, so that the receiver passes the sender's key: the code takes any key and never ties it to the sender's address; and that the receiver does not pay with the sender's wallet.
- Receipts.SigningBytesInjective: is about whole satoshi; receive does not round the amount of a receipt from the wire, whose text keeps eight places, and Receipts.ClaimsSignAlike says exactly which such amounts sign alike; the channel and manager models take whole satoshi.
- LoraDelivery.EveryPayloadOnce: is about packets heard once, repeats are the subject of LoraRepeats; it assumes that compressing and decompressing a content succeeds; gzip and JSON are a codec parameter, which drops the priority and cuts the body as the code does.
- Gossip.GossipRouter.Receive: handlers are identifiers whose calls are logged; an exception of a handler is swallowed by the code and has no effect here.
- Job fields nothing depends on: type, model, assigned_at, completed_at, result and error, and the log lines of all components.
- The relay's obfuscation of requests, its mining loop, and the hand-over of its proofs to a chain; a proof is its session, number and bytes.
- Locks and threads inside a call: record_bytes releases its lock between counting and proving, and both together are one step here.
- Persistence to JSON and SQLite, HTTP endpoints and timeouts, peer discovery, wallets and key derivation, dashboards and command lines: input and output.
- Identity, naming, storage placement, inference and render markets: easier relatives of the components above.
