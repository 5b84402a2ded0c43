# Consensus state and data structures of the node, verified

This project models the parts of the MERGE node (a Bitcoin/PIVX descendant) that keep its consensus state,
and the data structures and codecs under them, and proves what they promise over every input, every run or
every reachable state. Hashes, signatures, scripts, disk, network and clock are parameters or opaque
functions. Every `.dfy` file is one module of the same name; `Common`, `Products` and `BitStrings` hold
definitions that several others use.

**Coins** (`Transactions`, `Coins`, `CoinsView`, `CoinsCache`). A view is the database or a write-back cache
with DIRTY and FRESH flags in front of another view. `CoinsView` states the operations on values and proves
that a stack of any depth shows, at every level, what plain maps given the same writes would show, that a
flush makes the parent show what the child showed, and that the FRESH assertion in `BatchWrite` never fires.
`CoinsCache` holds the objects, whose methods are proved to perform exactly those operations. Stack
discipline is assumed: a parent is neither written nor flushed while a child holds entries.

**Connecting and disconnecting blocks** (`BlockUndo`, `UndoInverse`, `BlockRules`, `MoneySupply`,
`ChainRuns`, `ChainCoins`, `ChainWitnesses`, `ConnectBlock`). `BlockUndo` proves the round trip of a block
with its undo data. `DisconnectBlock` never restores `fCoinStake`, so the entries whose last output the
block spent come back with the flag false; the exact set of entries concerned, and the exact condition under
which the report is clean, also from a state that has lost flags before, are part of the theorem.
`CoinStakeReorgUnclean` gives two accepted transactions for which it is not clean. `UndoInverse` proves the
other direction for arbitrary undo data: a clean report means that connecting the block again gives back the
coins. `BlockRules` proves that what `ConnectBlock` accepts meets the conditions of the round trip and, with
a positive maturity, that disconnecting it at once is clean. `ChainRuns` follows arbitrary runs of
connections and disconnections: the coins, the money supply against the emission schedule, and
`mapStakeSpent`. The schedule emits 100,000,015 coins on the main net, 15 more than `MaxMoneyOut`.
`ChainCoins` says what the coins are and what may be spent in terms of the active chain alone: its unspent
outputs, and exactly the mature ones. A coinstake that has lost its flag is not known for one and need not
mature: `EarlyStakeRun` stakes one in the very next block.

`DisconnectTip` refuses an unclean disconnection and throws its view away, but by then `DisconnectBlock` has
erased the inputs of the tip, which stays active, from `mapStakeSpent`. A tip is refused exactly when one of
its coinstakes has lost its flag, and then for good. So not every input of the recent active blocks is in
`mapStakeSpent` after every run. After every run each entry names an input of the active block at its
height. The other half has an exact condition: the map stays exact throughout a run if and only if none of a
block's inputs is in the map already when the block is connected, or the block is too deep to matter, which
a caller can look up before `ConnectBlock`; runs that reuse no id of a spent transaction are among these. In
such a run the map has, from the cutoff on, exactly the inputs of the blocks not refused disconnection, and
none is missing if and only if every refusal was deep enough. `ChainWitnesses` gives a run from genesis at
which one is missing: at the main net's maturity, depth and last proof-of-work height, proof-of-stake blocks
from height 57602 to 57627, and back. `ReuseRun` gives a run that is exact up to a last block which does not
meet the condition.

`ConnectBlock` has the methods on a `CoinsViewCache`. That no unspent transaction of the same id is
overwritten (BIP 30) is taken as given, as the code does not check it for a block that has a hash.
`CheckedTx` and `InOrder` state what `CheckBlock` has looked at before: output values are not negative, no
input is listed twice, the first transaction alone is a coinbase, and a proof-of-stake block has an empty
coinbase and one coinstake. The periods of proof of work and of proof of stake are among the rules. The
blocks of the runs in `ChainWitnesses` meet all of these; what remains of the checks on a transaction, its
scripts and its stake kernel among them, is the opaque predicate, which accepts them. Transactions of the
genesis block are not connected, as in the source.

**Address manager** (`AddrTables`, `AddrOps`, `AddrMan`, `AddrLaws`, `AddrCheck`, `AddrPeers`, `AddrDisk`).
`Consistent` is the invariant; `AddrLaws` says what each operation does to entries and slots, when an entry
is terrible, and how few buckets one group of addresses reaches; `AddrCheck` has the self-test `Check_` with
its return codes, says exactly which managers it accepts, and proves that after every run from a fresh
manager with a key that is not null it returns zero. Every operation keeps the invariant from a fresh
manager on, and every assertion in `MakeTried`, `Delete`, `ClearNew`, `SwapRandom` and `GetAddr_` holds. The
class `CAddrMan` has the two bucket tables as arrays. Writing a consistent manager to disk and reading it
back gives a consistent manager with the same addresses in the same slots, up to renumbering. Timestamps are
positive in `Good_` and not negative in `Attempt_`; random draws are parameters in range.

**Check queue** (`CheckQueue`, `CheckQueueLoop`). A state machine over every interleaving of one master and
any number of workers, one step per critical section and one per check run outside it, with spurious
wake-ups. It proves the verdict of every `Wait`, that the queue is as new afterwards, that a sleeping master
is never stranded, that some thread can always go on, and that in every endless schedule, fair or not, with
any number of additions and of calls of `Wait`, a `Wait` under way returns unless spurious wake-ups disturb
it for ever. Such schedules begin in every reachable state. `CheckQueueLoop` has the object with its fields.

**Block tree** (`BlockTree`, `ActiveChain`, `Locators`, `Branches`, `BlockLinking`, `BlockManager`). Skip
pointers against the plain walk, the active chain as the whole path of its tip, forks, locators. The block
manager takes blocks in any order: in every state `nChainTx` is the number of transactions of exactly the
complete branches and `mapBlocksUnlinked` holds exactly the blocks that wait; `FindMostWorkChain` returns
the greatest usable candidate, and what it drops, marks failed and puts back is stated from both sides. In a
sound index its assertion holds and it never puts anything back.

**Big integers** (`LimbValues`, `LimbOps`, `LimbProducts`, `LimbShifts`, `LimbDivision`, `CompactBits`).
Each limb loop computes arithmetic modulo 2^BITS, for any number of limbs; the division is exact; no
intermediate sum of the product leaves 64 bits. The compact form rounds down by less than one part in 2^15,
never raises a flag of its own, and is stable. `operator*=` needs its argument to be a different object:
`MultiplyAliased` shows that otherwise the result is zero.

**Codecs** (`Positional`, `Base58`, `VarInts`, `Compressor`, `CoinsSerial`). Base58 in both directions with
its two buffer sizes, from 256^8 <= 58^11 and 58^71 <= 256^52, its alphabet, and its order; the
variable-length integers; the compressed amounts, a bijection on the naturals; scripts and outputs; and the
serialized coins entry. `CCoins::GetSerializeSize` uses a factor of 8 in the header code where `Serialize`
uses 16: the announced size is proved never to exceed the bytes written, with the exact difference.

**Stake modifier** (`StakeModifier`). The sixty-four rounds of selection: each succeeds, picks the eligible
block of minimum selection hash, or the earliest one left, and sets one bit. Stake blocks are favoured by a
factor of 2^32, and before the upgrade their own hashes do not matter.

## Model

| member | source | states |
|---|---|---|
| Coins.Cleanup | src/coins.h:120-126 | popping null outputs off the end leaves the longest prefix that does not end in one |
| Coins.Trim | src/coins.h:120-126 | what is left is a prefix, all that is dropped is null, and the last output left is not |
| Coins.ClearUnspendable | src/coins.h:128-135 | outputs that can never be spent become null, then the end is cleaned up |
| Coins.Spend | src/coins.cpp:37-53 | refuses exactly a missing or spent output, changing nothing; otherwise removes it and records it, with the metadata of the entry exactly when it was the last one |
| Coins.CleanedFacts | src/coins.h:120-126 | cleaning up neither prunes nor unprunes, empties pruned entries, and leaves well-formed ones alone |
| CoinsView.LookupIsVisible | src/coins.cpp:87-113 | reading through any stack gives exactly the visible map, pruned entries counting as absent |
| CoinsView.FetchKeeps | src/coins.cpp:87-103 | fetching changes no view of the stack and keeps its invariant, although entries move into every cache |
| CoinsView.BeginKeeps | src/coins.cpp:115-132 | starting a modification changes nothing visible and hands out the visible coins, or pruned ones for a missing entry |
| CoinsView.EndRefines | src/coins.cpp:270-278 | the end of a modification writes the plain map, whether or not the entry is erased |
| CoinsView.ModifyRefines | src/coins.cpp:115-132 | a whole modification is one write to the plain map of the top view, and no other view changes |
| CoinsView.FreshAssertionHolds | src/coins.cpp:166-201 | the assertion on FRESH in BatchWrite holds for every entry of a valid stack |
| CoinsView.MergeAgrees | src/coins.cpp:166-201 | taking over a child's DIRTY entries keeps the parent's invariant and makes it show what the child showed |
| CoinsView.BatchWriteRefines | src/coins.cpp:166-201 | the same for any base, database or cache |
| CoinsView.FlushRefines | src/coins.cpp:203-208 | after a flush the parent and the empty child show what the child showed, and the view behind the parent is untouched |
| CoinsView.DbAgrees | src/txdb.cpp:53-72 | the database after a batch shows what the cache in front showed |
| CoinsView.StepRefines | src/coins.cpp:87-208 | every operation on a valid stack succeeds, keeps it valid and does to each visible map what it does to a plain map |
| CoinsView.RunRefines | src/coins.cpp:87-208 | any sequence of fetches, modifications, flushes, pushes and drops: at every level the stack shows what plain maps show, and no assertion fails |
| CoinsCache.CoinsViewDB.GetCoins | src/txdb.cpp:35-38 | reads the stored entry |
| CoinsCache.CoinsViewDB.BatchWrite | src/txdb.cpp:53-72 | DIRTY entries and no others are written, pruned ones as deletions |
| CoinsCache.CoinsViewCache.FetchCoins | src/coins.cpp:87-103 | the object's fetch through its chain of bases is Fetch, and returns the lookup of the stack |
| CoinsCache.CoinsViewCache.HaveCoins | src/coins.cpp:144-152 | true for every visible entry, and only for those when no cached entry has trailing null outputs |
| CoinsCache.CoinsViewCache.ModifyCoins | src/coins.cpp:115-132 | the object after starting a modification, and the coins handed out |
| CoinsCache.CoinsViewCache.Release | src/coins.cpp:270-278 | the modifier's destructor on the object |
| CoinsCache.CoinsViewCache.EndModify | src/coins.cpp:264-278 | a finished modification is one write to the visible map and leaves the cache valid |
| CoinsCache.CoinsViewCache.BatchWrite | src/coins.cpp:166-201 | the loop over the child's entries, in any order, merges exactly the DIRTY ones |
| CoinsCache.CoinsViewCache.Flush | src/coins.cpp:203-208 | the objects of this cache and its base after a flush both show what this cache showed |
| BlockUndo.SpendThenRestore | src/main.cpp:1977-1997 | one output: the restore accepts the undo record of its spend and gives back the entry, all but the coinstake flag of an emptied one |
| BlockUndo.InputsRoundTrip | src/main.cpp:1977-1997 | restoring all inputs of a transaction in reverse order is clean and undoes their spending, several from one entry included |
| BlockUndo.TxRestores | src/main.cpp:1943-2002 | undoing one transaction restores the coins whatever flags were lost before |
| BlockUndo.TxRoundTrip | src/main.cpp:1943-2002 | undoing one transaction is clean if and only if it is not a coinstake whose own flag was lost |
| BlockUndo.TxsRestored | src/main.cpp:1943-2002 | a whole block from a state that has already lost flags: exactly which are lost in the end, and that it is clean if and only if no coinstake of the block is found without its flag |
| BlockUndo.LosesMore | src/main.cpp:1952-1966 | an unclean block stays unclean when more flags are lost |
| BlockUndo.BlockRoundTrip | src/main.cpp:1943-2002 | connecting and disconnecting any block, spends within it included, restores the coins but for the flags of emptied entries, and is clean if and only if the block does not empty the outputs of a coinstake of its own |
| BlockUndo.BlockRoundTripExact | src/main.cpp:1943-2002 | exact and clean when no emptied entry is a coinstake |
| UndoInverse.RestoreThenSpend | src/main.cpp:1972-1996 | an output restored without complaint can be spent again, and then nothing has changed |
| UndoInverse.MintIsOverwritten | src/main.cpp:1991-1996 | a zerocoin mint counts as not available: overwriting one is not complained about |
| UndoInverse.UndoThenConnect | src/main.cpp:1943-2002 | for any coins and any undo data: if the report is clean, the block can be connected to what is left, and that gives back the coins |
| BlockUndo.ConcatRecords | src/main.cpp:2174-2178 | undo records of a run of transactions are those of its parts |
| BlockUndo.ConcatDisconnects | src/main.cpp:1943-2002 | disconnecting two stretches is disconnecting the later, then the earlier; clean if both are |
| BlockRules.HaveInputsSuffices | src/coins.cpp:234-246 | HaveInputs on distinct inputs makes every Spend in UpdateCoins succeed, which the code asserts |
| BlockRules.AcceptedIsConnectable | src/main.cpp:2130-2182 | a block accepted by the loop meets every condition of the round trip |
| BlockRules.YoungStakeIsNotLost | src/main.cpp:1846-1852 | the maturity rule keeps a block from touching a coinstake of its own height: only a flag lost before is missing |
| BlockRules.AcceptedLoses | src/main.cpp:1952-1966 | an accepted block is found unclean exactly when one of its coinstakes has lost its flag |
| BlockRules.AcceptedBlockIsClean | src/main.cpp:1846-1852 | with any positive maturity an accepted block empties no coinstake of its own |
| BlockRules.AcceptedRoundTrip | src/main.cpp:1943-2002 | disconnecting an accepted block right after connecting it reports clean and restores the coins up to coinstake flags |
| BlockRules.FeesNonnegative | src/main.cpp:1861-1876 | the fees of an accepted block are not negative |
| MoneySupply.SpendAllTotal | src/coins.cpp:222-232 | spending inputs takes exactly their value out of the unspent total |
| MoneySupply.TxConserves | src/main.cpp:2163-2178 | one transaction: the unspent total changes by outputs minus inputs, less what was dropped as unspendable |
| MoneySupply.BlockConserves | src/main.cpp:2184-2187 | the same for an accepted block, as nMoneySupply counts it |
| MoneySupply.EmissionPlateau | src/main.cpp:1526-1576 | within a stretch of constant reward the sum of GetBlockValue is linear |
| MoneySupply.RewardChanges | src/main.cpp:1526-1576 | the heights at which the main net reward changes: these 38 and no others |
| MoneySupply.RewardRisesAndFalls | src/main.cpp:1526-1576 | the main net reward never falls from height 43202 to 273601 and never rises from 144002 on |
| MoneySupply.EmittedFirst | src/main.cpp:1528-1534 | what is emitted up to each change of the reward, to height 100801 |
| MoneySupply.EmittedEarly | src/main.cpp:1535-1538 | the same to height 360001 |
| MoneySupply.EmittedMiddle | src/main.cpp:1539-1551 | the same to height 1487531 |
| MoneySupply.EmittedLate | src/main.cpp:1552-1566 | the same to height 5314421 |
| MoneySupply.EmittedElsewhere | src/main.cpp:1569-1574 | what the other nets emit up to each change of their reward |
| MoneySupply.RewardElsewhere | src/main.cpp:1569-1574 | on the other nets the reward rises once and ends after height 999,999 |
| MoneySupply.EmissionTotal | src/main.cpp:1526-1576 | the whole schedule sums to 100,000,015 coins on the main net and to 62,992,470 elsewhere, and never more |
| ChainRuns.SpentStaysGone | src/main.cpp:1770-1784 | what a block spends was not spent before and stays spent |
| ChainRuns.RecordExactly | src/main.cpp:2243-2262 | recording a block's inputs and pruning leave an exact map exact if and only if none of the inputs was there, or the block is below the cutoff |
| ChainRuns.EraseKeeps | src/main.cpp:1998-1999 | erasing the inputs of the disconnected tip keeps the map exact, and what blocks from the cutoff on spend spent once |
| ChainRuns.RefusalKeeps | src/main.cpp:2402-2403 | a refused disconnection takes exactly the inputs of a tip that stays, and keeps the same |
| ChainRuns.ExactAgrees | src/main.cpp:2243-2262 | nothing is missing if and only if no refused block lies at or above the cutoff |
| ChainRuns.ConnectKeeps | src/main.cpp:2130-2262 | any accepted block that overwrites no unspent transaction keeps the invariant of the run |
| ChainRuns.DisconnectKeeps | src/main.cpp:2389-2405 | disconnecting the tip can always be tried, and keeps the invariant whether it is committed or refused |
| ChainRuns.UncleanStays | src/main.cpp:1952-1966 | a block that cannot be disconnected cleanly cannot be later, either |
| ChainRuns.RefusedExactly | src/main.cpp:2402-2403 | the tip is refused exactly when one of its coinstakes is without its flag in the coins at that time |
| ChainRuns.RefusedTipStays | src/main.cpp:2402-2403 | a tip refused once is never disconnected, nor any block below it |
| ChainRuns.RefusedSpends | src/main.cpp:2402-2403 | a refused block spends something |
| ChainRuns.WorkMint | src/main.cpp:2184-2210 | under proof of work the limit says that a block puts out no more than it takes in and the reward |
| ChainRuns.StakeMint | src/main.cpp:2184-2210 | under proof of stake it says that the coinstake alone puts out no more than it takes in and the reward; fees are destroyed |
| ChainRuns.RunKeepsInv | src/main.cpp:2389-2405 | every run of connections and of disconnections, refused ones included, keeps the invariant |
| ChainRuns.SupplyOfRun | src/main.cpp:2184-2210 | after any run nMoneySupply is the unspent value plus the dropped value of the active chain, at most the sum of GetBlockValue over earlier heights, and at most 100,000,015 coins on the main net or 62,992,470 elsewhere |
| ChainRuns.ConnectExactly | src/main.cpp:2243-2262 | with an exact map, connecting an accepted block leaves it exact if and only if insert adds each of its inputs |
| ChainRuns.DisconnectKeepsStakes | src/main.cpp:2389-2405 | disconnecting the tip, committed or refused, keeps the map exact and recent inputs spent once |
| ChainRuns.RunExactly | src/main.cpp:2243-2262 | mapStakeSpent is exact after each step of a run if and only if each block meets the guard when it is connected |
| ChainRuns.RunKeepsSound | src/main.cpp:2243-2262 | whatever a run connects and disconnects, every entry of mapStakeSpent names an input of the active block at its height |
| ChainRuns.RunPrunes | src/main.cpp:2253-2262 | no entry of mapStakeSpent is ever further below the tip than the reorganization depth |
| ChainRuns.FreshIsUnrecorded | src/main.cpp:2249-2249 | a run that reuses no id of a spent transaction meets the guard throughout |
| ChainRuns.StakeSpentOfRun | src/main.cpp:2243-2262 | after any run every entry of mapStakeSpent names an input of the active block at its height, none further below the tip than the depth; the map is exact throughout if and only if each block meets the guard; and then, from the highest height minus MaxReorganizationDepth on, it has exactly the inputs of the blocks not refused disconnection, so that all are there if and only if every refusal of the run was of a tip below that |
| ChainRuns.ConnectIgnoresFlags | src/main.cpp:2130-2182 | lost coinstake flags do not change which coins a block leaves |
| ChainRuns.CoinsOfRun | src/main.cpp:2389-2405 | after any run the coins are those of connecting the active chain from genesis, up to lost coinstake flags |
| ChainCoins.EntryMade | src/coins.h:91-99 | a new entry has exactly those outputs of its transaction that can be spent, and its height, version and kind |
| ChainCoins.TracedOn | src/main.cpp:1770-1784 | connecting transactions keeps the coins exactly the unspent outputs of all transactions so far |
| ChainCoins.UtxoOfRun | src/main.cpp:1770-1784 | after any run the coins are exactly the unspent outputs of the active chain, with height, version and kind, up to lost coinstake flags |
| ChainCoins.AcceptedByHistory | src/main.cpp:1837-1876 | a transaction is accepted if and only if, by what the chain has done, its inputs are unspent, mature and in range, their sum is in range, and no more goes out than in, a coinstake apart |
| ChainCoins.MaturityOfRun | src/main.cpp:1845-1850 | after any run, what an active block spends was unspent before; of a coinbase it is at least the maturity below; of a coinstake too, unless its flag had been lost |
| ChainWitnesses.CoinStakeReorgUnclean | src/main.cpp:1984-1987 | a coinstake at height 57602 and the stake of its outputs at height 57627, accepted with the main net's maturity, whose disconnection restores the coins exactly and yet is not clean |
| ChainWitnesses.RefusedRun | src/main.cpp:2402-2403 | for all rules with a positive maturity up to the reorganization depth and the last proof-of-work height: a run from genesis that reuses no id, with a coinstake in each block above that height, in which the disconnection of the first of these is refused and the input of the still active tip is missing from mapStakeSpent |
| ChainWitnesses.EarlyStakeRun | src/main.cpp:1847-1848 | a run in which the flag is lost and the next block stakes an immature coinstake |
| ChainWitnesses.MainNetRefusedRun | src/main.cpp:1998-1999 | such a run with the maturity, the depth and the last proof-of-work height of the main net |
| ChainWitnesses.ReuseRun | src/main.cpp:2249-2249 | a run without refusals, in the proof-of-work period, that reuses the id of a spent coinbase: the map is exact up to the last block, which does not meet the guard; insert keeps the earlier height, and the block's input is not recorded at its own |
| ConnectBlock.SpendOutput | src/main.cpp:1777-1778 | spending through the cache spends in the visible map, or changes nothing |
| ConnectBlock.UpdateCoins | src/main.cpp:1770-1784 | the whole effect on the visible map, and the undo record; no assertion fails |
| ConnectBlock.CheckInputValues | src/main.cpp:1837-1876 | accepts exactly when all inputs are mature, all sums are in range and no more goes out than in, a coinstake apart |
| ConnectBlock.HasInputs | src/coins.cpp:234-246 | true exactly when every input is available in the visible map |
| ConnectBlock.GetValueIn | src/coins.cpp:222-232 | the sum of the values spent |
| ConnectBlock.ConnectTx | src/main.cpp:2130-2178 | one transaction of the loop: accepted exactly by the rules, with its effect, undo record and totals |
| ConnectBlock.ConnectTxs | src/main.cpp:2130-2182 | the loop: accepted exactly by the rules applied to each transaction after the earlier ones; coins, undo records and totals of the block |
| ConnectBlock.RemoveOutputs | src/main.cpp:1952-1969 | compares the added outputs with the block's and removes them, in the visible map and in the stack of caches |
| ConnectBlock.PutOutputBack | src/main.cpp:1977-1996 | the restored entry and whether that was clean |
| ConnectBlock.RestoreInputs | src/main.cpp:1972-2000 | the inputs of one transaction in reverse order: the stack of caches in every case, clean exactly when each restore is, and then the restored map |
| ConnectBlock.UndoOne | src/main.cpp:1943-2002 | one transaction undone, mismatched outputs and undo data that do not fit included: the stack of caches in every case, the report, and the visible map |
| ConnectBlock.LimitIs | src/masternode-payments.cpp:177-229 | exactly when a block that mints more than expected is refused |
| ConnectBlock.Chainstate.ConnectBlock | src/main.cpp:2054-2270 | accepted exactly by the rules; coins, undo data, money supply, mint and mapStakeSpent afterwards, and the mint limit when it is enforced |
| ConnectBlock.Chainstate.DisconnectBlock | src/main.cpp:1922-2013 | fails exactly on inconsistent undo data; the report, the coins, the stack of caches and mapStakeSpent afterwards, and where a failure stops |
| ConnectBlock.Chainstate.DisconnectTip | src/main.cpp:2389-2405 | commits exactly a fitting and clean disconnection, and otherwise leaves the coins as they were; the inputs are erased from mapStakeSpent in both cases |
| ConnectBlock.Chainstate.RecordInputs | src/main.cpp:2243-2251 | inserts every input of the block that is not there yet |
| ConnectBlock.Chainstate.PruneBelow | src/main.cpp:2253-2262 | erases exactly the entries below the cutoff |
| AddrTables.SwapKeeps | src/addrman.cpp:101-119 | swapping two places of the random vector keeps every table consistent |
| AddrTables.DeleteKeeps | src/addrman.cpp:121-133 | the assertions of Delete hold for an entry without references, and deletion keeps consistency |
| AddrTables.ClearNewKeeps | src/addrman.cpp:135-148 | emptying a new slot keeps consistency and the assertion on nRefCount, deleting the entry with its last reference |
| AddrTables.UnlistGone | src/addrman.cpp:152-165 | after n buckets MakeTried has taken the entry out of all of them |
| AddrTables.UnlistKeeps | src/addrman.cpp:152-162 | after all buckets no reference is left, as MakeTried asserts |
| AddrTables.EvictKeeps | src/addrman.cpp:168-190 | moving a tried entry back to the slot it hashes to in the new table keeps consistency and spares the entry being promoted |
| AddrOps.MakeTriedKeeps | src/addrman.cpp:150-196 | every assertion of MakeTried holds, consistency is kept, and the entry sits in its one tried slot |
| AddrOps.UntriedIsListed | src/addrman.cpp:224-240 | an untried entry is always found in some new bucket |
| AddrOps.GoodKeeps | src/addrman.cpp:198-245 | Good_ keeps consistency, and a known service is tried afterwards |
| AddrOps.ListKeeps | src/addrman.cpp:290-312 | the last part of Add_, overwriting included, keeps consistency |
| AddrOps.CreateKeeps | src/addrman.cpp:89-99 | a created entry is consistent but for still being listed nowhere |
| AddrOps.AddKeeps | src/addrman.cpp:247-313 | Add_ keeps consistency, its assertions hold, and it reports new exactly the routable addresses not known before |
| AddrOps.AttemptKeeps | src/addrman.cpp:315-332 | Attempt_ keeps consistency |
| AddrOps.ConnectedKeeps | src/addrman.cpp:472-490 | Connected_ keeps consistency |
| AddrOps.ShuffleKeeps | src/addrman.cpp:458-464 | the swaps of GetAddr_ keep consistency, whatever is drawn |
| AddrOps.GatheredGrows | src/addrman.cpp:462-468 | each place fixed adds the address of its entry unless it is terrible; the assertion on mapInfo holds |
| AddrOps.GatheredIsKnown | src/addrman.cpp:451-470 | what is gathered is known and not terrible, no address twice, and everything once all places are fixed |
| AddrOps.StepKeeps | src/addrman.cpp:374-448 | any one operation passes its assertions and keeps the manager consistent |
| AddrOps.RunKeeps | src/addrman.cpp:374-448 | from a fresh manager every run passes all assertions and keeps the manager consistent |
| AddrMan.CAddrMan.constructor | src/addrman.h:428-446 | a fresh manager is consistent and empty |
| AddrMan.CAddrMan.DoSwapRandom | src/addrman.cpp:101-119 | the object after a swap |
| AddrMan.CAddrMan.DoDelete | src/addrman.cpp:121-133 | the object after a deletion |
| AddrMan.CAddrMan.DoClearNew | src/addrman.cpp:135-148 | the object after a new slot is emptied |
| AddrMan.CAddrMan.DoTakeOut | src/addrman.cpp:152-160 | the loop of MakeTried over all new buckets, on the bucket array |
| AddrMan.CAddrMan.DoEvict | src/addrman.cpp:168-190 | the object after a tried entry went back to the new table |
| AddrMan.CAddrMan.DoMakeTried | src/addrman.cpp:150-196 | the object after MakeTried |
| AddrMan.CAddrMan.FindBucket | src/addrman.cpp:224-235 | finds a listing bucket exactly when there is one, wherever the search starts |
| AddrMan.WrapCovers | src/addrman.cpp:224-235 | starting anywhere and wrapping round, the search visits every bucket |
| AddrMan.CAddrMan.Good_ | src/addrman.cpp:198-245 | the object stays valid and ends in the state of Good |
| AddrMan.CAddrMan.DoCreate | src/addrman.cpp:89-99 | the object after Create |
| AddrMan.CAddrMan.DoAnnounce | src/addrman.cpp:247-288 | the first part of Add_: the entry to be listed, if any, and whether it is new |
| AddrMan.CAddrMan.DoList | src/addrman.cpp:290-312 | the last part of Add_ on the bucket array |
| AddrMan.CAddrMan.Add_ | src/addrman.cpp:247-313 | the object stays valid; the result and the state |
| AddrMan.CAddrMan.Attempt_ | src/addrman.cpp:315-332 | the object stays valid; the state |
| AddrMan.CAddrMan.Connected_ | src/addrman.cpp:472-490 | the object stays valid; the state |
| AddrMan.CAddrMan.DoDraw | src/addrman.cpp:458-468 | one turn of GetAddr_ |
| AddrMan.CAddrMan.GetAddr_ | src/addrman.cpp:451-470 | at most 23 percent and 2500 addresses, distinct, known and not terrible; all such addresses when fewer than the limit come out |
| AddrLaws.AddTakesOver | src/addrman.cpp:256-264 | Add_ for a known address: services joined; the time less the penalty taken over exactly when it is newer by the interval; at most one reference more; nothing else changed but the random position |
| AddrLaws.AddLists | src/addrman.cpp:283-311 | Add_ for a new address: known afterwards exactly when its slot is free, or the entry there is terrible or has other slots; the entry, the slots and all tables then |
| AddrLaws.AddListsAgain | src/addrman.cpp:266-311 | Add_ for a known address: one slot more exactly when the announcement is news, the entry untried with fewer than eight slots, the draw lucky, and the slot free or terrible |
| AddrLaws.GoodMarks | src/addrman.cpp:198-245 | Good_: the whole record of a known service afterwards; nothing at all for another |
| AddrLaws.GoodMoves | src/addrman.cpp:150-196 | Good_ for an untried entry: it gets the tried slot, and whoever had it goes back to the new slot its own source chooses |
| AddrLaws.AttemptMarks | src/addrman.cpp:315-332 | Attempt_ changes only the last attempt and the count, of exactly that service |
| AddrLaws.ConnectedMarks | src/addrman.cpp:472-490 | after Connected_ the time of the service is at most twenty minutes behind, and it never falls |
| AddrLaws.NeverReached | src/addrman.cpp:34-52 | an address never reached is terrible a minute after the last attempt exactly when not seen for thirty days, from the future, or with the third attempt |
| AddrLaws.OnceReached | src/addrman.cpp:34-52 | one reached once: exactly when not recent, or ten attempts have failed since and a week has passed |
| AddrLaws.JustTried | src/addrman.cpp:36-37 | nothing is terrible within a minute of an attempt |
| AddrLaws.AddrLimitIs | src/addrman.cpp:453-455 | 23 percent rounded down, and at most 2,500 |
| AddrLaws.FewTriedBuckets | src/addrman.cpp:13-18 | all addresses of one group have at most eight tried buckets |
| AddrLaws.FewNewBuckets | src/addrman.cpp:20-26 | announcements by sources of one group have at most 64 new buckets |
| AddrLaws.NewBucketByGroups | src/addrman.cpp:20-26 | the new bucket depends on the two groups alone |
| AddrCheck.CheckEntries | src/addrman.cpp:382-407 | the loop over the entries, in any order: complains unless each entry passes, and collects the tried ids and the reference counts |
| AddrCheck.CheckTriedTable | src/addrman.cpp:414-426 | the loop over the tried table: complains or leaves ids over unless each slot holds the tried entry whose slot it is and each tried entry has one |
| AddrCheck.CheckNewTable | src/addrman.cpp:428-439 | the loop over the new table: complains or leaves references over unless each slot is a place of its new entry and each new entry has as many as it counts |
| AddrCheck.Check_ | src/addrman.cpp:374-448 | returns 0 exactly when everything it tests holds and the key is not null, -16 exactly when only the key is missing, -7 exactly when the sizes disagree; mapAddr is changed only when an address has no entry |
| AddrCheck.ConsistentPasses | src/addrman.cpp:374-448 | the self-test finds nothing in a consistent manager |
| AddrCheck.RunPasses | src/addrman.cpp:374-448 | after every run from a consistent manager the self-test finds nothing, and the key is the same |
| AddrCheck.Check | src/addrman.h:465-475 | a valid manager passes its self-test and is not changed |
| AddrPeers.RankThenOrder | src/addrman.h:289-323 | the number an entry goes by on disk leads back to it, listed entries first |
| AddrPeers.OrderThenRank | src/addrman.h:289-323 | every number stands for one entry: the renumbering is a bijection |
| AddrPeers.UnusableLists | src/addrman.h:346-362 | of a file in another format each slot goes to the first entry whose own source puts it there; the entries are as stored |
| AddrPeers.UnusablePlaces | src/addrman.h:388-402 | and its buckets change nothing |
| AddrPeers.LoadsWhatWasSaved | src/addrman.h:326-421 | loading what was saved succeeds, loses no entry to a collision, and changes only the ids |
| AddrPeers.RoomLeft | src/addrman.h:387-403 | no saved reference is refused for the limit of eight while loading |
| AddrPeers.NothingToPrune | src/addrman.h:405-415 | no loaded entry is without references |
| AddrPeers.RenumberedIsConsistent | src/addrman.h:326-421 | the loaded manager is consistent |
| AddrPeers.RenumberedIsSame | src/addrman.h:326-421 | both tables list the same addresses in the same slots |
| AddrPeers.SaveLoadRoundTrip | src/addrman.h:276-421 | saving and loading gives a consistent manager, the same up to renumbering |
| AddrDisk.RoomForRecord | src/addrman.h:289-308 | the assertions on nIds never fail: the counts written ahead are exact |
| AddrDisk.Serialize | src/addrman.h:276-321 | the loops write exactly the saved form |
| AddrDisk.Unserialize | src/addrman.h:326-421 | the loops read any file as the model does, and refuse exactly the files with a wrong key size |
| AddrDisk.PruneStep | src/addrman.h:405-415 | an unreferenced entry can be deleted even while the tables are being rebuilt |
| AddrDisk.SaveAndLoad | src/addrman.h:276-421 | two managers: the second is valid and the same up to renumbering |
| CheckQueue.InitHolds | src/checkqueue.h:131-131 | a new queue with any number of workers meets the invariant |
| CheckQueue.TakeKeepsBad | src/checkqueue.h:110-117 | taking a batch from the end loses no failing check and is never empty |
| CheckQueue.BatchIsShared | src/checkqueue.h:105-110 | a batch is the share of the queue among all threads, cut at the batch size, and at least one check |
| CheckQueue.StepKeeps | src/checkqueue.h:69-158 | every step of every interleaving keeps the invariant: nTodo is the queue plus all held batches, nIdle and nTotal count the threads, a failure is never forgotten; a Wait that returns gives the conjunction |
| CheckQueue.ReturnIsClean | src/checkqueue.h:91-100 | when Wait returns nothing is queued, nobody holds a check, and the queue is as new |
| CheckQueue.RunIsCorrect | src/checkqueue.h:69-158 | over any run every verdict is the conjunction of the checks added for it, and no check is lost or judged twice |
| CheckQueue.MasterNotStranded | src/checkqueue.h:80-104 | while the master sleeps in Wait some worker holds a batch |
| CheckQueue.SomebodyCanGoOn | src/checkqueue.h:69-127 | while the master is in Wait some thread can go on without being woken |
| CheckQueue.StepProgresses | src/checkqueue.h:69-127 | every step inside Loop but a spurious wake-up brings Wait nearer to its return |
| CheckQueue.WaitReturns | src/checkqueue.h:139-143 | in every endless schedule, with any number of additions and calls of Wait, a Wait under way returns unless it is woken for nothing for ever |
| CheckQueue.StaysInside | src/checkqueue.h:90-104 | the master leaves Loop only by returning |
| CheckQueue.SchedulesExist | src/checkqueue.h:69-158 | every reachable state begins an endless schedule in which nobody is woken for nothing |
| CheckQueue.WaitCanReturn | src/checkqueue.h:139-143 | every Wait under way has a schedule in which it returns |
| CheckQueue.UnusedIsIdle | src/checkqueue.h:164-190 | the assertion of CCheckQueueControl holds whenever nothing was added since the last Wait |
| CheckQueueLoop.CCheckQueue.DoAdd | src/checkqueue.h:145-158 | appends all checks and counts them |
| CheckQueueLoop.CCheckQueue.DoCleanUp | src/checkqueue.h:79-89 | enters the results of the last batch, and notifies exactly when a worker finishes the last one |
| CheckQueueLoop.CCheckQueue.DoProceed | src/checkqueue.h:90-119 | returns, waits or takes a batch as the protocol does |
| CheckQueueLoop.CCheckQueue.TakeBatch | src/checkqueue.h:110-117 | moves the batch from the end of the queue, one check at a time |
| CheckQueueLoop.RunBatch | src/checkqueue.h:121-124 | skipping the rest after a failure, the answer is the conjunction all the same |
| CheckQueueLoop.RunAll | src/checkqueue.h:121-124 | running a batch one step at a time gives the same answer |
| BlockTree.InvertClearsLowest | src/main.cpp:3511-3512 | n and (n - 1): the lowest one bit becomes a zero |
| BlockTree.SkipHeightIsLower | src/main.cpp:3515-3524 | a skip pointer leads strictly lower and not below genesis |
| BlockTree.SkipsCounted | src/main.cpp:3515-3524 | the number of skips from a height to genesis: one for each one bit of an even height, one for each two of an odd one |
| BlockTree.SkipsAreFew | src/main.cpp:3515-3524 | no more skips than the height has binary digits |
| BlockTree.CBlockIndex.GetAncestor | src/main.cpp:3526-3547 | with skip pointers as BuildSkip makes them, the plain parent walk, for every height; none out of range |
| BlockTree.AddToBlockIndex | src/main.cpp:2871-2938 | a new entry has a correct skip pointer and its parent's work plus its own |
| BlockTree.LastCommonAncestor | src/main.cpp:448-464 | the highest block both branches share |
| ActiveChain.HoldsBelow | src/chain.h:521-525 | a chain that holds a block holds its ancestors at their heights |
| ActiveChain.CChain.Contains | src/chain.h:521-525 | true exactly for the blocks of the chain |
| ActiveChain.CChain.Next | src/chain.h:527-534 | the child on the chain; none exactly for the tip and for blocks not on it |
| ActiveChain.CChain.SetTip | src/chain.cpp:13-24 | stopping early still leaves the whole ancestor path of the tip |
| ActiveChain.CChain.FindFork | src/chain.cpp:55-62 | the last common block, or none when not even genesis is shared |
| ActiveChain.ForkIsLastShared | src/chain.cpp:55-62 | seen from the tip that is the last shared ancestor |
| Locators.DepthFormula | src/chain.cpp:39-49 | depths 1 to 11, then 9 + 2^(i - 10) |
| Locators.HeightsDescend | src/chain.cpp:26-53 | the heights named descend strictly |
| Locators.Heights | src/chain.cpp:26-53 | from the start down to genesis, capped at zero |
| Locators.HeightsAreFew | src/chain.cpp:26-53 | logarithmically many hashes |
| Locators.GetLocator | src/chain.cpp:26-53 | the hashes of the ancestors at those heights, the tip's when no block is given |
| Locators.FindForkInGlobalIndex | src/main.cpp:586-598 | the first hash that names a block of the chain, or genesis when none does |
| Locators.HeldBelowFork | src/main.cpp:586-598 | a named block is on the chain exactly when it is not above the fork |
| Locators.FirstDeepEnough | src/chain.cpp:39-49 | the first depth to reach the fork overshoots it by less than a factor of two |
| Locators.LocatorFindsFork | src/main.cpp:586-598 | what is found is a common ancestor, the fork itself up to 11 deep, else less than twice as deep |
| Locators.SomethingIsFound | src/main.cpp:586-598 | with a shared genesis block something is always found |
| Locators.Exchange | src/chain.cpp:26-53 | both functions together, on two chains |
| Branches.WorseIsTotal | src/main.cpp:117-136 | the work comparator is a strict total order on the index |
| Branches.GreatestHasMostWork | src/main.cpp:117-136 | the last in the order has the most work, then was received first, then has the lowest address |
| Branches.Greatest | src/main.cpp:2609-2614 | the last element of the candidate set |
| Branches.MarkingChangesNothing | src/main.cpp:2641-2642 | marking descendants of failed blocks makes no further branch unusable |
| Branches.OnlyStopFailed | src/main.cpp:2621-2637 | of a branch removed only the stopping block can have failed before |
| Branches.RemovalStep | src/main.cpp:2634-2653 | removing one more branch: only unusable candidates go and each is accounted for, marks and pairs put back are exact, pindexBestInvalid has at least the work of everything found failed |
| BlockLinking.LinkKeeps | src/main.cpp:2960-2978 | linking one block and queueing those that waited for it |
| BlockLinking.ReceiveKeeps | src/main.cpp:2941-2983 | data arriving queues the block or makes it wait |
| BlockLinking.NumberedStep | src/main.cpp:2963-2967 | sequence numbers are handed out without repetition, parents before children |
| BlockLinking.LinkingStep | src/main.cpp:2958-2978 | one turn of the worklist keeps what is linked, who is a candidate and who waits |
| BlockLinking.LinkedIsComplete | src/main.cpp:2941-2986 | nChainTx is nonzero exactly for complete branches and then the sum of nTx; the waiting blocks are exactly those with data on an incomplete branch |
| BlockManager.CBlockManager.constructor | src/main.cpp:138-160 | an empty index is sound |
| BlockManager.CBlockManager.FindStop | src/main.cpp:2618-2654 | the topmost block that stops a branch, none exactly when the branch is usable; the assertion on nChainTx holds |
| BlockManager.CBlockManager.DropBranch | src/main.cpp:2636-2649 | the loop over a branch, in exact terms |
| BlockManager.CBlockManager.RemoveChain | src/main.cpp:2630-2652 | candidates, marks, pairs put back and pindexBestInvalid after a branch was removed |
| BlockManager.CBlockManager.FindMostWorkChain | src/main.cpp:2603-2656 | terminates with the greatest usable candidate, none only when none is left; everything removed or marked is accounted for; a sound index stays sound and nothing is put back |
| BlockManager.CBlockManager.FailedStop | src/main.cpp:2623-2628 | in a sound index only a failed block stops a candidate |
| BlockManager.CBlockManager.LinkedCandidatesAreComplete | src/main.cpp:2621-2621 | a sound index meets the assertion of FindMostWorkChain |
| BlockManager.CBlockManager.UpdateTip | src/main.cpp:2352-2354 | moving the tip to a linked block keeps the index sound |
| BlockManager.CBlockManager.TakeWaiting | src/main.cpp:2971-2977 | moves exactly the blocks that waited, none lost or doubled |
| BlockManager.CBlockManager.LinkOne | src/main.cpp:2960-2978 | one block linked: counts, number, candidate, queue |
| BlockManager.CBlockManager.LinkAll | src/main.cpp:2953-2978 | the worklist terminates and leaves nothing queued |
| BlockManager.CBlockManager.ReceivedBlockTransactions | src/main.cpp:2941-2986 | data for one block: who is linked, who becomes a candidate, in what order, and who waits |
| BlockManager.CBlockManager.AcceptBlockHeader | src/main.cpp:3314-3373 | accepted exactly when known and not failed, or new with a known sound parent; the index afterwards |
| BlockManager.CBlockManager.AcceptData | src/main.cpp:3407-3496 | what becomes of an entry's data and its failure mark |
| BlockManager.CBlockManager.AcceptBlock | src/main.cpp:3375-3496 | for a block arriving at any time: accepted exactly when stated, the index afterwards, and soundness kept |
| BlockManager.CBlockManager.SoundIsComplete | src/main.cpp:2941-2986 | after any such run nChainTx and mapBlocksUnlinked are exact for every block |
| BlockManager.InvalidForGood | src/main.cpp:3417-3423 | a block found invalid is refused whenever it comes again, and so is each that names it as its parent |
| BlockManager.UnclearMayComeAgain | src/main.cpp:3417-3423 | a failure that is not held against the block is forgotten: it is accepted when it comes again and passes |
| LimbValues.ValIsInjective | src/arith_uint256.h:222-223 | equal numbers have equal limbs |
| LimbOps.Assign | src/arith_uint256.h:91-98 | the value assigned |
| LimbOps.Add | src/arith_uint256.h:138-147 | sum modulo 2^BITS, also of an object with itself |
| LimbOps.Increment | src/arith_uint256.h:175-182 | plus one modulo 2^BITS |
| LimbOps.Decrement | src/arith_uint256.h:192-199 | minus one modulo 2^BITS |
| LimbOps.Negate | src/arith_uint256.h:80-87 | two's complement is negation modulo 2^BITS |
| LimbOps.Subtract | src/arith_uint256.h:149-153 | difference modulo 2^BITS |
| LimbOps.CompareTo | src/arith_uint256.cpp:146-155 | the sign of the difference |
| LimbOps.EqualTo | src/arith_uint256.cpp:158-169 | equality with a 64-bit value |
| LimbProducts.FitsIn64 | src/arith_uint256.cpp:104-117 | the widest intermediate sum stays below 2^64 |
| LimbProducts.MultiplyBy | src/arith_uint256.cpp:92-101 | product with a 32-bit factor modulo 2^BITS |
| LimbProducts.AddRow | src/arith_uint256.cpp:108-115 | one row of the schoolbook product |
| LimbProducts.Multiply | src/arith_uint256.cpp:104-117 | product modulo 2^BITS |
| LimbProducts.MultiplyAliased | src/arith_uint256.cpp:104-117 | an object times itself in place comes out zero |
| LimbShifts.ShiftLeft | src/arith_uint256.cpp:58-72 | times a power of two modulo 2^BITS |
| LimbShifts.ShiftRight | src/arith_uint256.cpp:75-89 | the floor of division by a power of two |
| LimbDivision.Bits | src/arith_uint256.cpp:196-208 | the bit length, zero exactly for zero |
| LimbDivision.SetBit | src/arith_uint256.cpp:138-138 | setting a quotient bit below those set adds its weight |
| LimbDivision.DivideBits | src/arith_uint256.cpp:134-142 | the loop keeps quotient times divisor plus remainder, and ends below the divisor |
| LimbDivision.Divide | src/arith_uint256.cpp:120-143 | fails exactly for zero; otherwise the exact quotient |
| CompactBits.DenotedIs | src/arith_uint256.cpp:244-261 | a compact word denotes mantissa * 256^(size - 3), rounded down |
| CompactBits.OverflowIsExact | src/arith_uint256.cpp:244-261 | the overflow flag says exactly that the number does not fit 256 bits, and without it nothing is cut off |
| CompactBits.CompactRoundTrip | src/arith_uint256.cpp:244-285 | encoding rounds down by less than one part in 2^15, keeps the sign of nonzero values, raises no flag, and encodes again to the same word |
| CompactBits.EncodeFits | src/arith_uint256.cpp:280-281 | both assertions of GetCompact hold |
| CompactBits.GetCompact | src/arith_uint256.cpp:264-285 | the limbs' compact word |
| CompactBits.SetCompact | src/arith_uint256.cpp:244-261 | the limbs and both flags for any word |
| Positional.DigitsSuffice | src/base58.cpp:33-34 | a power inequality bounds the digits needed in another base |
| Positional.DigitsOfVal | src/base58.cpp:57-65 | digits without leading zeros are determined by their value |
| Positional.ValOfDigits | src/base58.cpp:57-65 | the digits of a number have that value and no leading zero |
| Base58.BytesFit | src/base58.cpp:91-92 | n bytes fit in n * 138 / 100 + 1 letters |
| Base58.LettersFit | src/base58.cpp:33-34 | n letters fit in n * 733 / 1000 + 1 bytes |
| Base58.DecodeUndoesEncode | src/base58.cpp:83-116 | for every byte string |
| Base58.EncodeUndoesDecode | src/base58.cpp:22-66 | for every string that decodes, up to surrounding spaces |
| Base58.LettersRoundTrip | src/base58.cpp:22-66 | every string over the alphabet decodes and encodes back to itself |
| Base58.CheckUndoes | src/base58.cpp:128-152 | the checksummed form decodes to the bytes, for any hash |
| Base58.CheckAcceptsOnlyEncoded | src/base58.cpp:137-152 | over the alphabet only the encoding of the result is accepted |
| Base58.MultiplyAdd | src/base58.cpp:42-47 | one pass of the carry loop multiplies and adds, with the carry out |
| Base58.FillLetters | src/base58.cpp:91-104 | the buffer holds the number in base 58: the carry is always zero |
| Base58.FillBytes | src/base58.cpp:33-50 | the same for decoding; fails exactly on a letter outside the alphabet |
| Base58.LettersAscend | src/base58.cpp:20 | the alphabet is in character order |
| Base58.AlphabetIs | src/base58.cpp:20 | it has the digits and letters but for 0, I, O and l |
| Base58.EncodingMeans | src/base58.cpp:83-116 | read in base 58 an encoding has the value of the bytes, and as many 1s in front as they have zeros |
| Base58.EncodingIsOrdered | src/base58.cpp:83-116 | of two encodings of one length the one of the larger number is later in character order |
| Base58.SpacesAround | src/base58.cpp:24-54 | the six kinds of white space around an encoding do not matter |
| Base58.EncodeBase58 | src/base58.cpp:83-116 | the loops compute the encoding |
| Base58.DecodeBase58 | src/base58.cpp:22-66 | the loops compute the decoding, spaces and failures included |
| Base58.EncodeBase58Check | src/base58.cpp:128-135 | encodes the bytes with four bytes of their hash |
| Base58.DecodeBase58Check | src/base58.cpp:137-152 | accepts exactly a matching checksum |
| VarInts.ReadUndoesWrite | src/serialize.h:402-432 | reading takes exactly the bytes written, whatever follows |
| VarInts.WriteIsOrdered | src/serialize.h:402-417 | continuation bits on all bytes but the last, and of two forms of one length the larger number is later |
| VarInts.SizeFits | src/serialize.h:389-400 | which numbers fit in k bytes; 5 bytes hold 32 bits and 10 hold 64 |
| VarInts.SizeGrows | src/serialize.h:389-400 | larger numbers are never shorter |
| VarInts.GetSizeOfVarInt | src/serialize.h:389-400 | the loop computes the length of what is written |
| VarInts.WriteVarInt | src/serialize.h:402-417 | the loops write the bytes in order |
| VarInts.ReadVarInt | src/serialize.h:419-432 | the loop reads any stream as the model does |
| Compressor.AmountRoundTrip | src/compressor.cpp:137-180 | decompressing gives back every amount |
| Compressor.CompressedRoundTrip | src/compressor.cpp:137-180 | compressing gives back every compressed amount |
| Compressor.CompressedFits | src/compressor.cpp:137-154 | no overflow of 64 bits up to MaxMoneyOut |
| Compressor.CompressedForm | src/compressor.cpp:137-154 | the compressed form of an amount with given digits and zeros |
| Compressor.CompressedPairs | src/test/compress_tests.cpp:41-46 | the six pairs the tests check |
| Compressor.CompressedScripts | src/compressor.cpp:43-80 | the bytes each kind of script is compressed to |
| Compressor.PlainScript | src/compressor.h:70-80 | any other script is written after its length plus six |
| Compressor.CompressAmount | src/compressor.cpp:137-154 | the loop computes the compressed amount |
| Compressor.DecompressAmount | src/compressor.cpp:156-180 | the loop computes the amount |
| Compressor.ScriptRoundTrip | src/compressor.cpp:43-135 | every script that is compressed comes back |
| Compressor.ReadScriptUndoesWrite | src/compressor.h:69-96 | every script, compressed or not, survives its stream form |
| Compressor.ReadTxOutUndoesWrite | src/compressor.h:100-127 | every output of nonnegative value survives its stream form |
| Compressor.TxOutSizeIs | src/compressor.h:60-67 | the announced size is the number of bytes written |
| CoinsSerial.CalcMaskSize | src/coins.cpp:18-35 | the loops count the mask bytes up to the last nonzero one, and the nonzero ones |
| CoinsSerial.MaskSizeFacts | src/coins.cpp:18-35 | the last byte counted is not zero and all later ones are |
| CoinsSerial.SerializeMask | src/coins.h:213-219 | the loop writes the availability of eight outputs per byte |
| CoinsSerial.UnserializeMask | src/coins.h:242-252 | the loop reads bytes until enough nonzero ones have come |
| CoinsSerial.ReadMaskUndoesWrite | src/coins.h:242-252 | counting nonzero bytes stops exactly at the end of the mask |
| CoinsSerial.ReadOutsUndoesWrite | src/coins.h:253-258 | the available outputs come back in their places, with null outputs behind |
| CoinsSerial.SomethingIsMarked | src/coins.h:206-206 | the assertion of Serialize holds for an unpruned entry |
| CoinsSerial.HeaderFields | src/coins.h:234-241 | flags and mask count come back from the header code |
| CoinsSerial.OneOutputLeft | src/coins.h:200-225 | the bytes of an entry with one output left, by its place |
| CoinsSerial.CoinsRoundTrip | src/coins.h:200-262 | every storable entry comes back, consuming exactly the bytes written |
| CoinsSerial.SizeNeverExceeds | src/coins.h:175-197 | GetSerializeSize never exceeds the bytes written and falls short exactly by the shorter header code |
| CoinsSerial.Serialize | src/coins.h:199-227 | the method writes the modelled bytes |
| CoinsSerial.Unserialize | src/coins.h:229-262 | the method reads any stream as the model does |
| StakeModifier.SectionsGrow | src/kernel.cpp:58-63 | sections never get shorter, from a third of the interval to the whole of it |
| StakeModifier.IntervalIs | src/kernel.cpp:58-73 | the interval is 2,087 seconds, with the sums of its quarters |
| StakeModifier.StopsAre | src/kernel.cpp:181-200 | the interval ends where the tip's minute begins; the first stop is twenty seconds into it, the last at its end |
| StakeModifier.GetStakeModifierSelectionInterval | src/kernel.cpp:66-73 | the sum of the sections |
| StakeModifier.SelectBlockFromCandidates | src/kernel.cpp:78-136 | succeeds exactly when a candidate is left; picks the minimum selection hash up to the stop time, the first of equal ones, or the earliest candidate left |
| StakeModifier.ChosenInTime | src/kernel.cpp:95-104 | the choice is not late unless all that is left is; then it is the earliest |
| StakeModifier.WorkAgainstWork | src/kernel.cpp:106-131 | between work blocks the least hash wins |
| StakeModifier.StakeAgainstStake | src/kernel.cpp:106-131 | between stake blocks the hash without its last 32 bits decides, before the upgrade the earliest |
| StakeModifier.WorkAgainstStake | src/kernel.cpp:118-122 | a work block is chosen over a stake block only if its hash is at most the stake block's divided by 2^32 |
| StakeModifier.StakeHashesAreIgnored | src/kernel.cpp:108-112 | before the upgrade the hashes of stake blocks matter to nothing but the order |
| StakeModifier.ChosenStops | src/kernel.cpp:95-96 | breaking off past the stop time misses no eligible candidate |
| StakeModifier.GetLastStakeModifier | src/kernel.cpp:44-55 | the nearest block that generated a modifier; none exactly when not even genesis did |
| StakeModifier.Sort | src/kernel.cpp:191-192 | the same candidates in order |
| StakeModifier.Collect | src/kernel.cpp:185-188 | the blocks from the previous one down to the first before the interval |
| StakeModifier.OneIsLeft | src/kernel.cpp:198-204 | with fewer picks than candidates one is left, so no round fails |
| StakeModifier.PicksDiffer | src/kernel.cpp:210-211 | no block is picked twice |
| StakeModifier.SelectBlocks | src/kernel.cpp:194-214 | every round succeeds and the modifier consists of the picks' entropy bits |
| StakeModifier.BitsOfMade | src/kernel.cpp:206-207 | bit r is the entropy bit of the block picked in round r, within 64 bits |
| StakeModifier.GenerateModifier | src/kernel.cpp:178-241 | collecting, sorting and picking, for any chain in the index |
| StakeModifier.ComputeNextStakeModifier | src/kernel.cpp:151-241 | the result in every case: genesis, first block, not yet due, due, and failure exactly without a last modifier |
| StakeModifier.OncePerInterval | src/kernel.cpp:175-176 | a block generates a modifier exactly when its parent lies in a later minute than every generation before |

## Left out

- The best-block hash of a view and its forwarding, `SetBackend`, `GetStats` and `GetPriority`.
- Script evaluation, signature, sigop and outpoint-blacklist checks of `ConnectBlock`: one opaque predicate on transactions. Of `CheckBlock`, the sizes, the Merkle root, the timestamp and the payees; of the stake, the kernel.
- ConnectBlock.ConnectTx: its script, sigop and blacklist checks are the opaque predicate `other`.
- ConnectBlock.ConnectTxs: the same predicate stands for these checks of each transaction.
- ConnectBlock.Chainstate.ConnectBlock: the same predicate; `CheckBlock` has passed, and the index writes and zerocoin are left out.
- Runs begin with an empty `mapStakeSpent` at genesis: a restart, which empties the map, is not a step of a run, and neither is `CVerifyDB` (src/main.cpp:3969), which calls `DisconnectBlock` on a view it throws away and so erases the inputs of active blocks from the map, nor its reconnection at check level 4.
- Block and undo files, the databases, `fJustCheck` and `fTxIndex`: undo data are passed directly and the coin database is a map.
- Zerocoin spends, whose inputs have no coins entry.
- UndoInverse.UndoThenConnect: for coins and undo data without zerocoin mints, of which MintIsOverwritten shows why, without outputs that can never be spent, which are not stored, and for versions that are not negative, which the comparison ignores.
- StakeModifier.OncePerInterval: for times that do not go back along the chain.
- ChainWitnesses.CoinStakeReorgUnclean: its two transactions lie at different heights, as in two blocks disconnected one after the other; within one accepted block BlockRules.AcceptedBlockIsClean excludes it.
- ChainRuns.SupplyOfRun: for nodes that are synced with superblocks switched off; otherwise `IsBlockValueValid` lets budget blocks exceed the limit, which ConnectBlock.Chainstate.ConnectBlock states.
- Signed 64-bit overflow of amounts, supply and timestamps, and 32-bit overflow of heights, ids, counters, `nStep` of a locator and the header code of a coins entry.
- ChainWitnesses.ReuseRun: for maturities below 500, so that the second coinbase still has a reward on every net, below the reorganization depth, and below half of the proof-of-work period.
- `Select_`, `GetChance` and the other floating-point or random functions; `nLastTry` of an address is not written to disk, as in the source.
- The bytes of the address file and the XOR of its bucket count: the file is its fields and lists, each count being the length of its list. Service bits are a set.
- `CAddrMan::Clear` on a used manager does not empty `mapInfo` and `mapAddr`: AddrDisk.Unserialize asks for both to be empty.
- `fQuit` of the check queue stays false, there is one master, and checks are pure; thread interruption is not modelled.
- CheckQueue.WaitReturns: the library promises no bound on spurious wake-ups; without one a Wait could be disturbed for ever, so schedules with finitely many during a Wait are considered.
- `setBlockIndexCandidates` is a set with the comparator's maximum, and `mapBlocksUnlinked` a set of pairs, where the source has an ordered set and a multimap; a pruned node's duplicate pairs are not modelled.
- BlockTree.AddToBlockIndex: the entropy bit, the stake modifier, chain trust and `pnext` of the new entry are left out.
- BlockManager.CBlockManager.UpdateTip: its effect on the chain; notifications and mempool counters are left out.
- BlockManager.CBlockManager.AcceptBlockHeader: outcomes of the header checks are given; reconsidering a failed parent that matches a checkpoint is left out.
- BlockManager.CBlockManager.AcceptData: outcomes of the block checks are given.
- BlockManager.CBlockManager.AcceptBlock: outcomes of the checks on work, header, block and stake are given with the block; reconsidering a failed parent that matches a checkpoint is left out, and a hash is taken to determine the header.
- `ActivateBestChainStep` and `PruneBlockIndexCandidates`, `InvalidateBlock` and `ReconsiderBlock`; only UpdateTip's effect on the chain is modelled.
- `CChain::Tip` with the proof-of-stake flag, chain trust, `pnext`, and the proof-of-stake fields of an index entry.
- `getdouble`, hexadecimal text, bitwise operators and the 512-bit conversions of the big integers.
- Script compression is modelled on values, not in a caller's buffer; a 65-byte public key is compressed by an opaque curve for which decompression inverts compression on valid keys.
- CoinsSerial.CoinsRoundTrip: for entries with nonnegative version, height and values, as the unsigned variable-length integers ask, and with `nRounds` at its initial value, which is not written.
- Serialization versions and network types.
- `GetKernelStakeModifier` and the stake kernel; `GetBlockTime` and hashes are fields of a block.
