# Verified models of a Bitcoin-derived node

VeriBlock's fork of Bitcoin Core keeps its state in a handful of intricate data structures and
protocols. This project models fourteen of them in Dafny and proves what they are meant to guarantee.

The coin caches, the address manager, the cuckoo cache and the rolling bloom filter are modelled as
state machines whose invariants hold after every run. The check queue is a protocol of threads under
one mutex, with safety and progress for every interleaving. The block assembler is an in-place loop
over a mempool, proved for every order the fee comparison may give. Partial Merkle trees, compact
blocks, block filters, Base58, Bech32, the address file and the compact target have round trips and
exact acceptance conditions. Skip lists, locators and 256-bit arithmetic are fast forms proved equal
to simple ones.

Code that updates fields in place is a class with methods; each method is tied to a function on
values, and the laws are proved of that function. Hash functions, clocks and random draws are
parameters or arbitrary choices, so the theorems hold for all of them. `Same(x, y, n)` in the
arithmetic modules means equal modulo 2 to the power 32n.

| file | models |
|---|---|
| Coins | the cache stack and database of unspent outputs |
| CheckQueue | the parallel script-check queue |
| Miner, Scores | package selection of the block assembler and its score order |
| AddrMan, AddrManFile, AddrManLoss | the address manager, its file, and files that lose entries |
| Merkle, PartialMerkleTree | partial Merkle trees |
| Bloom | the rolling bloom filter |
| SkipHeights, Chain | the block tree, its skip list, active chain and locators |
| Cuckoo | the signature cache |
| Arith, ArithUint | 256-bit arithmetic, compact targets, block proof |
| BlockFilter | Golomb-coded sets |
| Base58 | Base58 |
| Bech32, Bech32Word, Bech32Field | Bech32: the code, its 32-bit loop, and its polynomials |
| CompactBlock | compact block relay |
| Numbers, Common | shared arithmetic and definitions |

`dafny verify dfyconfig.toml` checks the whole project.

## Model

| member | source | states |
|---|---|---|
| Coins.RunRefines | src/coins.cpp:46-223 | a stack of caches over a database behaves as a stack of plain maps: for every sequence of reads, additions, spends, flushes and uncachings that the plain maps allow, the caches never hit an internal error, answer each operation as the plain maps do, and end in a valid state that represents the plain maps' end state |
| Coins.StepRefines | src/coins.cpp:46-223 | the same for one operation at any level: valid state, represented views and answer |
| Coins.AddCoinUpdates | src/coins.cpp:72-91 | adding a coin succeeds and keeps every DIRTY/FRESH mark truthful if and only if an overwrite was announced, the output is unspendable, or the coin was not already visible; it then changes only the top view of that outpoint, and the error is raised exactly for a dishonest addition over a cached entry |
| Coins.SpendCoinDeletes | src/coins.cpp:104-118 | a spend hides the coin from the top view only, hands out exactly the coin that was visible, keeps every mark truthful, and reports success if and only if the coin was visible or some entry, even a spent one, was cached |
| Coins.SpentTwice | src/coins.cpp:104-118 | for every outpoint and coin, spending it twice from a fresh cache over the database reports success twice, the second time with a spent coin |
| Coins.GetCoinReads | src/coins.cpp:46-70 | a read at any level returns the coin of that level's view and fills caches on the way down without changing any view |
| Coins.FlushRefines | src/coins.cpp:151-214 | flushing a cache never fails in a valid stack; afterwards the parent shows exactly what the flushed cache showed, every other view is unchanged and the cache is empty |
| Coins.UncacheKeeps | src/coins.cpp:216-223 | dropping an unmodified entry changes no view and no other outpoint |
| Coins.CoinsViews.BatchWrite | src/coins.cpp:151-207 | the loop over the child's entries gives the merged parent cache, and fails if and only if some FRESH child entry meets an unspent parent entry |
| Coins.CoinsViews.BatchWriteDb | src/txdb.cpp:109-133 | the database loop writes the unspent and erases the spent dirty entries, and nothing else |
| Coins.CoinsViews.Spend | src/coins.cpp:104-118 | the in-place spend gives the state, coin and flag of the specification |
| Coins.CoinsViews.Add | src/coins.cpp:72-91 | the in-place addition succeeds and changes state exactly as the specification |
| CheckQueue.EveryInterleaving | src/checkqueue.h:66-124 | after every interleaving of any number of workers with the master: the outstanding count is the queued plus the held checks, every added check is queued, held or reported exactly as often as it was added, every finished round returned true if and only if all its checks passed, and a sleeping master always has someone still holding work |
| CheckQueue.NeverStuck | src/checkqueue.h:66-124 | in every reachable state with the master inside the loop some thread can make progress, so no wake-up is lost |
| CheckQueue.WaitReturns | src/checkqueue.h:66-158 | the master's wait takes a bounded number of progress steps; once they stop it has returned exactly once, with the conjunction of the round's checks |
| CheckQueue.ProgressDecreases | src/checkqueue.h:66-124 | every progress step lowers one measure of queued work, held work and sleeping threads |
| CheckQueue.RunKeeps | src/checkqueue.h:66-124 | the protocol invariant holds along every run |
| CheckQueue.LockKeeps | src/checkqueue.h:74-118 | a thread that takes the mutex, reports its last batch, and then waits, returns or takes a new batch keeps the protocol invariant |
| CheckQueue.TakeSplits | src/checkqueue.h:102-117 | a taken batch is non-empty and, with what stays queued, holds every check exactly as often as before |
| CheckQueue.BatchCountIsShare | src/checkqueue.h:102-107 | the batch size, stated by multiplication, is one share of the queue divided among all threads, between 1 and the maximum |
| CheckQueue.Queue.DecideOrTake | src/checkqueue.h:87-117 | the locked section, with the source's division, gives the shared state and the outcome of the protocol step |
| CheckQueue.Queue.Execute | src/checkqueue.h:119-121 | the unlocked loop returns true if and only if it started true and every check of the batch passes |
| CheckQueue.Queue.AddChecks | src/checkqueue.h:146-158 | adding checks extends queue and count, wakes one worker for one check and all for more |
| Miner.BlockAssembler.AddPackageTxs | src/miner.cpp:316-443 | for every mempool, presented in whatever order, the selection ends, the block stays below its weight and signature-operation limits, lists no transaction twice, puts every transaction after all its ancestors, adds only includable transactions and keeps its counters equal to the block's totals; it stops early only at a candidate paying too little or at a nearly full block, and otherwise every transaction offered is in the block or was refused because its package held one that may not go in or its recorded totals did not fit; when the mempool is in score order, nothing left scores higher than the candidate it stopped at |
| Miner.BlockAssembler.Consider | src/miner.cpp:371-441 | a candidate is rejected for its fee, found too big, found not final, or added, each if and only if the corresponding test says so; an added one brings exactly its ancestors not yet in the block, a rejected one changes nothing |
| Miner.BlockAssembler.Choose | src/miner.cpp:344-370 | with the mempool in score order, no entry of the table and nothing still to come in the mempool scores higher than the candidate chosen |
| Miner.BlockAssembler.Step | src/miner.cpp:344-442 | one round: the best candidate, with what it needs covered by its recorded totals, is added, refused or ends the selection, each exactly under its condition, and leaves the list or the table |
| Scores.NotHigher | src/txmempool.h:281-319 | the score comparison, by the lower of own and package fee rate with ties by hash, is a strict weak order for positive sizes, so sorting by it is meaningful |
| Miner.StoppedRightly | src/miner.cpp:384-387 | when the best candidate pays too little, so does, measured by the rate, the package of every other transaction that by itself pays the minimum rate |
| Miner.LeftBehind | src/miner.cpp:384-387 | a package that pays the minimum rate can be left behind by such a stop if and only if its transaction by itself does not pay that rate |
| Miner.PayingPackageLeft | src/miner.cpp:384-387 | a mempool of four transactions in score order whose best candidate pays too little although another package pays the minimum fee |
| Miner.BlockAssembler.UpdatePackagesForAdded | src/miner.cpp:252-277 | after transactions enter the block the table of modified packages is right for every transaction outside it: present when an ancestor went in, never too small |
| Miner.InclusionKeeps | src/miner.cpp:252-277 | recording one more included ancestor keeps a descendant's entry right |
| Miner.ReinsertedExcess | src/miner.cpp:252-277 | an entry erased as failed and later recreated exceeds the true remaining size and signature operations by exactly those of the ancestors already in the block |
| Miner.ExcessReturns | src/miner.cpp:389-396 | three transactions in a row with the first in the block: the table is right, stays right when the last one is erased as failed, and the entry recreated with the second exceeds the truth by the first |
| Miner.FeeDrift | src/miner.h:115-127 | recording an included ancestor keeps an exact modified fee exact if and only if that ancestor's fee was not adjusted, since the base fee is subtracted from a modified total |
| Miner.FeeDrifts | src/miner.h:115-127 | three transactions in a row, the middle one with any modified fee: after the first two are included the last one's recorded fee is off by exactly the modification |
| Miner.RecordedCovers | src/miner.cpp:252-277 | the recorded totals of a transaction are never below what it still needs |
| Miner.PackageFits | src/miner.cpp:208-216 | a package whose recorded totals pass the test fits in truth, and the block stays closed under ancestors |
| Miner.AncestorSortsFirst | src/miner.cpp:294-303 | an ancestor has a smaller ancestor count, so sorting by count puts it first |
| Miner.BlockOkMeans | src/miner.cpp:233-250 | in a listed block every transaction is new and all its ancestors come before it |
| Miner.BlockAssembler.SortForBlock | src/miner.cpp:294-303 | the sorted package holds exactly the package, each once, in an order that respects ancestor count |
| Miner.BlockAssembler.AddToBlock | src/miner.cpp:233-250 | one transaction is appended and every counter follows |
| Miner.BlockAssembler.TestPackageTransactions | src/miner.cpp:222-231 | true if and only if every transaction of the package is final at the block's height and time and carries no witness unless witnesses are allowed |
| AddrMan.EveryRun | src/addrman.cpp:80-618 | after any sequence of operations from an empty manager: the consistency check of the source holds in full (index and shuffle are inverse, reference counts equal the new-table slots, every entry sits in its own slot, the counts add up), no assertion of the source fails, and every pending collision that is still known points at an occupied tried slot |
| AddrMan.EveryListRuns | src/addrman.cpp:80-618 | every list of operations each of which is acceptable at its turn is a run of the empty manager: consistency need not be assumed, and no run is ever stuck |
| AddrMan.BucketsAre | src/addrman.cpp:11-30 | buckets and positions are the remainders of the hashes by the table sizes |
| AddrMan.StepKeeps | src/addrman.cpp:80-618 | each operation keeps consistency and the collision property and renumbers nothing |
| AddrMan.MakeTriedKeeps | src/addrman.cpp:141-187 | moving an entry to the tried table leaves it in its slot, keeps consistency and the pending collisions, and changes no other tried slot |
| AddrMan.EvictedGoesHome | src/addrman.cpp:159-181 | the entry pushed out of the tried table is back in the new table, in the slot its source hashes it to, referenced once |
| AddrMan.FileMeans | src/addrman.cpp:304-325 | adding to a new slot: an empty slot is taken; an occupied one is taken over if and only if its holder is terrible or the holder has other references and the newcomer none; otherwise nothing moves and an unreferenced newcomer is deleted |
| AddrMan.AddKeeps | src/addrman.cpp:255-326 | adding any address from any source keeps consistency and the pending collisions |
| AddrMan.AlwaysFound | src/addrman.cpp:218-233 | an entry outside the tried table is always found by the bucket search, so the error return for it is never taken |
| AddrMan.GoodMeans | src/addrman.cpp:189-253 | marking an address good moves it to tried, leaves it when already there, or queues it, while the queue has room, when the slot is taken and eviction is to be tested |
| AddrMan.ResolveKeeps | src/addrman.cpp:534-591 | resolving pending collisions in any order keeps consistency and only removes pending entries |
| AddrMan.ClearLeavesStale | src/addrman.h:456-478 | clearing keeps consistency, but keeps the collision property if and only if nothing was pending; with id 0 pending, the next address added inherits the collision although its tried slot is empty |
| AddrMan.CollisionRun | src/addrman.cpp:189-253 | any two addresses that share a tried slot but no new slot reach a state with a pending collision in four operations |
| AddrMan.StaleIsReachable | src/addrman.h:456-478 | a concrete configuration and run after which clearing leaves a stale collision |
| AddrMan.SelectReadsTried | src/addrman.cpp:593-618 | a known pending entry always designates an occupied tried slot holding a tried entry |
| AddrMan.Manager.GetAddr | src/addrman.cpp:475-494 | the entries handed out are exactly the good ones among those drawn, in order and without repetition; drawing stops at the cap or when all were drawn; the shuffle keeps consistency |
| AddrMan.Manager.ResolveCollisions | src/addrman.cpp:534-591 | the loop visits each pending id once in increasing order and gives the specified state |
| AddrMan.Manager.FindNewBucket | src/addrman.cpp:218-233 | the bucket search starting anywhere finds an entry if and only if some bucket holds it |
| AddrMan.Manager.LeaveNew | src/addrman.cpp:143-150 | the loop over all buckets removes every reference of the entry and no other |
| AddrManFile.RoundTrip | src/addrman.h:301-454 | saving any consistent manager and loading the file, into a manager in any state, succeeds and gives the same entries, slots and kept statistics under the file's numbering, again consistent |
| AddrManFile.LoadConsistent | src/addrman.h:350-454 | loading any file with no address twice and success times that fit the tables gives a consistent manager or a refusal, whatever its references say, also when version or bucket count make the references unusable |
| AddrManFile.LoadConsistentIff | src/addrman.h:350-454 | when no entry is lost on loading, the condition is one on the file alone: no address twice and admissible success times |
| AddrManLoss.LoadExactly | src/addrman.h:350-454 | for every file, whatever is lost: the loaded manager is consistent if and only if no entry kept shares its address with another entry that came in, kept or not, and those kept have admissible success times |
| AddrManLoss.LoadKeepsEntered | src/addrman.h:350-454 | only what came in is kept, unchanged and in the same table |
| AddrManFile.SavedFits | src/addrman.h:301-348 | a consistent manager never has more entries than its tables hold, so its own file passes the size test |
| AddrManFile.LoadKeepsPending | src/addrman.h:350-454 | loading keeps the pending collisions of the manager it replaces |
| AddrManFile.LoadEmpty | src/addrman.h:350-454 | loading an empty file is clearing, and keeps the collision property if and only if nothing was pending |
| AddrManFile.Serialize | src/addrman.h:301-348 | the writing loops give the specified file: entries numbered in order, counts right, every table slot listed bucket by bucket |
| AddrManFile.Unserialize | src/addrman.h:350-454 | the reading loops give the specified manager or refuse exactly when it does |
| Merkle.Soundness | src/merkleblock.cpp:78-163 | for every claimed partial tree, if the extracted root is the true root then every extracted match is a transaction of the block at its stated position, or two different pairs with the same hash have been exhibited, one hashed by the proof and one by the tree |
| Merkle.Completeness | src/merkleblock.cpp:60-163 | a partial tree built for any block with distinct transactions and any matches, packed to bytes and read back, extracts the true root and exactly the matches, in order and with positions, or two pairs of the tree itself clash |
| Merkle.EncodedSize | src/merkleblock.h:22-49 | exact sizes of every encoding: at most one hash per transaction and at most one plus matches times height; the documented bit bound holds if and only if no node on the right edge with a single child is an ancestor of a match |
| Merkle.DocumentedBoundFails | src/merkleblock.h:22-49 | with three transactions and the last one matched the documented bit bound is exceeded |
| Merkle.ExtractBuild | src/merkleblock.cpp:60-114 | extraction inverts building at every node, using up exactly the node's bits and hashes |
| Merkle.NodesDiffer | src/merkleblock.cpp:98-113 | with distinct transactions two nodes of a level have different hashes unless pairs clash, so the check for identical children never rejects an honest tree |
| Merkle.UnpackPack | src/merkleblock.h:87-105 | packing bits to bytes and back gives the bits followed only by the padding |
| Merkle.HeightIsRoot | src/merkleblock.cpp:121-124 | the height is the least at which the tree has a single node |
| PartialMerkle.PartialMerkleTree.constructor | src/merkleblock.cpp:116-128 | the object built in place holds the specified encoding |
| PartialMerkle.PartialMerkleTree.TraverseAndBuild | src/merkleblock.cpp:60-76 | the recursion appends exactly the node's bits and hashes |
| PartialMerkle.PartialMerkleTree.TraverseAndExtract | src/merkleblock.cpp:78-114 | the recursion on fields and cursors returns what the specified extraction returns and marks failure alike |
| PartialMerkle.PartialMerkleTree.ExtractMatches | src/merkleblock.cpp:132-163 | the whole check with its size tests: matches, positions, and the root unless the object was already marked bad; the mark afterwards is the old one or that of this check |
| PartialMerkle.PartialMerkleTree.HasMatch | src/merkleblock.cpp:61-66 | the loop finds whether some transaction below a node matches |
| Bloom.ExactWindow | src/bloom.cpp:246-295 | after any insertions a key is reported if and only if each of its cells was last marked within the last three generations |
| Bloom.RecentFound | src/bloom.cpp:206-295 | every key among the last two full generations and the current one, hence among the last n promised at construction, is reported |
| Bloom.RunTags | src/bloom.cpp:246-275 | after any insertions each cell carries the tag of its last marking, or none once that generation has been wiped |
| Bloom.RunClock | src/bloom.cpp:246-264 | generation and entry count as functions of the number of insertions |
| Bloom.TagWiped | src/bloom.cpp:254-262 | the masked words lose the wiped generation's tags at all 64 positions and nothing else |
| Bloom.TagWritten | src/bloom.cpp:266-274 | writing the two bit planes sets one position's tag and no other |
| Bloom.RollingBloomFilter.Insert | src/bloom.cpp:246-275 | the in-place insertion represents the history with the key appended |
| Bloom.RollingBloomFilter.Contains | src/bloom.cpp:283-295 | the search over packed words answers exactly the window property |
| Bloom.RollingBloomFilter.Reset | src/bloom.cpp:303-309 | resetting represents the empty history |
| Chain.GetAncestor | src/chain.cpp:84-109 | the walk over skip and parent links returns the block at that height on the path of parents, or none, in the number of steps that the skip heights determine, at most 110 from any of the first 2^18 heights |
| SkipHeights.StepsBound | src/chain.cpp:74-109 | the number of steps is bounded by a function of the highest bit in which the two heights differ |
| SkipHeights.MaxStepsBound | src/chain.cpp:74-109 | that bound is at most a quarter of d^2 + 10d + 20 |
| SkipHeights.StepsFromComment | src/chain.cpp:74-109 | from any height below 2^18 to any target the walk takes at most 110 steps, the figure the source takes from a simulation |
| SkipHeights.StepsAttained | src/chain.cpp:74-109 | 110 is attained, from height 2^18 - 8 to height 2 |
| SkipHeights.InvertLowestOneIsAnd | src/chain.cpp:71-71 | the bit trick clears the lowest set bit |
| SkipHeights.SkipHeightBelow | src/chain.cpp:74-82 | the skip height is below the height |
| Chain.WalkStep | src/chain.cpp:92-107 | both links taken by the walk keep the ancestor sought |
| Chain.AddKeeps | src/chain.cpp:116-120 | a block linked with the computed skip keeps the whole tree well linked |
| Chain.LastCommonAncestor | src/chain.cpp:154-171 | returns the highest common ancestor, or none when there is none |
| Chain.HighestCommonUnique | src/chain.cpp:154-171 | the highest common ancestor is unique |
| Chain.ActiveChain.FindFork | src/chain.cpp:51-60 | returns the highest common ancestor of the block and the tip, the same as the general search |
| Chain.ActiveChain.SetTip | src/chain.cpp:11-21 | rewriting the chain from the new tip downwards gives exactly the path to it, also when the loop stops early at a block already in place |
| Chain.ActiveChain.GetLocator | src/chain.cpp:23-49 | lists the ancestors at the specified heights, whether read from the active chain or by walking |
| Chain.LocatorShape | src/chain.cpp:23-49 | a locator starts at the block, ends at genesis, descends strictly along ancestors and has at most 11 plus the rounded-up binary logarithm of the height entries |
| Chain.ActiveChain.ContainsMeans | src/chain.h:420-423 | a block is in the chain if and only if it is an ancestor of the tip |
| Cuckoo.EveryRun | src/cuckoocache.h:287-478 | every run of inserts and look-ups keeps the invariant: each live element sits in one of its eight places and in no other slot, epochs are bounded |
| Cuckoo.InsertLaw | src/cuckoocache.h:391-439 | after an insert an element is live with a given epoch if and only if it is the inserted one in the current epoch, or survived ageing with that epoch, and is not the single element the displacement finally dropped |
| Cuckoo.LiveFound | src/cuckoocache.h:441-478 | a live element is found and occupies one slot only |
| Cuckoo.DisplaceLive | src/cuckoocache.h:415-438 | the displacement loop conserves live elements with their epochs: what is in the table plus what is carried out equals what was there plus the inserted one |
| Cuckoo.EpochLive | src/cuckoocache.h:287-319 | ageing forgets the old epoch, makes the current one old and starts an empty one; otherwise nothing changes |
| Cuckoo.InsertBounded | src/cuckoocache.h:287-319 | the live entries of the current epoch plus the insertions before the next scan stay within the epoch size and a sixteenth of it |
| Cuckoo.EraseKeeps | src/cuckoocache.h:468-478 | erasing on look-up only marks: every element is still found afterwards |
| Cuckoo.FirstDisplaced | src/cuckoocache.h:415-429 | with all eight places taken the first displacement uses the second place; that is the first place, as the comment says, if and only if the two are one slot |
| Cuckoo.SecondDisplaced | src/cuckoocache.h:415-429 | a cache reached by two insertions in which the third displaces what sits in its second place, not its first |
| Cuckoo.EpochSizeExact | src/cuckoocache.h:338-351 | for every 32-bit size the computed epoch is 45 percent of the size if and only if the size is at most 95443717 |
| Cuckoo.EpochSizeWraps | src/cuckoocache.h:338-351 | one slot more and the epoch is a single insertion instead of 42949673 |
| Cuckoo.Cache.constructor | src/cuckoocache.h:338-351 | size at least two, an epoch of 45 percent of it if and only if the size is at most 95443717 and the 32-bit value otherwise, and an empty cache |
| Cuckoo.Cache.Insert | src/cuckoocache.h:391-439 | the in-place insert keeps validity and gives the specified table and dropped element |
| Cuckoo.Cache.Contains | src/cuckoocache.h:468-478 | finds if and only if the specification does and marks the slot when asked to erase |
| ArithUint.GetBlockProof | src/chain.cpp:122-135 | the work of a block is 2^256 / (target + 1), and 0 for a negative, zero or overflowing target, although computed without the 257-bit number |
| ArithUint.SetCompact | src/arith_uint256.cpp:203-221 | decodes the compact form to its value, with the overflow flag if and only if the value does not fit in 256 bits, and the negative flag as signed and non-zero |
| ArithUint.GetCompact | src/arith_uint256.cpp:223-244 | the encoded number is never above the original and falls short of it by less than one part in 32768, the mantissa leaves the sign bit clear, and the sign is set exactly for a negative non-zero mantissa |
| ArithUint.BaseUint.Div | src/arith_uint256.cpp:82-106 | shift-and-subtract division gives the quotient, and fails if and only if the divisor is zero |
| ArithUint.BaseUint.Mul | src/arith_uint256.cpp:66-80 | the word-by-word product is the product of the values modulo 2^width |
| ArithUint.BaseUint.ShiftLeftBy | src/arith_uint256.cpp:20-35 | the word loop gives the specified shift for every amount |
| ArithUint.BaseUint.ShiftRightBy | src/arith_uint256.cpp:37-52 | the word loop gives the specified shift for every amount |
| Arith.ShiftLeftValue | src/arith_uint256.cpp:20-35 | shifting left multiplies by the power of two modulo 2^width |
| Arith.ShiftRightValue | src/arith_uint256.cpp:37-52 | shifting right divides by the power of two |
| ArithUint.BaseUint.CountBits | src/arith_uint256.cpp:170-183 | the number of significant bits of the value |
| ArithUint.BaseUint.CompareTo | src/arith_uint256.cpp:108-118 | compares the values |
| ArithUint.BaseUint.Add | src/arith_uint256.h:132-142 | the carry loop adds the values modulo 2^width |
| ArithUint.BaseUint.Sub | src/arith_uint256.h:144-148 | adding the negation subtracts the values modulo 2^width |
| BlockFilter.MatchInternal | src/blockfilter.cpp:164-194 | on any data that decode, with sums modulo 2^64, the merge answers true if and only if some query equals a value that no larger value precedes; when the values ascend that is the intersection |
| BlockFilter.RiceAscends | src/blockfilter.cpp:164-194 | the decoded values ascend if and only if no sum of differences reaches 2^64 |
| BlockFilter.MissedMember | src/blockfilter.cpp:164-194 | a member of a list that does not ascend is found if and only if it occurs before anything larger |
| BlockFilter.SetRoundTrip | src/blockfilter.cpp:111-162 | decoding what was encoded gives back the sorted hashes and leaves the rest of the stream, for every prefix code |
| BlockFilter.RiceRoundTrip | src/blockfilter.cpp:26-56 | Golomb-Rice coding of any 64-bit number followed by anything decodes to it |
| BlockFilter.RiceParts | src/blockfilter.cpp:26-41 | the code of a number is its quotient by 2^P in unary and its remainder in P bits |
| BlockFilter.GCSFilter.constructor | src/blockfilter.cpp:134-162 | the filter built in place holds the encoding of its elements' hashes |
| BlockFilter.GCSFilter.Match | src/blockfilter.cpp:196-200 | matches if and only if some element's hash equals the queried one's; in particular every element matches |
| BlockFilter.GCSFilter.MatchAny | src/blockfilter.cpp:202-206 | matches if and only if some queried hash equals some element's hash |
| BlockFilter.GCSFilter.Accepts | src/blockfilter.cpp:111-132 | the decoding constructor accepts if and only if n values can be read and less than a byte is left |
| BlockFilter.MapIntoRange | src/blockfilter.cpp:61-86 | the four 32-bit products give the upper half of the 128-bit product |
| Base58.DecodeEncode | src/base58.cpp:38-125 | decoding an encoding returns the bytes, or nothing exactly when a non-empty input is longer than the limit |
| Base58.EncodeDecode | src/base58.cpp:38-125 | encoding a decoded string returns it without its surrounding white space |
| Base58.EncodeBase58 | src/base58.cpp:87-125 | the digit loop in a buffer of 138/100 of the input size never overflows it and gives leading ones followed by the base 58 digits |
| Base58.DecodeBase58 | src/base58.cpp:38-85 | the digit loop in a buffer of 733/1000 of the input size never overflows it and gives the specified bytes or refusal, for every string and limit |
| Base58.EncodeFits | src/base58.cpp:97-98 | the encoder's buffer is large enough for every input |
| Base58.DecodeFits | src/base58.cpp:52-53 | the decoder's buffer is large enough for every input |
| Bech32.DecodeEncode | src/bech32.cpp:143-190 | decoding an encoding returns the prefix and values if and only if the prefix is non-empty and printable and the string is no longer than 90 characters |
| Bech32.EncodeDecode | src/bech32.cpp:143-190 | encoding a decoded string returns it in lower case |
| Bech32.BurstRejected | src/bech32.cpp:33-121 | changing any one to six consecutive symbols of a valid sequence makes it invalid, wherever they are and however long it is |
| Bech32.ChecksumUnique | src/bech32.cpp:114-137 | exactly one choice of six symbols completes a sequence |
| Bech32.ChecksumVerifies | src/bech32.cpp:114-137 | the created checksum verifies |
| Bech32Field.PolyModIsRemainder | src/bech32.cpp:33-91 | the checksum state of a list is the remainder of the polynomial 1, v0, v1, ... over GF(32) on division by the generator: a quotient exists, and no other remainder of degree below six fits |
| Bech32Field.MixScales | src/bech32.cpp:74-88 | mixing in the constants selected by the bits of the top coefficient adds its GF(32) multiple of k(x) |
| Bech32Field.Doubles | src/bech32.cpp:84-88 | the five constants are k(x) and its successive doubles in GF(32) |
| Bech32Field.FiveTimesTwentySix | src/bech32.cpp:51-53 | the product worked out in the source comment, {5} * {26} = {9} |
| Bech32Word.ComputePolyMod | src/bech32.cpp:33-91 | the loop on 32-bit words with the source's shifts, masks and constants computes the packed coefficients of that remainder, for every list |
| Bech32Word.VerifyChecksum | src/bech32.cpp:114-121 | the word equals 1 if and only if the list verifies |
| Bech32Word.ComputeChecksum | src/bech32.cpp:124-137 | the six groups cut from the word are the checksum |
| CompactBlock.Rebuild | src/blockencodings.cpp:53-211 | for a message that describes a block and short ids that separate the candidates from the block's transactions, initialising from any mempool and then filling with the missing transactions rebuilds exactly the block |
| CompactBlock.InitSound | src/blockencodings.cpp:53-176 | after initialising, every prefilled transaction is in its place and every transaction found by short id has the id announced for its place and comes from the candidates; for every message of at most 65536 transactions |
| CompactBlock.PositionsExact | src/blockencodings.cpp:85-103 | the id map gives every short id its true position if and only if all positions fit in 16 bits |
| CompactBlock.Misplaced | src/blockencodings.cpp:85-130 | with more than 65536 short ids a mempool transaction lands at position 0 instead of 65536 |
| CompactBlock.CompactDescribes | src/blockencodings.cpp:21-33 | the message built for a block describes it |
| CompactBlock.CompactAccepted | src/blockencodings.cpp:53-107 | its receiver accepts it if and only if the short ids are distinct |
| CompactBlock.FillCount | src/blockencodings.cpp:190-211 | filling succeeds if and only if exactly as many transactions are supplied as are missing |
| CompactBlock.RequestRoundTrip | src/blockencodings.h:37-67 | differential indexes decode to the ascending indexes they encode |
| CompactBlock.RequestAccepted | src/blockencodings.h:37-67 | every accepted request is strictly increasing, within 16 bits and encodes back to what was read |
| CompactBlock.PartiallyDownloadedBlock.InitData | src/blockencodings.cpp:53-176 | the loops give the specified status and slots |
| CompactBlock.PartiallyDownloadedBlock.BuildIds | src/blockencodings.cpp:85-103 | the walk over empty slots gives the specified id map, and its running offset never exceeds the number of prefilled transactions |
| CompactBlock.PartiallyDownloadedBlock.FillBlock | src/blockencodings.cpp:190-236 | completes, fails the block check, or finds the number of transactions wrong, each exactly when the specification does; afterwards the object is empty, or, after too few transactions, has lost the slots it had used |

## Findings

Places where the code does not have a property that its comments or its other code suggest. Each has
a lemma with a failing input and a lemma with the exact condition.

- Clearing the address manager leaves the pending collisions behind (`AddrMan.ClearLeavesStale`). The
  state is reachable from an empty manager (`AddrMan.CollisionRun`, `AddrMan.StaleIsReachable`), and
  loading an address file starts by clearing (`AddrManFile.LoadKeepsPending`, `AddrManFile.LoadEmpty`).
  The property survives if and only if nothing was pending.
- The header comment of the partial Merkle tree bounds the bits by twice the hashes less one. That is
  exceeded when a node with a single child lies above a match (`Merkle.DocumentedBoundFails`);
  `Merkle.EncodedSize` gives the exact excess and the condition.
- The cuckoo cache's comment says displacement starts with the first place; it starts with the second
  (`Cuckoo.SecondDisplaced`), which is the first if and only if the two coincide (`Cuckoo.FirstDisplaced`).
- The modified fee of a package drifts if and only if an included ancestor's fee was adjusted, because the
  base fee is subtracted (`Miner.FeeDrift`); three transactions in a row show it (`Miner.FeeDrifts`).
- An entry of the modified-package table that is erased and recreated overstates the package by its
  ancestors already in the block, and is right if and only if these total nothing
  (`Miner.ReinsertedExcess`, with `Miner.ExcessReturns` as the case). It is never understated
  (`Miner.RecordedCovers`), so the block limits hold.
- The selection stops at the first candidate that pays too little, on the ground that everything else has
  a lower fee rate. A package that pays can be left (`Miner.PayingPackageLeft`), if and only if its last
  transaction by itself is below the minimum rate (`Miner.LeftBehind`, `Miner.StoppedRightly`).
- The 16-bit positions of the compact block's id map are exact if and only if no position exceeds 65535
  (`CompactBlock.PositionsExact`, `CompactBlock.Misplaced`, `CompactBlock.MisplacedExists`). Messages
  read from the network are limited to 65535 transactions, so only the class used by itself is affected.
- Spending reports success for an outpoint that is not visible if and only if a spent entry of it is
  cached (`Coins.SpendCoinDeletes`); spending twice is such a case, and hands out a spent coin
  (`Coins.SpentTwice`).
- The cuckoo cache's epoch size is computed in 32 bits and is the intended 45 percent if and only if the
  cache has at most 95443717 slots (`Cuckoo.EpochSizeExact`); with one more it is 1
  (`Cuckoo.EpochSizeWraps`).

## Left out

- Coins: the best-block hash, memory accounting and the cursor over the database.
- CheckQueue: 32-bit wrap-around of the outstanding count, thread interruption and the control object.
- Miner: scores are compared by exact products, where the source multiplies floating-point numbers; the optimality of the fees collected is not stated, and the block template around the selection is absent.
- AddrMan: operations other than the class methods listed are functions on values, so in-place update and aliasing are not captured for them; the chance draw of the selection is not modelled, and bucket hashes are parameters.
- AddrManFile: the byte layout and the key of the file.
- Merkle: the block header part of the message; hashes are an arbitrary function of pairs.
- Bloom: the floating-point sizing of the filters, and the non-rolling filter.
- Chain: overflow of the locator step, header data, and the search for the earliest block by time.
- Cuckoo: bit-packed atomic flags, concurrent readers, and the logarithm that gives the depth limit, which is arbitrary here.
- ArithUint.BaseUint.Mul: the compile-time width is the length of the limb sequence; hexadecimal and floating-point conversions are not modelled.
- BlockFilter.MatchInternal: requires data that decode, as the constructor has established for any filter that exists.
- BlockFilter: the length prefix, and the choice of elements of a block.
- Base58: the checksum variant and key encodings.
- Bech32: detection of up to four scattered errors, which rests on an exhaustive search.
- CompactBlock.InitSound: stated for at most 65536 transactions, which covers every message that can be read; `Misplaced` shows the failure beyond.
- CompactBlock.PartiallyDownloadedBlock.InitData: the bucket-crowding test is a parameter; the 16-bit running offset is unbounded here, which `BuildIds` shows to matter only with 65536 prefilled transactions.
- CompactBlock: the final block check is a parameter and the proof-of-proof data are absent.
- The rest of the node: validation, scripts, wallet, network and remote calls, and the proof-of-proof services.
