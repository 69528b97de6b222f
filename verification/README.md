# Synergy: a verified model of the core

Synergy is a proof-of-stake node. This project models the parts of it that carry the hardest invariants and proves
them in Dafny 4.11. `dafny verify dfyconfig.toml` checks everything.

| part | files | main results |
|---|---|---|
| address manager | `AddrTypes`, `AddrState`, `AddrSelect`, `AddrMan`, `AddrCheck`, `AddrRuns`, `AddrDisk`, `AddrRoundTrip` | every run keeps five interlocking tables consistent, `Check_` accepts every reachable state, nothing tried is ever forgotten, writing and reading back loses nothing |
| parallel check queue | `CheckQueue` | conservation of checks, exact verdict of `Wait`, no lost wakeup, no deadlock, `Wait` returns, for any number of workers and any interleaving |
| stake modifier | `Kernel` | the 64-round selection never fails and is unique; when exactly it generates once per interval |
| synchronized checkpoints | `Checkpoints` | over any run checkpoints only descend, and every admitted block descends from all of them |
| BLAKE, Keccak, Fugue | `Bits`, `Blake`, `BlakeReference`, `KeccakF`, `Keccak`, `Fugue` | the fast streaming forms compute the digests of the definitions, for every message, bit tail and way of cutting the message |
| Base58 and big numbers | `Digits`, `Bignum`, `Base58` | exact round trips, accepted language, rounding of the compact form |
| page locks, Bloom filter | `PageLock`, `Bloom` | exact counts and locked pages over all runs; exactly which filters never lose a key over all runs |

`Arith`, `Ascending` and `Wrappers` hold the arithmetic, the ordered traversal of sets and the option type that the
others share.

Objects whose fields the source overwrites are classes, and loops are loops; each such method is proved against a
function or predicate on values, about which the laws are stated. Hash functions, random numbers, the clock,
signatures and the outcomes of disk and database operations are parameters or arbitrary values, so every statement
holds for all of them. Addresses and network groups enter through the bucket functions of an environment, bounded by
the bucket counts. The check queue is a state machine whose steps are the critical sections; one thread is the master.

Where the code and its comments disagree, or it does not do what it is meant to, the model follows the code:

- `SelectTried` is said to find the least recently tried entry, but it returns the position from which that entry has
  just been swapped away. `AddrSelect.EvictsOldestIff` gives the exact condition over bucket and draws, and
  `AddrSelect.NewestEvicted` a full bucket whose newest entry is evicted.
- The stake modifier is meant to be generated once per interval. That holds whenever no block falls back to or
  behind the interval of the last generation once its parent has left it, which times that never decrease ensure. `Kernel.OneGenerationIff` proves that on the main
  network, where an interval is longer than the ten minutes a block may lie behind its parent, it holds in no other case,
  and `Kernel.FallingBackSharesInterval` is a chain with acceptable times where it fails. With intervals below ten
  minutes, as on the test network, the condition is still sufficient, and by `Kernel.GenerationsAscendIff` exact for
  generations in ascending intervals; `Kernel.FallingBackBetween` shows that it is then not necessary.
- The empty shortcut of the Bloom filter disagrees with the plain test when there is no hash function;
  `Bloom.ContainsAgrees` gives the exact condition. `Bloom.ForgottenKey` shows a key that is lost, and
  `Bloom.InsertedStaysIff` says for which filters none is.
- Base58 goes through a length of type `int`. `Base58.PrintedReadable` says exactly which byte strings survive printing,
  and `Base58.LengthsWrap` shows what is left of two that do not.

## Model

| member | source | states |
|---|---|---|
| `AddrState.SwapIndexed` | src/addrman.cpp:105-123 | swapping two positions of `vRandom` permutes it, keeps every back-position exact and changes nothing else of any entry |
| `AddrState.StatisticsKeepConsistency` | src/addrman.cpp:370-387 | changing only times and attempt counts of an entry keeps the whole consistency invariant |
| `AddrState.UnrefKeepsConsistency` | src/addrman.cpp:149-201 | dropping one reference of a bucket member, and forgetting the entry with its last one, keeps the invariant: the three indexes stay in bijection, reference counts equal the number of buckets holding the entry, `nNew` stays exact |
| `AddrState.EnteredPending` | src/addrman.cpp:350-362 | entering an unknown address with one reference still to be placed keeps the invariant up to that one pending reference |
| `AddrState.RefPending` | src/addrman.cpp:339-362 | taking a further reference below the limit of four keeps the invariant up to that pending reference |
| `AddrState.PutKeepsConsistency` | src/addrman.cpp:358-366 | putting the pending entry into a bucket with room restores the invariant |
| `AddrState.PromotedKeepsConsistency` | src/addrman.cpp:203-229 | moving an entry from all its new buckets to its tried bucket with room keeps the invariant |
| `AddrState.ExchangedKeepsConsistency` | src/addrman.cpp:231-259 | the exchange in a full tried bucket, with the evicted entry sent back to a new bucket, keeps the invariant |
| `AddrMan.SelectTried` | src/addrman.cpp:125-147 | the bucket is permuted, and some four draws (fewer for a smaller bucket) shuffle it to the returned order and select the returned position; -1 for an empty bucket |
| `AddrSelect.EvictsOldestIff` | src/addrman.cpp:125-147 | for every bucket and every draws: the entry at the returned position is an inspected one with the least success time if and only if the winning round drew 0, or the entry swapped into that position is itself inspected later with an equal success time |
| `AddrSelect.EvictsOldestIffIdle` | src/addrman.cpp:125-147 | when success times differ: if and only if the winning round drew 0 |
| `AddrSelect.EvictsUninspected` | src/addrman.cpp:135-146 | whenever the oldest entry of a bucket stands at position 4 or later there are draws that inspect it and evict the first entry instead |
| `AddrSelect.NewestEvicted` | src/addrman.cpp:125-147 | a full bucket of 64 and draws with which the most recently successful entry of all is evicted |
| `AddrMan.ChooseVictim` | src/addrman.cpp:151-200 | a terrible entry if the bucket has one (return value 0), otherwise an oldest one of four random picks (return value 1) |
| `AddrMan.OldestAmong` | src/addrman.cpp:169-200 | the traversal finds the picked position whose entry has the least time |
| `AddrMan.EraseEverywhere` | src/addrman.cpp:207-215 | the entry is gone from every new bucket and one reference is dropped for each bucket that held it |
| `AddrMan.FindBucket` | src/addrman.cpp:288-304 | the wrap-around search finds a bucket holding the entry, and fails exactly if no bucket holds it |
| `AddrMan.ExchangedOutcome` | src/addrman.cpp:238-258 | "there is certainly place there": the bucket the evicted entry goes to has fewer than 64 members, because the origin bucket has just lost the new tried entry |
| `AddrMan.PowerOfTwo` | src/addrman.cpp:344-349 | the factor by which a further reference is made less likely is two to the number of references |
| `AddrMan.AddrMan.constructor` | src/addrman.h:382-390 | the empty manager satisfies the invariant |
| `AddrMan.AddrMan.SwapRandom` | src/addrman.cpp:105-123 | the new tables are the swap of the old ones |
| `AddrMan.AddrMan.Forget` | src/addrman.cpp:161-167 | the entry at the end of `vRandom` after a swap is dropped from all three indexes |
| `AddrMan.AddrMan.Release` | src/addrman.cpp:155-166 | the new tables are the old ones with one reference dropped, the entry forgotten with its last reference |
| `AddrMan.AddrMan.ShrinkNew` | src/addrman.cpp:149-201 | a member that may be removed loses its reference in this bucket, it is never a tried entry, and the invariant is kept even while a reference of another entry is pending |
| `AddrMan.AddrMan.MakeTried` | src/addrman.cpp:203-259 | the entry ends in the tried bucket its address selects, directly or in exchange for the entry that some draws of `SelectTried` select, and the invariant is kept |
| `AddrMan.AddrMan.Evict` | src/addrman.cpp:231-259 | the branch for a full tried bucket evicts the entry at the position `SelectTried` returns, to its own new bucket or to the origin |
| `AddrMan.AddrMan.Find` | src/addrman.cpp:80-91 | an address is found exactly if it is indexed and its id is known |
| `AddrMan.AddrMan.Good` | src/addrman.cpp:261-310 | the invariant is kept and the outcome is one of those allowed over all random draws |
| `AddrMan.AddrMan.Attempt` | src/addrman.cpp:370-387 | the invariant is kept and only last try and attempts of a known address with matching port change |
| `AddrMan.AddrMan.Connected` | src/addrman.cpp:509-527 | the invariant is kept and only the time of a known address with matching port changes, when more than twenty minutes old |
| `AddrMan.AddrMan.GetAddr` | src/addrman.cpp:493-507 | at most 23 percent of the entries, at most 2500, no address twice, all of them known; apart from positions nothing changes |
| `AddrMan.AddrMan.Place` | src/addrman.cpp:358-366 | the bucket the source selects takes the entry, at the cost of one member if it is full |
| `AddrMan.AddrMan.Create` | src/addrman.cpp:93-103 | a fresh id is entered in all three indexes |
| `AddrMan.AddrMan.Add` | src/addrman.cpp:312-368 | the invariant is kept and the outcome is one of those allowed over all random draws |
| `AddrMan.AddrMan.AddKnown` | src/addrman.cpp:321-367 | a known entry is refreshed and at most one further reference is placed |
| `AddrMan.AddrMan.AddUnknown` | src/addrman.cpp:350-367 | an unknown address is entered under the next id and placed once |
| `AddrCheck.CheckEntries` | src/addrman.cpp:444-462 | no error exactly if every entry is sound: tried entries have a success and no references, others one to four references, both indexes point back, time stamps are not negative |
| `AddrCheck.StrikeTried` | src/addrman.cpp:469-476 | accepts exactly a bucket in which every id occurs at most as often as it is still to be found, and strikes those |
| `AddrCheck.StrikeNew` | src/addrman.cpp:479-488 | accepts exactly a bucket of ids with references left, and uses one of each |
| `AddrCheck.Check` | src/addrman.cpp:434-490 | returns 0 if and only if the tables are sound in the declarative sense: counts, entries, each tried id exactly once, each other id in as many new buckets as it has references |
| `AddrRuns.ConsistentPassesCheck` | src/addrman.cpp:434-490 | `Check_` accepts every state that satisfies the invariant and has sane time stamps |
| `AddrRuns.Capacity` | src/addrman.h:99-132 | at most 64 times 64 tried and 256 times 64 new entries, and the three indexes all have as many entries as both counters together |
| `AddrRuns.MovedEffect` | src/addrman.cpp:203-259 | `MakeTried` forgets nothing, makes its entry tried, and sends at most one other tried entry back with one reference |
| `AddrRuns.AddedKeepsConsistency` | src/addrman.cpp:312-368 | every allowed outcome of `Add_` satisfies the invariant |
| `AddrRuns.GoodKeepsConsistency` | src/addrman.cpp:261-310 | every allowed outcome of `Good_` satisfies the invariant |
| `AddrRuns.StepKeepsConsistency` | src/addrman.cpp:261-387 | every operation keeps the invariant, over all random draws |
| `AddrRuns.GoodEndsTried` | src/addrman.cpp:261-310 | `Good_` on a known address with matching port always ends with it tried, so the branch without a bucket is unreachable, and forgets no address |
| `AddrRuns.AddForgetsAtMostOne` | src/addrman.cpp:312-368 | `Add_` reports a new address exactly for a routable unknown one, keeps it, forgets at most one other entry and never a tried one |
| `AddrRuns.TriedSurvive` | src/addrman.cpp:149-368 | tried entries survive every operation, and all entries survive every operation but `Add_` |
| `AddrRuns.StepKeepsTimes` | src/addrman.cpp:261-387 | with times from the clock the time stamps stay as the check wants them |
| `AddrRuns.RunConsistent` | src/addrman.cpp:93-387 | the invariant holds in every state of every run from the empty manager |
| `AddrRuns.RunPassesCheck` | src/addrman.cpp:434-490 | in every state of every run with positive times `Check_` would return 0 and at most 64*64 + 256*64 addresses are known |
| `AddrRuns.Perform` | src/addrman.cpp:261-527 | each method of the manager object is one of the steps the runs are made of |
| `AddrDisk.WriteEntries` | src/addrman.h:284-306 | the entries of one kind in ascending order of id, and the number of each id among them |
| `AddrDisk.WriteBucket` | src/addrman.h:307-317 | one number for each member in ascending order, 0 for a member without a number; with the numbers of the entry loop these are the positions of the members among the entries written |
| `AddrDisk.Write` | src/addrman.h:270-318 | a consistent manager is written as its snapshot: counters, new entries, tried entries, bucket contents by number |
| `AddrDisk.Read` | src/addrman.h:319-377 | the tables and the number of lost entries are those of the declarative rebuild, from any well-formed file, whatever its number of new buckets |
| `AddrDisk.ReadNew` | src/addrman.h:327-340 | the loop over the new entries enters them under the numbers from 0, each also in its own bucket if the number of buckets is another |
| `AddrDisk.Rehashed` | src/addrman.h:335-339 | from a file of another number of buckets every new entry gets exactly one reference, in the bucket its source selects |
| `AddrDisk.SkipBucket` | src/addrman.h:362-375 | the indexes of such a file add no member, and an index without an entry creates one |
| `AddrDisk.ReadTried` | src/addrman.h:341-362 | the loop over the tried entries enters each in its bucket while there is room and counts the rest as lost |
| `AddrDisk.ReadBucket` | src/addrman.h:363-376 | each number adds a member and a reference while the entry has fewer than four |
| `AddrRoundTrip.NewPhase` | src/addrman.h:328-340 | after reading `n` new entries the tables hold exactly those, indexed under 0 to `n` - 1 |
| `AddrRoundTrip.StillRoom` | src/addrman.h:344-350 | a tried bucket being refilled has room for each entry the old bucket held |
| `AddrRoundTrip.TriedPhase` | src/addrman.h:341-362 | no tried entry is lost while reading, and each is in the bucket its address selects |
| `AddrRoundTrip.BucketsPhase` | src/addrman.h:363-376 | every bucket gets back its members up to renaming of ids, and every entry its references |
| `AddrRoundTrip.RebuiltSame` | src/addrman.h:319-377 | the tables read satisfy the invariant and equal the written ones up to renaming of ids |
| `AddrRoundTrip.RoundTrip` | src/addrman.h:270-379 | writing a consistent manager and reading it back loses no entry (`nLost` is 0), restores all stored fields, tried and new buckets and counters up to renaming of ids, and re-establishes the invariant |
| `AddrRoundTrip.WriteThenRead` | src/addrman.h:270-379 | the same for the two loops run one after the other |
| `CheckQueue.NextCounts` | src/checkqueue.h:61-118 | every critical section keeps `nTodo` equal to the queue plus all unfinished local batches, `nTotal` and `nIdle` equal to the threads inside and asleep |
| `CheckQueue.NextConserved` | src/checkqueue.h:61-147 | every step keeps each added check in exactly one place: queue, local batch or finished, and run or skipped accordingly |
| `CheckQueue.NextVerdicts` | src/checkqueue.h:71-116 | every step keeps: a failure has been noticed by some thread exactly if a check that fails has run, and checks are skipped only after a failure |
| `CheckQueue.NextSafe` | src/checkqueue.h:69-111 | every step keeps: a sleeping master that is not notified has work outstanding elsewhere |
| `CheckQueue.NextInv` | src/checkqueue.h:61-147 | every step of every thread keeps the whole invariant |
| `CheckQueue.RunInv` | src/checkqueue.h:61-147 | the invariant holds in every state of every run, for any number of workers, any interleaving and spurious wakeups |
| `CheckQueue.InvFacts` | src/checkqueue.h:69-111 | at every lock release `nTotal - nIdle` threads hold a batch, and no check has run more often than it was added |
| `CheckQueue.AtMostOnce` | src/checkqueue.h:102-116 | a check added once runs at most once |
| `CheckQueue.BlockedMasterHasWorker` | src/checkqueue.h:72-95 | while the master is blocked and not notified the queue is empty and some worker holds unfinished checks |
| `CheckQueue.NoDeadlock` | src/checkqueue.h:61-118 | while the master is inside `Wait` some thread can take a step |
| `CheckQueue.ControllerAssertions` | src/checkqueue.h:164-171 | between rounds the three assertions of the controller hold |
| `CheckQueue.WaitVerdict` | src/checkqueue.h:82-93 | `Wait` returns true exactly if every check added since the last `Wait` passes, each of them then ran as often as it was added, and the queue is left as after construction |
| `CheckQueue.StepUsesWork` | src/checkqueue.h:61-118 | every step of a thread that stays inside, except adding and spurious wakeups, uses up outstanding work |
| `CheckQueue.WaitTerminates` | src/checkqueue.h:61-118 | a stretch without adding and spurious wakeups is no longer than the work at its start |
| `CheckQueue.NeverStuck` | src/checkqueue.h:61-147 | in every reachable state something other than adding and spurious wakeups can happen, so such a stretch can always go on |
| `CheckQueue.WaitReturnsEventually` | src/checkqueue.h:61-147 | with the master inside and no shutdown, every stretch without adding and spurious wakeups that is longer than the work at its start contains the step in which `Wait` returns |
| `Kernel.GetLastStakeModifier` | src/kernel.cpp:43-54 | the modifier and time of the nearest generating block, failure exactly for no block or a genesis block without a modifier |
| `Kernel.SelectionInterval` | src/kernel.cpp:57-70 | the loop adds up all 64 sections |
| `Kernel.SortedIsSorted` | src/kernel.cpp:174-175 | sorting by time, then hash, gives an ascending list |
| `Kernel.CollectCandidates` | src/kernel.cpp:165-175 | the candidates are the unbroken run of blocks at the end of the chain not older than the start, sorted |
| `Kernel.SelectBlock` | src/kernel.cpp:75-115 | a round picks, among the unselected candidates up to the stop time, the first with the least selection hash, or the first unselected one if none is early enough; it fails only if a candidate is not indexed or all are selected |
| `Kernel.BestIsPick` | src/kernel.cpp:81-112 | breaking off at the first late candidate loses nothing, because the candidates are sorted |
| `Kernel.PicksDistinct` | src/kernel.cpp:181-194 | no block is picked twice |
| `Kernel.SelectRounds` | src/kernel.cpp:178-194 | on well-formed candidates every one of the min(64, candidates) rounds succeeds, and the modifier is made of the entropy bits of the picks |
| `Kernel.FromBitsAt` | src/kernel.cpp:189 | bit `r` of the number built by the rounds is the `r`-th entropy bit, with no bits above |
| `Kernel.ComputeNextStakeModifier` | src/kernel.cpp:130-226 | on a well-formed chain it succeeds with exactly the modifier and generation flag a block on that chain must carry |
| `Kernel.RegeneratedBits` | src/kernel.cpp:178-194 | bit `r` of a regenerated modifier is the entropy bit of the block picked in round `r`, higher bits are zero |
| `Kernel.GenesisGenerates` | src/kernel.cpp:43-54 | the error "no generation at genesis block" is unreachable |
| `Kernel.CarriesNearest` | src/kernel.cpp:130-149 | every block carries the modifier of its nearest generating ancestor or self |
| `Kernel.GeneratesAfterInterval` | src/kernel.cpp:144-149 | a block generates exactly if its parent has left the interval of the last generation |
| `Kernel.GenerationsAscendIff` | src/kernel.cpp:144-149 | each generation lies in a later interval than all before it if and only if every block whose parent has left the interval of the last generation itself lies after that interval |
| `Kernel.OneGenerationIff` | src/kernel.cpp:144-149 | that condition gives one generation per interval; with intervals of at least ten minutes and blocks at most ten minutes behind their parents it is also necessary |
| `Kernel.OneGenerationPerInterval` | src/kernel.cpp:130-149 | when times never decrease, each generation lies in a later interval than all before it |
| `Kernel.AcceptedDrift` | src/main.cpp:2563-2565 | times that pass the rules of `AcceptBlock` are never more than ten minutes behind the parent |
| `Kernel.AcceptedAlmostAscending` | src/main.h:1341-1354 | times that increase up to the last block pass the median and drift rules if the last is after the middle one and at most ten minutes behind its parent |
| `Kernel.FallbackAccepted` | src/main.cpp:2563-2565 | four times, of which the last falls back, that all pass the median and drift rules for time stamps |
| `Kernel.FallingBackSharesInterval` | src/kernel.cpp:144-149 | with those times, the interval of 1200 seconds and any selection hash a chain that the code generates has two generating blocks in one interval |
| `Kernel.FallingBackBetween` | src/kernel.cpp:144-149 | with the interval of 120 seconds of the test network, a chain with acceptable times where a block falls back into an interval that was passed over, and no two generations share one |
| `Kernel.PickUnique` | src/kernel.cpp:75-115 | the block a round must pick is unique |
| `Kernel.ComputedUnique` | src/kernel.cpp:130-226 | two nodes with the same chain agree on the next modifier |
| `Kernel.ComputedExists` | src/kernel.cpp:130-226 | every well-formed chain has a next modifier |
| `Checkpoints.SyncCheckpoints.TraceBack` | src/checkpoints.cpp:103-116 | walking parents down to a height yields the ancestor at that height |
| `Checkpoints.SyncCheckpoints.ValidateSyncCheckpoint` | src/checkpoints.cpp:92-132 | accepts exactly strict descendants of the current checkpoint, and marks exactly the blocks on a conflicting branch invalid |
| `Checkpoints.SyncCheckpoints.WriteSyncCheckpoint` | src/checkpoints.cpp:134-148 | the checkpoint changes exactly if both the write and the commit succeed |
| `Checkpoints.SyncCheckpoints.ProcessSyncCheckpoint` | src/checkpoints.cpp:381-429 | an unsigned message changes nothing, an unknown block becomes pending, a known one is validated and adopted, with every failure on the way |
| `Checkpoints.SyncCheckpoints.AcceptPendingSyncCheckpoint` | src/checkpoints.cpp:150-191 | the pending checkpoint is validated and adopted once its block is known, and dropped if it is invalid |
| `Checkpoints.SyncCheckpoints.CheckSync` | src/checkpoints.cpp:204-229 | a block above the checkpoint passes exactly if its chain runs through it, at its height only the checkpoint itself, below only known blocks |
| `Checkpoints.SyncCheckpoints.AddToBlockIndex` | src/main.cpp:2376-2437 | the block enters the tree under its parent, whatever the commit and `SetBestChain` do afterwards |
| `Checkpoints.SyncCheckpoints.AcceptBlock` | src/main.cpp:2538-2636 | in strict mode a block enters the tree only with a known parent and if it passes `CheckSync`; a block whose storing fails afterwards stays indexed without being accepted, and only after an accepted one a pending checkpoint is looked at |
| `Checkpoints.StepAdvances` | src/checkpoints.cpp:92-229 | every message, pending acceptance and admission moves the checkpoint forward along its branch or not at all, in a tree that only grows |
| `Checkpoints.RunGood` | src/checkpoints.cpp:92-229 | the checkpoint is a known block in every state of every run |
| `Checkpoints.CheckpointsDescend` | src/checkpoints.cpp:134-191 | over any run every earlier checkpoint is an ancestor of every later one |
| `Checkpoints.AdmittedDescendFromAll` | src/checkpoints.cpp:204-229 | every newly admitted block strictly descends from every checkpoint up to then |
| `Checkpoints.CheckpointChangesStrictly` | src/checkpoints.cpp:134-191 | when the checkpoint changes it changes to a strict descendant |
| `Blake.AbsorbAppend` | src/blake.c:800-835 | absorbing a concatenation is absorbing the parts |
| `Blake.Context.constructor` | src/blake.c:790-798 | counters, buffer and chaining value of a fresh context |
| `Blake.Context.Update` | src/blake.c:800-835 | buffering and block-wise compression equal feeding the bytes one by one, counter carry included |
| `Blake.Context.Close` | src/blake.c:837-889 | the branches on the buffered length and on `T0 == 0` compute the closing of the abstract state |
| `BlakeReference.CompressedCounts` | src/blake.c:827-831 | adding a block with a carry tested by `<` keeps the two words equal to the number of bits |
| `BlakeReference.RewoundCounts` | src/blake.c:858-866 | subtracting before the addition gives the exact number of message bits, also when the low word is zero |
| `BlakeReference.ResetCounts` | src/blake.c:858-878 | the words written for a block without message bits wrap around to a counter of zero |
| `BlakeReference.LengthIsMessageLength` | src/blake.c:856-857 | the length field is the message length in bits |
| `BlakeReference.TailBits` | src/blake.c:854-855 | the tail byte is the leading message bits, a one and zeros |
| `BlakeReference.BodyBits` | src/blake.c:867-873 | the padding in one block, with the tag bit ored in, is the padding bit string |
| `BlakeReference.SpilledBits` | src/blake.c:874-885 | so it is when the length needs a block of its own |
| `BlakeReference.AbsorbHolds` | src/blake.c:800-835 | after any bytes the chaining value is the fold over the full blocks, the buffer holds the rest and the counter their number of bits |
| `BlakeReference.ClosingPads` | src/blake.c:867-885 | message and closing bytes together are the padded message of section 2.1.3 of the BLAKE proposal |
| `BlakeReference.ClosedFolds` | src/blake.c:837-889 | closing compresses exactly the remaining blocks, each under the counter the definition gives it |
| `BlakeReference.ClosedIsDigest` | src/blake.c:837-889 | for every message and bit tail the closed state is the digest by definition |
| `BlakeReference.DigestUnique` | src/blake.c:837-889 | the definition determines the digest |
| `BlakeReference.Hash` | src/blake.c:905-994 | init, any updates and close give the digest of the joined pieces, for both word sizes |
| `KeccakF.ConstantsFollowRegister` | src/keccak.c:136-149 | the 24 round constants are those of the shift register of section 3.2.5 of FIPS 202 |
| `KeccakF.OffsetsFollowWalk` | src/keccak.c:1016-1045 | the rotation table is the triangular numbers along the walk of section 3.2.2 of FIPS 202 |
| `KeccakF.FastThetaIsTheta` | src/keccak.c:958-1013 | the regrouped exclusive ors of `THETA` are theta |
| `KeccakF.ThetaMasked` | src/keccak.c:1047-1056 | theta turns the six complemented lanes into twelve |
| `KeccakF.PiMasked` | src/keccak.c:1047-1056 | pi brings those to the lanes `KHI` expects complemented |
| `KeccakF.KhiMasked` | src/keccak.c:1070-1135 | `KHI` on a state with its twelve lanes complemented is chi with the six lanes complemented |
| `KeccakF.RoundRefines` | src/keccak.c:958-1137 | one round of the fast form on the stored lanes is one round of section 3.2 of FIPS 202 on the plain lanes |
| `KeccakF.EightRounds` | src/keccak.c:1313-1347 | eight rounds under the names `P0` to `P8`, then `P8_TO_P0`, are eight plain rounds with every lane back in its place |
| `KeccakF.FastPermute` | src/keccak.c:1452-1466 | the unrolled loop is Keccak-f[1600] under the six-lane complement |
| `Keccak.StoredIsMasked` | src/keccak.c:1526-1540 | the six lanes set by `keccak_init` are the complement mask kept between rounds |
| `Keccak.AbsorbedStored` | src/keccak.c:1595-1599 | xoring a block into the stored lanes and permuting them is absorbing it into the plain ones |
| `Keccak.Context.constructor` | src/keccak.c:1526-1568 | the stored lanes stand for the zero state |
| `Keccak.Context.Update` | src/keccak.c:1568-1603 | buffering equals feeding the bytes one by one into the plain sponge, whatever the complement |
| `Keccak.Context.AbsorbBuffer` | src/keccak.c:1595-1599 | a full buffer changes the plain state as the sponge does |
| `Keccak.Context.Input` | src/keccak.c:183-188 | the loop xors the little-endian words of the buffer into the first lanes |
| `Keccak.Context.Padding` | src/keccak.c:1618-1634 | the three cases build the closing bytes |
| `Keccak.Context.Output` | src/keccak.c:1636-1646 | writing whole lanes and cutting gives the first bytes of the state |
| `Keccak.Context.Close` | src/keccak.c:1607-1647 | the digest is squeezed from the plain state after the closing bytes, and the context is fresh again |
| `Keccak.AbsorbHolds` | src/keccak.c:1568-1603 | after any bytes the plain state is the sponge over the full blocks and the buffer holds the rest |
| `Keccak.EndBits` | src/keccak.c:1618 | the end byte is the tail bits, lowest first, then a one |
| `Keccak.ClosingPads` | src/keccak.c:1618-1634 | message and closing bytes are the message bits with padding 10*1 and the fewest zeros |
| `Keccak.ClosedHolds` | src/keccak.c:1618-1635 | after the closing bytes the plain state is the sponge of the padded message |
| `Keccak.DigestUnique` | src/keccak.c:1607-1647 | the definition determines the digest |
| `Keccak.Hash` | src/keccak.c:1525-1647 | init, any updates and close give the sponge digest of the joined pieces, for all four sizes |
| `Fugue.Case0` | src/fugue.c:753-760 | the code under `case 0` on fixed registers is one round on the state that rotates |
| `Fugue.Case1` | src/fugue.c:762-769 | so is `case 1`, seen through a shift by six words |
| `Fugue.Case2` | src/fugue.c:771-778 | so is `case 2`, seen through a shift by twelve words |
| `Fugue.Case3` | src/fugue.c:780-787 | so is `case 3`, seen through a shift by eighteen words |
| `Fugue.Case4` | src/fugue.c:789-796 | so is `case 4`, seen through a shift by twenty-four words |
| `Fugue.OneRound` | src/fugue.c:748-798 | whatever `round_shift` is, the switch does one round and advances the shift by one modulo five |
| `Fugue.Context.constructor` | src/fugue.c:658-676 | zeros, then the initial value, nothing pending |
| `Fugue.Context.Update` | src/fugue.c:697-801 | an update mixes in the complete words that more input has pushed out, keeps one to four bytes pending, and without data mixes in a full pending word; the bit count grows modulo 2^64 |
| `Fugue.SplittingIsIrrelevant` | src/fugue.c:697-740 | however the message is cut, with empty updates too, the same words have been or will next be mixed in |
| `Fugue.AbsorbHolds` | src/fugue.c:697-740 | after any bytes the state is the rounds over the words but the last, which is pending |
| `Fugue.LastBlock` | src/fugue.c:933-951 | the closing buffer holds the closing bytes from `plen` on, whatever it held before |
| `Fugue.LastWordWaits` | src/fugue.c:933-951 | the four bytes never written stay pending and do not reach the state |
| `Fugue.RotatedBack` | src/fugue.c:952-954 | moving the last `6 * round_shift` words to the front restores the logical order exactly |
| `Fugue.Context.Close` | src/fugue.c:933-954 | the words handed to the final rounds are those of the rotating state after all closing words |
| `Fugue.ClosingPads` | src/fugue.c:938-950 | message and closing bytes are the message bits, zeros up to a word, and the length in 64 bits |
| `Fugue.ClosedIsFinal` | src/fugue.c:933-954 | after any run of updates, closing yields the rounds over the words of the padded message |
| `Fugue.FinalUnique` | src/fugue.c:933-954 | the definition determines the words the final rounds start from |
| `Fugue.Hash` | src/fugue.c:658-954 | init, any updates and `CLOSE_ENTRY` yield the rounds over the words of the padded message |
| `Bignum.MpiRoundTrip` | src/bignum.h:294-320 | the byte format represents every number, the sign in the top bit included |
| `Bignum.VchRoundTrip` | src/bignum.h:294-320 | `setvch` takes back what `getvch` gives |
| `Bignum.BigNum.SetVch` | src/bignum.h:294-307 | the number of the bytes, least significant first, as far as the length passed as `int` and the length field agree: beyond 2^31 - 5 bytes the vector is ignored or, where both lengths have wrapped around, cut |
| `Bignum.BigNum.GetVch` | src/bignum.h:309-320 | the bytes of the number, least significant first, empty for zero |
| `Bignum.BigNum.SetCompact` | src/bignum.h:321-331 | the number whose leading bytes and size the compact value gives |
| `Bignum.BigNum.GetCompact` | src/bignum.h:333-344 | size and three leading bytes, zeros standing in for missing ones |
| `Bignum.SizeBounds` | src/bignum.h:333-344 | the size is the number of bytes the magnitude and a sign bit need |
| `Bignum.ExpandedCompact` | src/bignum.h:321-344 | expanding a compacted number cuts it off below its third byte |
| `Bignum.CompactError` | src/bignum.h:321-344 | the expanded value v of n satisfies v <= n and, for n > 0, (n - v) * 2^15 < n |
| `Bignum.CompactMonotone` | src/bignum.h:333-344 | compacting is monotone |
| `Bignum.CompactAgain` | src/bignum.h:321-344 | compacting, expanding and compacting again is compacting |
| `Bignum.Fits` | src/bignum.h:333-344 | these hold for every number below 2^256, whose size fits in the compact form |
| `Digits.TranscodedBack` | src/base58.h:27-119 | writing digits in another base with their leading zeros, and back, gives the same digits, for any two bases |
| `Base58.Strchr` | src/base58.h:88-90 | the position of a character in the alphabet |
| `Base58.EncodeBase58` | src/base58.h:27-65 | the loop yields the base-58 form, with a `1` for each leading zero byte, of the bytes that survive the 32-bit length: all below 2^31 - 5 bytes, otherwise a prefix and the leading zeros |
| `Base58.PrintedReadable` | src/base58.h:27-119 | what the loop prints decodes to the bytes kept, and these are all the bytes if and only if there are fewer than 2^31 - 5 of them or they are all zero |
| `Base58.LengthsWrap` | src/base58.h:27-119 | 2^31 bytes print as nothing, and of 2^32 + 2 bytes two are printed, whatever follows a first byte other than zero |
| `Base58.DecodeBase58` | src/base58.h:75-119 | the loops accept and decode as the definition says, and leave the result empty on failure |
| `Base58.TrimmedVch` | src/base58.h:106-108 | trimming the sign byte leaves the shortest bytes of the number |
| `Base58.CountOnes` | src/base58.h:110-114 | the `1` characters counted are the leading zero digits |
| `Base58.Language` | src/base58.h:82-99 | a string is accepted exactly if it is alphabet characters between optional whitespace, and those are what is decoded |
| `Base58.DecodeEncoded` | src/base58.h:27-119 | decoding undoes encoding on every byte string, leading zeros included |
| `Base58.EncodeDecoded` | src/base58.h:27-119 | encoding undoes decoding on every string over the alphabet |
| `Base58.CheckRoundTrip` | src/base58.h:132-160 | for any hash function, the checksummed form decodes to its payload if and only if the bytes printed fit or are all zero |
| `Base58.EncodeBase58Check` | src/base58.h:132-139 | payload and checksum, printed by the loop |
| `Base58.DecodeBase58Check` | src/base58.h:143-160 | succeeds and returns the payload as the definition says, empty on failure |
| `Base58.CheckAccepts` | src/base58.h:143-160 | a payload is returned exactly if the decoded bytes are that payload followed by its checksum |
| `Base58.Base58Data.SetString` | src/base58.h:210-226 | version and data are set exactly for a non-empty checked payload, and cleared otherwise |
| `Base58.Base58Data.ToString` | src/base58.h:233-238 | version and data in the checksummed form, as the loop prints it |
| `Base58.PrintThenRead` | src/base58.h:210-238 | reading a printed object restores version and data if and only if the bytes printed fit or are all zero |
| `PageLock.TouchesMeans` | src/allocators.h:61-63 | the pages from the first to the last of a range are exactly those holding one of its addresses |
| `PageLock.LockedPageManager.LockRange` | src/allocators.h:56-76 | afterwards every page is counted as often as outstanding ranges touch it, and exactly the counted pages are locked |
| `PageLock.LockedPageManager.UnlockRange` | src/allocators.h:79-99 | the same without the range, and the assertion that the page is locked holds at every page |
| `PageLock.Run` | src/allocators.h:47-99 | after every run in which each unlock matches an outstanding lock, counts and locked pages are those of the outstanding ranges |
| `Bloom.SetSlotsIs` | src/bloom.cpp:44-49 | inserting sets exactly the bits of the key and loses none |
| `Bloom.ContainsAgrees` | src/bloom.cpp:67-81 | with flags that agree with the bits, the shortcuts give the answer of the plain test if and only if there is a hash function or the filter is not flagged empty |
| `Bloom.InsertedGrows` | src/bloom.cpp:40-51 | an inserted key is found by the plain test, no bit is lost and the flags still agree with the bits |
| `Bloom.RunGrows` | src/bloom.cpp:40-182 | over any run no bit is lost and the flags agree with the bits |
| `Bloom.InsertedStaysIff` | src/bloom.cpp:40-182 | a key once inserted is found after every mix of inserts, flag updates and transactions if and only if there is a hash function or some bit was set |
| `Bloom.ForgottenKey` | src/bloom.cpp:67-182 | otherwise it is found at first and lost by the next flag update |
| `Bloom.SpendersRelevantIff` | src/bloom.cpp:102-182 | when all matched outputs are added, every transaction spending an output that matched earlier is relevant, whatever came between, if and only if there is a hash function or some bit was set |
| `Bloom.BloomFilter.Insert` | src/bloom.cpp:40-51 | bits and flags after the loop |
| `Bloom.BloomFilter.Has` | src/bloom.cpp:67-81 | the answer with shortcuts |
| `Bloom.BloomFilter.UpdateEmptyFull` | src/bloom.cpp:171-182 | the flags say exactly whether all bytes are 0xff or all are zero |
| `Bloom.BloomFilter.IsRelevantAndUpdate` | src/bloom.cpp:102-168 | relevant exactly by hash, matched output, spent outpoint or script data, and the filter afterwards holds the outputs to be watched |

## Left out

- `Select_` and `GetChance` of the address manager: floating point, and terminating only with probability one.
- The byte encoding of the fields of an address file; a file is a record of its entries and numbers.
- Overflow of `nIdCount`, `nAttempts` and of the 32-bit sizes in the address manager; the truncation of times to 32 bits is modelled.
- Locking inside the address manager: each public operation is one step.
- Copying and clearing of checks in the check queue, and its shutdown protocol beyond the flag that lets workers leave.
- `GetStakeModifierChecksum`, `CheckProofOfStake` and `CheckStakeKernelHash`: hashing, signatures and the transaction database.
- 64-bit overflow of times and of the section formula in the stake modifier.
- `ResetSyncCheckpoint`, which may move the checkpoint backwards, and checkpoint modes other than strict; `SetBestChain` and disk reads succeed or fail arbitrarily.
- The compression function of BLAKE, the S-box mixing of Fugue and the writing out of the BLAKE and Fugue digests.
- The rounds of Fugue after `CLOSE_ENTRY`, and Fugue-384 and Fugue-512, which repeat the pattern with 36 words.
- The 32-bit, interleaved and differently unrolled forms of Keccak.
- AddrDisk.Read: does not model that a file of more than 256 buckets makes the code form a reference past the end of `vvNew`, which it then does not use.
- Bignum.BigNum.SetVch: does not model the largest number OpenSSL itself can hold, which is smaller than the `int` length allows; `BN_mpi2bn` is taken by its interface, as OpenSSL is not part of the repository.
- Base58.PrintedReadable: likewise takes every length that fits in an `int` as within what OpenSSL can hold.
- AddrDisk.WriteEntries: says nothing about tables whose counters are wrong, where the code stops early.
- AddrDisk.Write: says nothing about inconsistent tables, for the same reason.
- Kernel.SelectBlock: does not say which candidate is picked when some are missing from the block index or are not sorted.
- Kernel.SelectRounds: says nothing about candidates that are missing from the block index, where a round may report an error.
- Kernel.ComputeNextStakeModifier: says nothing about chains that are not in the block index, where the code may report an error.
- `CBitcoinAddress` and `CBitcoinSecret`, which only choose versions and lengths.
- Addresses that wrap around the address space in the page lock manager, and page sizes as bit masks; the mask is subtraction of the remainder.
- Choosing the size of a Bloom filter, which is floating point, and parsing scripts into data elements.
- The other hash files (bmw, groestl, jh, luffa, cubehash, echo, hamsi): the same buffering with large tables.
- Networking, RPC, wallet, keys and user interface.
