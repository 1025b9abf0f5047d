# A verified model of the erasure-coded store

The repository is a storage prototype that spreads erasure-coded stripes over the clusters (racks) of a data
centre, repairs lost blocks with as little cross-cluster traffic as it can, and merges small stripes into larger
ones. This project models its five algorithmic cores in Dafny and proves what they are for.

* **Cross-cluster scheduling** (`Links`, `Decomposition`, `Matching`, `Regularity`, `RepairScheduler`, `TaskDispatch`,
  `RepairDispatch`, `SendPipeline`, `PipelineEnds`, `FifoSemaphore`, `SemaphoreProgress`, `IdlePermits`). Help tasks
  are grouped by link, the links are padded to a regular bipartite multigraph, and perfect matchings are peeled off
  it. The schedule splits the tasks exactly, has as many rounds as the busiest cluster has tasks, and no schedule has
  fewer. The threads that carry the rounds out, and the ticketed semaphore that throttles them, are step systems,
  proved over all interleavings, for safety and for progress.
* **Linear-algebra repair** (`Fields`, `GaloisField`, `Sums`, `Matrices`, `RowMajor`, `ErasureCode`, `RepairAlgebra`,
  `BlockRepair`, `Decoding`). The coding routines write flat arrays in place and are proved against matrix operations
  over any field of characteristic 2; bytes with GF(2^8) multiplication are shown to be one, division included. Lost
  blocks come back whatever the split of the helpers over clusters and the order of arrival.
* **Locally repairable codes** (`Lrc*`). Five codes, each with its own program for the encoding matrix. The parities
  they store are written out as sums in `LrcParities`, without the matrices, and the parity-check matrices annihilate
  exactly the stripes that hold them. For the Azure code: the counting test, the repair planner with both priorities
  and the equations each chooses, and the partitions.
* **Product codes** (`Pc*`, `Peeling`). Layout, encoding, the two peeling procedures and the planner, each tied to
  stopping sets; with global parities ("PC") and without them ("HVPC").
* **Merging, reading back, placement** (`MergeTables`, `MergeStore`, `LrcMerge*`, `PcMerge*`, `RsCode`,
  `Recalculation`, `Deviations`, `ReadBack`, `ObjectStripes`, `Placement`, `MergeGroups`, `ClusterLoss`, `Partitions`,
  `RsRepair`, `RsSingle`, `RsRestore`, `Stripes`, `Listing`). Both merges are carried through to the store: tables,
  recalculation from any arrival order, and the block behind every id. What a helper computes is a parameter of the
  recalculation, so the result is also exact for helpers that compute something else.

Code that changes things step by step is imperative Dafny here: methods with loops, arrays written in place, and
classes for the scheduler and the coordinator's tables. Random choices (`:|`) and thread orders are arbitrary.

## What turned out not to hold in general

The code is modelled as it stands. Where a property a reader would expect does not hold for all inputs, there is an
input that shows it, and the exact condition under which it holds:

* The optimal Azure partition can always lose any one part if the groups are of equal size. In general it can
  exactly under `OptimalIsSafe`, a condition on the last group (`PartitionOptimal`); 7 blocks in 3 groups with 2
  global parities fail it (`UnequalGroupsCanFail`).
* After a merge of Azure stripes the stripe is what the larger code would encode, whatever the data, exactly when
  there is nothing to merge or the groups divide the data evenly (`EncodedWhen`). Otherwise data that is zero but for
  the first block of the second stripe leaves a wrong local parity (`SpoiledLocal`).
* Reading from a merged product-code stripe counts the stripe's objects where it needs the number of old stripes.
  With objects of any lengths that fill the old stripes, all of them are read from the right places exactly when
  each old stripe holds one object, or there is a single data row and all objects are equally long
  (`ReadsRightWhen`). With several objects in an old stripe and several data rows one is always misread
  (`SeveralRowsMisread`).
* A write of several objects gives stripes to all of them exactly when all but the last are together shorter than
  one stripe, because the running length is not reset (`AllAssignedWhen`).
* Decoding stores the inverse with one column per lost block and reads it with one column per parity. It restores
  every stripe exactly when there are as many parities as lost blocks, or at most one lost block (`RestoresWhen`,
  `UndoesWhen`); three parities for two lost blocks give one of them twice (`ExtraParityMisleads`).
* `src/coordinator/merge.cpp:1404` sends the helpers of a product-code merge a plan of the product code, with its
  sizes unset, where the main plan calls for the row code. So nothing is known of the partial blocks they compute.
  The row's new parities are right whatever these are exactly when no help cluster sends any: partial decoding is
  off, or no help cluster holds more than m1 blocks of the row (`RowRightAnywayWhen`). Two blocks of a row on one
  help cluster are too many for m1 = 1 (`TwoBlocksMislead`). `MergeStripes` is proved under that guard.

* A user that takes a permit of the ticketed semaphore does not notify, so the next in line can sleep on beside a free
  permit, with no notification on its way, until a holder gives one back. Nobody is lost that way (`NeverDeadlocks`),
  but it happens exactly with at least two permits and at least two more users than permits (`PermitIdlesWhen`,
  `TwoPermitsIdle`).

## Model

| member | source | states |
|---|---|---|
| Regularity.SearchCannotFail | src/coordinator/repair.cpp:43-55 | an exhausted augmenting search contradicts regularity (Hall), so on a regular graph every unmatched source finds a destination |
| Regularity.EveryDestinationMatched | src/coordinator/repair.cpp:104-109 | once every source is matched, every destination is |
| Scheduling.RepairScheduler.Dfs | src/coordinator/repair.cpp:43-55 | success is an augmented injective matching along real edges that keeps all matched sources; failure leaves the matching alone and has visited everything reachable |
| Scheduling.RepairScheduler.MatchOne | src/coordinator/repair.cpp:104-109 | on a D-regular graph with D > 0 the search for one more source always succeeds and unmatches nobody |
| Scheduling.RepairScheduler.PadSender | src/coordinator/repair.cpp:73-88 | padding a sender ends, and brings it to the maximal degree without exceeding it anywhere or touching real links |
| Scheduling.RepairScheduler.PeelRound | src/coordinator/repair.cpp:90-136 | one pass takes a perfect matching off an R-regular graph, leaves an (R-1)-regular one, and conserves every link's weight |
| Scheduling.RepairScheduler.ComputeSchedule | src/coordinator/repair.cpp:58-139 | terminates; every link is a real edge of exactly as many rounds as its weight, rounds are non-empty matchings, and there are exactly as many as the largest in- or out-weight |
| Decomposition.NoFewerRounds | src/coordinator/repair.cpp:58-139 | no decomposition of the links into matchings has fewer rounds than the largest in- or out-weight |
| TaskDispatch.CollectLinks | src/coordinator/repair.cpp:3188-3192 | the scheduler's links weigh exactly the lengths of the task lists |
| TaskDispatch.BuildRoundTable | src/coordinator/repair.cpp:3213-3234 | rounds that fit the task lists pop every task exactly once, from the back, and leave every list empty |
| TaskDispatch.EveryTaskSent | src/coordinator/repair.cpp:3219-3234 | each listed task is in the log under its own link |
| TaskDispatch.NothingSentTwice | src/coordinator/repair.cpp:3219-3234 | distinct tasks are dispatched at most once |
| RepairDispatch.ScheduleHelpTasks | src/coordinator/repair.cpp:3188-3234 | end to end: conflict-free non-empty rounds, as many as the busiest cluster has tasks, all tasks sent once, nothing left |
| SendPipeline.RunKeepsInv | src/coordinator/repair.cpp:3247-3330 | in every state of every run thread statuses agree with where the coordinator stands |
| SendPipeline.SendsNeverConflict | src/coordinator/repair.cpp:3291-3326 | two sends running at once are of one round and share neither source nor destination cluster |
| SendPipeline.PreparedBeforeSent | src/coordinator/repair.cpp:3247-3326 | a send that has begun had its own preparation joined before |
| SendPipeline.NeverSentTwice | src/coordinator/repair.cpp:3291-3326 | no reachable state has a task sent twice |
| SendPipeline.ErrorFreeRunSendsAll | src/coordinator/repair.cpp:3291-3330 | a run that ends without error has sent exactly the table, in order |
| SendPipeline.NeverStuck | src/coordinator/repair.cpp:3247-3330 | until the end some thread can always move |
| PipelineEnds.ErrorStopsRounds | src/coordinator/repair.cpp:3317-3330 | once an error has been reported, no state reached later has a task of a later round sent |
| PipelineEnds.RunsAreFinite | src/coordinator/repair.cpp:3247-3330 | every step brings the run closer to its end, so no run is longer than a bound on its first state |
| PipelineEnds.ReachesTheEnd | src/coordinator/repair.cpp:3247-3330 | every run, wherever it stands, goes on to a state in which the coordinator has ended |
| FifoSemaphore.StepKeepsInv | src/coordinator/repair.cpp:199-227 | every critical section and notification keeps count plus holders at capacity, ticket order, and no lost wake-up |
| FifoSemaphore.PermitsConserved | src/coordinator/repair.cpp:195-235 | over all interleavings: count is not negative, count plus holders is the capacity, permits are granted in ticket order |
| FifoSemaphore.WakeUpNeverLost | src/coordinator/repair.cpp:211-227 | if the front waiter sleeps while a permit is free, a notification is pending or a holder has yet to release |
| SemaphoreProgress.StepLowers | src/coordinator/repair.cpp:199-227 | every step of every user but a spurious wake-up brings the users nearer to being done |
| SemaphoreProgress.NeverDeadlocks | src/coordinator/repair.cpp:195-235 | with capacity at least 1, while any user is not done there is such a step |
| SemaphoreProgress.RestMeansServed | src/coordinator/repair.cpp:195-235 | where there is none, every user is done, all permits are back, and tickets 0, 1, 2, ... up to the number of users were granted in that order |
| SemaphoreProgress.CalmRunsEnd | src/coordinator/repair.cpp:195-235 | without spurious wake-ups n users are through after at most 4n(n + 1) steps, however they interleave |
| IdlePermits.TwoPermitsIdle | src/coordinator/repair.cpp:199-227 | for any capacity of at least 2 and two more users, a run after which the front waiter sleeps, a permit is free and nobody is about to notify |
| IdlePermits.PermitIdlesWhen | src/coordinator/repair.cpp:199-227 | such a state is reachable if and only if the capacity is at least 2 and there are at least two more users than permits |
| GaloisField.BytesObeyLaws | src/ec/erasure_code.cpp:103-104 | GF(2^8) bytes satisfy every law the proofs assume of the word arithmetic |
| GaloisField.InvertibleWhen | src/ec/erasure_code.cpp:103-104 | exactly the non-zero bytes have an inverse: the modulus is irreducible |
| ErasureCode.MakeSubmatrixByRows | src/ec/erasure_code.cpp:52-61 | the new array holds the chosen rows, in order |
| ErasureCode.MakeSubmatrixByCols | src/ec/erasure_code.cpp:63-73 | the new array holds the chosen columns, in order |
| ErasureCode.PerformAddition | src/ec/erasure_code.cpp:86-104 | each output is the sum of the blocks stored under its index |
| ErasureCode.EncodePartialBlocksForParities | src/ec/erasure_code.cpp:108-123 | the outputs are the chosen rows applied to the cluster's own blocks |
| ErasureCode.DecodeWithPartialBlocks | src/ec/erasure_code.cpp:127-145 | for any number of parities that is at least that of the lost blocks: the outputs are the array of the inverse, reread with the parities' width, applied to the summed parities |
| ErasureCode.EncodePartialBlocksForFailures | src/ec/erasure_code.cpp:149-178 | the outputs are that inverse times the cluster's columns, applied to its blocks |
| ErasureCode.EncodePartialBlocksForFailuresV2 | src/ec/erasure_code.cpp:183-222 | the same from k survivors, by the survivors' inverse |
| RepairAlgebra.HelpersSpeakForLost | src/ec/erasure_code.cpp:108-145 | if H b = 0, the helpers' partial parities over any split add up to the lost blocks' contribution |
| RepairAlgebra.DecodedSumIsLost | src/ec/erasure_code.cpp:108-145 | inverting the lost columns on the clusters' sum gives the lost entries, for any split of the helpers covering the rest of the support |
| RepairAlgebra.InvertBeforeOrAfter | src/ec/erasure_code.cpp:149-178 | inverting at each cluster and adding equals adding and then inverting |
| RepairAlgebra.SurvivorClustersGiveLost | src/ec/erasure_code.cpp:183-222 | the k-survivor variant: the clusters' parts add up to the lost entries |
| BlockRepair.OrderIrrelevant | src/ec/erasure_code.cpp:86-104 | what is added up does not depend on the order of arrival |
| BlockRepair.AdditionAddsUp | src/ec/erasure_code.cpp:86-104 | the addition routine over everything received computes the sum per parity |
| BlockRepair.RepairRestoresBlocks | src/ec/erasure_code.cpp:86-145 | any arrival order, any split, and withheld all-zero partial blocks: addition and decoding restore exactly the lost blocks |
| Decoding.ReceivedIsLostPart | src/ec/erasure_code.cpp:86-123 | what the receiver has added up before decoding is the lost blocks' contribution to each equation |
| Decoding.UndoesWhen | src/ec/erasure_code.cpp:127-145 | what is read as the inverse undoes the lost columns if and only if parities and lost blocks are equally many or at most one block is lost |
| Decoding.RestoresWhen | src/ec/erasure_code.cpp:127-145 | so decoding restores the lost blocks of every stripe under exactly that condition, when the parities of the equations used are not themselves lost |
| Decoding.ExtraParityMisleads | src/ec/erasure_code.cpp:127-145 | three parities for two lost blocks: both come out as the first one |
| LrcShape.GroupIsBid2Gid | src/ec/lrc.cpp:1312-1351 | a block belongs to exactly the group that the id arithmetic names |
| LrcMakers.AzureMatrix | src/ec/lrc.cpp:1269-1291 | Azure's in-place program fills in global rows and one row of ones per group |
| LrcProducts.ProductMatrix | src/ec/lrc.cpp:1525-1573 | the matrix-product program of the other codes yields each local row with its group's global parities folded in |
| LrcSums.SummedMatrix | src/ec/lrc.cpp:2073-2125 | the row-summing program yields the same encoding matrix |
| LrcMakers.OptimalCauchyMatrix | src/ec/lrc.cpp:2941-2993 | so does the optimal Cauchy code's own one |
| LrcFullMatrix.MakeEncodingMatrix | src/ec/lrc.cpp:1269-1291 | whichever program a code uses, the array is its encoding matrix |
| LrcFullMatrix.MakeGroupMatrix | src/ec/lrc.cpp:1293-1303 | counting through all blocks yields the matrix of one group |
| LrcFullMatrix.FullMatrix | src/ec/lrc.cpp:23-38 | the assembled array is the identity with the global rows and the group rows in their places, for all five codes |
| LrcCode.CheckedWhenEncoded | src/ec/lrc.cpp:23-48 | for all five codes the parity rows of the full matrix annihilate a word if and only if its parities are the sums written out in `LrcParities` |
| LrcCode.EncodedWordIsChecked | src/ec/lrc.cpp:23-48 | in particular they annihilate every encoded stripe, word by word |
| LrcCode.EncodedStripeIsChecked | src/ec/lrc.cpp:23-48 | the same for blocks of any size |
| LrcCode.Encode | src/ec/lrc.cpp:40-48 | each global parity is its row of the library's matrix applied to the data, each local one the sum of its group's data, in the Cauchy codes weighted by the last row, and of the group's stored global parities |
| LrcParities.LocalsTogether | src/ec/lrc.cpp:1269-1291 | all local parities of an encoded stripe add up to all the data, weighted in the Cauchy codes, and the global parities, which Azure's code leaves out |
| LrcParities.UniformLocalsTogether | src/ec/lrc.cpp:4306-4330 | in the uniform Cauchy code that is the last row applied to the data, plus all global parities |
| LrcCode.PartialFlags | src/ec/lrc.cpp:124-143 | a flag is off exactly for parities that no block of the cluster feeds |
| LrcCode.OnlyFeedersCount | src/ec/lrc.cpp:124-143 | a block that does not feed a parity has coefficient zero in its row, so nothing is lost by the flags |
| LrcCode.LostBlocksComeBack | src/ec/lrc.cpp:92-202 | end to end: encode, lose blocks, collect partial blocks in any order with flags as computed, add and decode: the lost blocks are back |
| LrcDecodable.CheckIfDecodable | src/ec/lrc.cpp:1223-1267 | accepts exactly when the data failures the local parities leave over and the lost global parities are at most g |
| LrcDecodable.SmallFailuresDecodable | src/ec/lrc.cpp:1223-1267 | any g + 1 distinct failures are accepted |
| LrcPartition.GroupingInformation | src/ec/lrc.cpp:1353-1370 | the groups list the blocks by group, parity last, global parities in a group of their own |
| LrcPartition.RandomParts | src/ec/lrc.cpp:236-259 | every block is in exactly one part, and losing any one part is accepted by the test |
| LrcOptimal.PartitionOptimal | src/ec/lrc.cpp:261-318 | every block is in exactly one part: pieces of g + 1 blocks of one group, then the groups' ends, to a part the most whose loss the global parities can make good, then the global parities, which join the ends if those are single blocks; losing any one part is accepted if and only if `OptimalIsSafe` |
| LrcOptimal.EqualGroupsAreSafe | src/ec/lrc.cpp:261-318 | `OptimalIsSafe` holds whenever l divides k |
| LrcOptimal.UnequalGroupsCanFail | src/ec/lrc.cpp:261-318 | it fails for k = 7, l = 3, g = 2 |
| LrcPlanner.HelpInGroup | src/ec/lrc.cpp:320-350 | repair inside a group: all other members of it, each once and grouped by their parts, and its parity equation |
| LrcSeveral.WithLocalPriority | src/ec/lrc.cpp:823-910 | as many equations as failures with covering helpers, or nothing when the test would refuse; every group with data failures and a live parity uses that parity, and the live global parities, in order, are as many as the groups leave over |
| LrcSeveral.WithGlobalPriority | src/ec/lrc.cpp:717-821 | the same, but a live local parity is among the equations only if every live global parity is, and then the last groups keep theirs |
| LrcRepairPlan.LocalPass | src/ec/lrc.cpp:1003-1027 | each group with a single failure repairs it, and the load on the global parities stays what it was |
| LrcRepairPlan.RepairMultiBlocks | src/ec/lrc.cpp:988-1086 | succeeds exactly when the test accepts, under either priority; then every failure is in exactly one plan, each plan has one equation per failure and live helpers that cover them and are all needed, grouped by their parts, and what has no group of its own is repaired last, by the equations of the given priority |
| LrcRepairPlan.GenerateRepairPlan | src/ec/lrc.cpp:912-945 | the same for the planner as it is called, also for a single failure |
| LrcRepairPlan.PlanRestores | src/ec/lrc.cpp:92-202 | carrying out a plan restores exactly its lost blocks: always for a local plan and for lost global parities by their own equations, otherwise when the chosen equations determine the lost blocks |
| PcLayout.Bid2RowCol | src/ec/pc.cpp:371-389 | inverts the layout: the row and column are in range and lead back to the id |
| PcLayout.LayoutRoundTrip | src/ec/pc.cpp:356-389 | every grid position has an id in range, which leads back to it |
| PcLayout.BidsApart | src/ec/pc.cpp:356-369 | different positions have different ids |
| PcCodewords.GlobalParitiesAgree | src/ec/pc.cpp:39-76 | a global parity is the same whether the column code encodes row parities or the row code column parities |
| PcCode.Encode | src/ec/pc.cpp:39-76 | in place: the data stays, and every row, parity rows included, and every column is a codeword; without global parities the first k2 rows and the first k1 columns are, and the corner is not touched (HVPC: src/ec/pc.cpp:721-747) |
| PcCode.Decode | src/ec/pc.cpp:79-195 | succeeds exactly when no set of the erased ids is stuck, and then the grid is the encoded one; otherwise everything outside the largest stopping set is restored |
| PcRepair.CheckIfDecodable | src/ec/pc.cpp:198-255 | false exactly when some of the failures are stuck: more than m1 in each of their rows that can be repaired and more than m2 in each such column, rows and columns read off the ids (HVPC, whose parity rows and columns cannot be repaired: src/ec/pc.cpp:863-920) |
| Peeling.StuckMeansStopping | src/ec/pc.cpp:214-252 | when no repairable line is within its limit, what is left is a stopping set |
| PcPlan.GenerateRepairPlan | src/ec/pc.cpp:486-589 | returns the test's verdict although it peels one row at a time; every failure is in exactly one plan; a column plan reads the first k2 readable blocks of its column, all in one group or, under flat placement, each in its own; a row plan, made only when no column is within its limit, has the row code's helpers and parities, grouped by parts |
| PcPlan.NothingBeyondParities | src/ec/pc.cpp:486-589 | without global parities no plan reads a block beyond the column parities |
| PcPartition.PartitionOptimal | src/ec/pc.cpp:453-473 | parts of m1 whole columns in order, the last perhaps of fewer, holding every block once; no part contains a stopping set, so any one can be lost (HVPC: src/ec/pc.cpp:962-989) |
| PcPartition.PartitionByRandomColumns | src/ec/pc.cpp:420-451 | the same for randomly drawn columns |
| PcPartition.ColumnsSurvive | src/ec/pc.cpp:198-255 | losing m1 whole columns leaves no stopping set, with or without global parities |
| RsRepair.PartitionOptimal | src/ec/rs.cpp:167-180 | runs of m blocks, the last perhaps shorter, each block in one, and the test of src/ec/rs.cpp:105-113 accepts the loss of any one run |
| RsRepair.HelpBlocksForMultiBlocksRepair | src/ec/rs.cpp:282-394 | exactly k distinct live helpers, the first in the order in which parts are taken (parts with failures before parts without, then by how many live blocks they have), grouped by part, and the parities among them |
| RsSingle.HelpBlocksForSingleBlockRepair | src/ec/rs.cpp:196-278 | exactly k distinct live helpers, each group from one part and non-empty; no choice of fewer other parts has enough helpers |
| RsSingle.FirstHoldMost | src/ec/rs.cpp:223-224 | of parts in descending size, no choice of so many holds more than the first ones |
| RsRestore.HelpersCoverWhen | src/ec/rs.cpp:282-394 | for lost data blocks, k helpers hold at least as many parities as there are failures, and all the other data if and only if they hold exactly as many |
| RsRestore.LostDataComeBack | src/ec/rs.cpp:84-97 | then adding up the helpers' partial parities and decoding gives the lost blocks, whatever the order of arrival |
| RsRestore.AnyHelpersGiveLost | src/ec/rs.cpp:44-68 | whatever failed and whichever k helpers were chosen, the survivors' inverse gives the lost words |
| Partitions.PartitionRandom | src/ec/rs.cpp:115-136 | random parts of bounded size hold every block once |
| LrcMerge.PlacesAreOrigins | src/coordinator/merge.cpp:514-560 | every place of the merged stripe has an origin that maps back to it |
| LrcMerge.OriginsArePlaces | src/coordinator/merge.cpp:514-560 | every kept block and new parity has a place of its own: the index map is a bijection |
| LrcMerge.AzureMerge | src/coordinator/merge.cpp:497-560 | every place is written exactly once, with its origin's node and id; new parities get fresh ids and the nodes of the first stripe's old ones |
| LrcMergeCode.AlignWhenEven | src/coordinator/merge.cpp:514-536 | the merged groups are the old groups exactly when x = 1 or l divides k |
| LrcMergeCode.LocalUnchanged | src/coordinator/merge.cpp:514-536 | then every old local parity satisfies its merged equation unchanged |
| LrcMergeCode.AlignedMergeIsEncoded | src/coordinator/merge.cpp:497-571 | with aligned groups, moved blocks and recalculated globals together are exactly what the larger code encodes |
| LrcMergeCode.SpoiledLocal | src/coordinator/merge.cpp:514-536 | with uneven groups, data for which an old local parity is zero and its merged equation wants one |
| LrcMergeCode.EncodedWhen | src/coordinator/merge.cpp:497-571 | the stripe after the merge is the larger code's for all data if and only if x = 1 or l divides k |
| LrcMergeCode.RecalculateGlobals | src/proxy/handle_merge.cpp:151-303 | the new globals equal a fresh encoding, wherever the data blocks are |
| LrcMergeCode.MergeAzure | src/coordinator/merge.cpp:497-830 | tables, recalculation and storing together, for even and uneven groups: under the id of every place is that place's old block or new global parity |
| Recalculation.ReadAll | src/proxy/handle_merge.cpp:26-190 | in whatever order the readers finish, each block or partial set has arrived under its index |
| Recalculation.MainRecal | src/proxy/handle_merge.cpp:151-303 | whichever clusters sent partial or raw blocks and in whatever order, the new parities are the right ones plus the sum of what the helpers were off |
| Deviations.RightAnywayWhen | src/proxy/handle_merge.cpp:151-303 | the parities are right whatever the helpers compute if and only if none sends partial blocks |
| RsCode.RsFullMatrix | src/ec/erasure_code.cpp:36-50 | the assembled array is the identity with the encoding rows in the parity rows |
| RsCode.ParitiesCanBeRecalculated | src/ec/rs.cpp:44-82 | the parity equations involve the data and one parity each, so any split of the data serves |
| RsCode.RecalculateLine | src/proxy/handle_merge.cpp:151-303 | for one line and helpers of any making, the parities that come out, off by the helpers' deviations |
| RsCode.LineRightAnywayWhen | src/proxy/handle_merge.cpp:151-303 | they are the line's whatever the helpers compute if and only if partial decoding is off or no help cluster has more than m of its blocks |
| PcMerge.PlacesAreOrigins | src/ec/pc.cpp:391-406 | every place of the wider stripe is an old kept block's or a new row parity's |
| PcMerge.OriginsArePlaces | src/ec/pc.cpp:391-406 | and those places are all different |
| PcMerge.HorizontalMerge | src/coordinator/merge.cpp:958-1163 | every place is written exactly once, new parities have fresh distinct ids, and each row's plan names its data columns once, in order |
| PcMergeCode.ParityColumn | src/coordinator/merge.cpp:1139-1163 | the recalculated parity columns are column codewords, though the column code is never applied to them |
| PcMergeCode.MergedIsCodeword | src/coordinator/merge.cpp:958-1163 | the merged stripe is a codeword of the wider code, in all rows and all columns |
| PcMergeCode.MergeStripes | src/coordinator/merge.cpp:958-1163 | tables, recalculation and storing together, when no help cluster sends partial blocks: under the id of every place is that place's block of the merged codeword |
| PcMergeCode.RowRightAnywayWhen | src/coordinator/merge.cpp:1397-1422 | a row's new parities are right whatever the mistyped help plans lead to if and only if no help cluster sends partial blocks |
| PcMergeCode.TwoBlocksMislead | src/coordinator/merge.cpp:1397-1422 | m1 = 1, partial decoding, two blocks of a row on one help cluster: not right |
| ReadBack.FindObject | src/coordinator/coordinator.cpp:283-297 | the offset is the blocks of the objects before; in a merged stripe also the object's number and how many there are |
| ReadBack.BlocksToRead | src/proxy/proxy.cpp:481-510 | the two running counters compute the row and column of each block by division, and as many blocks are read as the object has or the stripe has left |
| ReadBack.WholeStripesReadRight | src/proxy/proxy.cpp:499-510 | objects that fill a stripe each: block j is read from exactly where block j of the old stripe was moved |
| ReadBack.SeveralRowsMisread | src/proxy/proxy.cpp:499-510 | with several objects in an old stripe and several data rows, some object is read from a wrong place |
| ReadBack.ReadsRightWhen | src/proxy/proxy.cpp:499-510 | objects of any lengths filling the old stripes are all read right if and only if each stripe holds one object, or there is one data row and all objects are equally long |
| ReadBack.GetMerged | src/proxy/proxy.cpp:481-540 | after `MergeStripes`, reading an object gives its old stripe's data blocks, in order |
| ReadBack.AzureObjectReadsRight | src/proxy/proxy.cpp:498-499 | in merged Azure stripes, objects of any length are read from where their blocks were moved |
| ObjectStripes.AssignObjects | src/coordinator/coordinator.cpp:126-139 | the first stripe gets the fewest first objects that fill it, every later stripe none |
| ObjectStripes.AllAssignedWhen | src/coordinator/coordinator.cpp:126-139 | every object has a stripe if and only if all but the last are shorter than one stripe together |
| Placement.PlacePart | src/coordinator/placement.cpp:118-129 | the blocks of a part go to different nodes of one cluster, which fails exactly when there are too few |
| Placement.SelectNodesByRandom | src/coordinator/placement.cpp:91-134 | each part gets a cluster of its own out of the free ones, which it then uses up; fails exactly when clusters or nodes run out |
| Placement.PartsAreSpread | src/coordinator/placement.cpp:91-134 | all nodes are different, and two blocks share a cluster if and only if they share a part |
| MergeGroups.Coordinator.GeneratePlacement | src/coordinator/placement.cpp:6-82 | places a stripe with fresh block ids into its merge group, exactly when clusters and nodes suffice, keeping stripes of one dispersed group on disjoint clusters |
| ClusterLoss.LostIsPart | src/coordinator/placement.cpp:91-134 | the blocks lost with a cluster are none, or exactly one part |
| ClusterLoss.AzureSurvivesCluster | src/coordinator/placement.cpp:35-82 | losing any one cluster leaves a placed Azure stripe decodable |
| ClusterLoss.RsSurvivesCluster | src/coordinator/placement.cpp:35-82 | and a Reed-Solomon stripe |
| ClusterLoss.PcSurvivesCluster | src/coordinator/placement.cpp:35-82 | and a product-code stripe |

## Left out

- Integers are unbounded; the widths of the program's counters are not modelled.
- jerasure (matrix inversion, Vandermonde and Cauchy generation, decoding) is not part of this model: its matrices, inverses and MDS line decoders are parameters with the property that is needed of them.
- Decoding.RestoresWhen: supposes that the parities whose equations are used are not lost; `UndoesWhen` is the same condition without that, on the matrices.
- LrcFullMatrix.FullMatrix: for the optimal Cauchy code needs `(l-1)*r < k`, as its group sizes disagree otherwise; for the other codes it needs nothing.
- LrcFullMatrix.MakeGroupMatrix: the same.
- LrcOptimal.PartitionOptimal: supposes a global parity and some data in the last group.
- LrcCode.LostBlocksComeBack: leaves out the optimal Cauchy code, which overrides the flags (src/ec/lrc.cpp:2681-2740).
- LrcRepairPlan.PlanRestores: for plans of several equations takes it from the caller that they determine the lost blocks, which depends on the library's matrices.
- LrcRepairPlan.GenerateRepairPlan: models partial_scheme false and the first repair method; the second method, the flow-repair planners with chunk caps, and the planners of the other four codes are left out.
- LrcRepairPlan.RepairMultiBlocks: the same.
- RsSingle.HelpBlocksForSingleBlockRepair: presupposes that partitions have been made; without any the program returns no helpers.
- SendPipeline.ErrorFreeRunSendsAll: the warm-up transfers of round 0 are steps of the model, but carry no task of the table.
- LrcMerge.AzureMerge: the relocation of blocks after a merge, with its retries of random nodes, is left out; so are the lists of clusters holding a stripe.
- PcMerge.HorizontalMerge: the vertical branch and merging without global parities are left out; the order in which rows come out of the hash table is arbitrary here.
- PcMergeCode.MergeStripes: how each row's blocks are grouped by cluster is a parameter, any split without partial blocks being allowed.
- LrcMergeCode.MergeAzure: the same, any split being allowed; the new parities are stored where the tables put them before any relocation.
- ReadBack.GetMerged: covers merged stripes whose old stripes held one object each, the case in which `ReadsRightWhen` has them read right for any code. The degraded read that follows a failed read looks blocks up by a different key than it stores them under (src/proxy/proxy.cpp:530-556) and is left out.
- Partitions.PartitionRandom: folding extra parts into others when there are more than clusters (src/ec/rs.cpp:138-164) is left out.
- MergeGroups.Coordinator.GeneratePlacement: covers dispersed and flat or random placement; the aggregated, vertical and horizontal rules are left out. A failed assertion ends the program; here it is a result.
- PcCode.Decode: without global parities the corner of the grid is kept as unused cells.
- std::sort does not fix the order of equal partitions; the model takes one such order, and nothing proved depends on it.
- Azu_LRC::check_parameters (src/ec/lrc.cpp:1305-1310) is never called; as written it accepts only parameters that leave the last group without data.
- RPC, sockets, timing, logging, timelines, configuration, the XML parser, the client and the key-value store of the data nodes.
