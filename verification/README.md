# Indexed, shared and merged steps: a model of sbio

sbio reads scientific event streams whose index is rebuilt one batch at a time, and hands the steps of that index to
threads, MPI ranks, and threads inside of ranks. This project models the parts whose correctness spans several
operations, and proves what they promise. Each part is measured against an obvious specification: one pass over a
file, one sort by time, a deal of blocks, a linear search.

- **The stream index.** `StepTable` says what a batch of rows means for the whole history of a stream and why carrying
  and appending rows keeps it. `StreamBrokers` is the broker of `broker.hh`: the resumable scan through a bounded
  scratch buffer, the hinted searches, moving to the next file. `Alignment` maps steps of one kind to another,
  `IndexChains` follows a chain of files, and `PayloadRanges` reads the payloads of consecutive steps.
- **Time order.** `Chronology` is the incremental k-way merge, `DataSources` drives it together with reindexing, and
  `SerialIterations` puts everything into one end-to-end statement.
- **Handing out steps.** `Dealing` is the specification: windows cut into blocks that are dealt round-robin.
  `SerialHandOut` and `RankHandOut` are the sequential policies, `ThreadedHandOut` and `WindowHandOut` the lock-free
  ones, `WindowProgress` says what the calls of the latter come back with and when a rank departs, and `NodeProtocol` is the protocol between the ranks of a node that share index windows. `Reindexing` holds
  the trigger as the policies see it.
- **Groups and zips.** `ChronoBatches` locates steps in a group's brokers and in fetched data, `TopologyBuild` builds
  the group's segments, `ZipPlan` plans the fetches of zipped groups, `ZipRanges` says when sharing them is right, and
  `SourceSets` iterates sources in lockstep.
- **The inventory.** `KeySort` and `Inventory` are registration, sorting and lookup of metadata.

Objects that the source updates in place are classes here, with the same fields and loops. The three concurrent
protocols are transition systems: one step is one access to one shared variable, or one message sent or received, and
any thread or rank may take the next step. Ghost fields, and in those systems the log of batches and the list of
published windows, only record what happened; the list of future capacities and the plan of publications say what
the trigger is going to do.

## What the proofs found

Where the code does not do what its comments say, the model follows the code, a concrete input or run shows the
difference, and the exact condition is proved.

- A chain of files is not always indexed to its end. Bytes after the last unit of a file keep it from counting as
  complete, and the next file is never opened (`IndexChains.TrailingBytesHideChunk`); and if a new file comes while a
  unit of the old one still starts a chunk, that unit and those behind it are lost (`IndexChains.NewFileHidesMarkedStep`).
  `IndexChains.AlwaysWhole` has the condition, for all row capacities.
- For a reference that was carried over from an earlier batch, the search for the preceding step of another kind goes
  by row position, although carried rows lie by kind and not by time (`Alignment.CarriedReferenceGoesWrong`, with the
  condition in `Alignment.CarriedReference`).
- The serial policy ends early when a trigger returns true without adding steps; the other policies ask again
  (`ThreadedHandOut.SerialStopsAtStall`, with the condition in `SerialHandOut.FirstRunIsAll` and
  `ThreadedHandOut.SameAsSerial`). The trigger of a merging source never does that
  (`DataSources.DataSource.MergeTrigger`).
- Ranks copy the right catalogs only if no trigger publishes a broker's window twice. When one does, as it may while
  it skips files without steps, a rank can copy a catalog that is being rewritten (`NodeProtocol.CopyGoesWrong`, with
  the condition in `NodeProtocol.CopiesRightExactly`).
- Ranks may get further ahead of the indexing rank than one trigger, when a trigger publishes nothing
  (`NodeProtocol.RanksDrift`, with the condition in `NodeProtocol.EpochsCloseExactly`).
- Zipped groups share a fetch when broker, pattern and step mapping agree. That is enough for steps over a merged
  order (`ZipRanges.MergedSharersSame`), but not for steps dealt round-robin, nor for steps that every broker has,
  which a group takes from its first broker: the fetch of such a zip succeeds and a group's data is missing
  (`ZipRanges.SharedRangeIsLost`). The conditions for each kind of group are in `ZipRanges`, and what they mean for
  the buffers in `ZipPlan.FilledIsInPlace`.
- A range is read as one span when its first and last step allow it, whatever lies between
  (`PayloadRanges.SpanMisses`, with the condition in `PayloadRanges.ReadsHoldAll`).

## Model

| member | source | states |
|---|---|---|
| StreamBrokers.StreamBroker.GenericIndex | src/lib/sbio/core/broker.hh:988-1138 | one call indexes a prefix of what a single pass over the file would still find, from where the last call stopped: old steps plus the pass from the old position equal new steps plus the pass from the new position; the new steps are of units of the current file, of which only the first may start a chunk; the status says exactly when the row array is full, the file is at its end, or a unit does not fit the scratch buffer; the refill loop terminates |
| StreamBrokers.StreamBroker.ScanBuffer | src/lib/sbio/core/broker.hh:1058-1113 | one filled scratch buffer is parsed as the file itself would be, up to a unit that is cut off, is not a step, starts a chunk, or finds no row left |
| StreamBrokers.StreamBroker.ScanFile | src/lib/sbio/core/broker.hh:1047-1125 | the refill loop as a whole keeps that agreement with the single pass, ends, and reports a unit that never fits |
| StreamBrokers.StreamBroker.CarryRows | src/lib/sbio/core/broker.hh:1017-1041 | only the last row of each kind is kept, at the front, in the order of kinds, with its ordinal and step, and each list is that one row |
| StreamBrokers.StreamBroker.PushRow | src/lib/sbio/core/broker.hh:1086-1106 | appending a row links it behind the last of its kind and keeps every list, ordinal and count right for the longer history |
| StepTable.PushKeepsGood | src/lib/sbio/core/broker.hh:1086-1106 | the per-kind doubly linked lists, the ordinals and the cumulative counts describe the whole history after one more step |
| StepTable.CarryKeepsGood | src/lib/sbio/core/broker.hh:1017-1041 | and they still do after all but the last row of each kind were dropped |
| StreamBrokers.BatchesConcatenate | src/lib/sbio/core/broker.hh:988-1138 | for any number of calls, row capacity and scratch size, the batches end to end are the start of the single-pass parse, and the remaining pass completes it |
| StreamBrokers.BatchesKeepWhole | src/lib/sbio/core/broker.hh:988-1138 | at every point of a run the whole parse is what was indexed plus what is still to come |
| StreamBrokers.OneCallIsEnough | src/lib/sbio/core/broker.hh:988-1138 | a call that has rows for everything, scratch for every unit, and no unit in its file that starts a chunk, indexes all of the file |
| StreamBrokers.RoomNeverFails | src/lib/sbio/core/broker.hh:1043-1045 | with more rows than kinds, and scratch space for every unit that remains, no later call can be out of room |
| StreamBrokers.StreamBroker.FindRow | src/lib/sbio/core/broker.hh:955-985 | for any hint: succeeds exactly for the retained ordinals of the kind, with the row that holds the step of that ordinal in the whole history; past the history and before the window are told apart |
| StreamBrokers.StreamBroker.Preceding | src/lib/sbio/core/broker.hh:826-868 | for a reference scanned in the current batch: the latest step of the other kind at or before it in the whole history, whatever the cursor holds; no answer exactly when there is none; and for every retained reference, the ordinal of the nearest row of the other kind at or before its row |
| StreamBrokers.StreamBroker.AdvanceChunk | src/lib/sbio/core/broker.hh:421-455 | a new file is scanned from its start, an unchanged one goes on; ordinals and rows are kept |
| StreamBrokers.StreamBroker.VisitSteps | src/lib/sbio/core/broker.hh:755-764 | visits consecutive ordinals of the kind up to its last, each with the key that the history has, covering everything retained |
| StepTable.RowOfRetained | src/lib/sbio/core/broker.hh:955-985 | every retained step of a kind has a row |
| StepTable.RowIsRetained | src/lib/sbio/core/broker.hh:955-985 | and every row is of a retained step |
| StepTable.NearestRowCounts | src/lib/sbio/core/broker.hh:842-859 | the nearest row of a kind before a row of the current batch counts the steps of that kind before it in the whole history |
| PayloadRanges.FetchRange | src/lib/sbio/core/broker.hh:1182-1252 | the payloads of consecutive ordinals are read either as one span or one by one, in order; if the steps are in the index, truncation is reported exactly when neither the span from the first to the last nor the lengths of all payloads together fit the buffer; a missing ordinal exactly when it is not in the index any more, or not yet |
| PayloadRanges.ReadsExactly | src/lib/sbio/core/broker.hh:1210-1239 | something is read exactly when the payloads fit in one of these ways, and one by one whenever they fit so and not as a span |
| PayloadRanges.ReadSteps | src/lib/sbio/core/broker.hh:1228-1240 | following the list of the kind reads exactly the regions of the steps, or stops when they do not fit |
| PayloadRanges.ReadsHoldAll | src/lib/sbio/core/broker.hh:1210-1226 | what was read holds every step exactly when, for one span, each payload is in the stream of the first, starts no earlier than it and ends no later than the last |
| PayloadRanges.PayloadInPlace | src/lib/sbio/core/broker.hh:1210-1240 | after the reads the bytes of each such payload are in the buffer, as far behind its start as the payload is behind the first one for one span, or behind the payloads before it |
| PayloadRanges.SpanMisses | src/lib/sbio/core/broker.hh:1210-1226 | three indexed steps of one stream, out of order, are fetched with success and without the second one |
| PayloadRanges.SpanMissesStream | src/lib/sbio/core/broker.hh:1210-1226 | a payload of another stream between the first and the last is missed too |
| PayloadRanges.InOrderIsHeld | src/lib/sbio/core/broker.hh:1210-1226 | payloads that follow each other in one stream are all held |
| Alignment.Segment.MapStep | src/lib/sbio/core/topology.hh:398-418 | an aligned step of the current batch maps to the latest step of the segment's kind at or before the reference in the whole history, a carried one by the nearest row, any other step to itself |
| Alignment.Segment.MapBatch | src/lib/sbio/core/broker_group.hh:1160-1182 | the range that a batch maps onto: from the image of its first step to that of its last, both of the whole history; an empty batch stands for its first step |
| Alignment.Segment.BatchSlot | src/lib/sbio/core/broker_group.hh:1191-1208 | a step's slot is the distance of its image from that of the first step, independent of the cursor |
| Alignment.LatestIsLatest | src/lib/sbio/core/broker.hh:826-868 | the count that the code computes is the latest step at or before the reference, and there is none only if none came before |
| Alignment.LatestAscends | src/lib/sbio/core/broker_group.hh:1160-1182 | later references map to later or equal steps |
| Alignment.SlotsAscendInRange | src/lib/sbio/core/broker_group.hh:1191-1208 | slots never decrease along a batch and stay inside the fetched range |
| Alignment.CarriedReference | src/lib/sbio/core/broker.hh:842-859 | for a carried reference row the nearest row is right if and only if the other kind is the same, or is stored before it and had no step since, or is stored after it and had none before |
| Alignment.CarriedReferenceGoesWrong | src/lib/sbio/core/broker.hh:842-859 | a broker that indexed steps of kinds 0, 1, 0, and then nothing more, answers for the step of kind 1 with the step of kind 0 that follows it |
| Chronology.ChronologicalOrder.Merge | src/lib/sbio/core/chronology.hh:140-168 | places as many pending steps as can be placed, each the least by (key, broker) of those waiting, and stops only when a broker that may still produce a step has none waiting, or nothing waits |
| Chronology.ChronologicalOrder.Add | src/lib/sbio/core/chronology.hh:126-133 | a step enters the queue of its broker once: known ordinals are skipped |
| Chronology.ChronologicalOrder.SetExhausted | src/lib/sbio/core/chronology.hh:113-113 | marks the one broker and changes nothing else |
| Chronology.ChronologicalOrder.Locate | src/lib/sbio/core/chronology.hh:90-98 | a step is found exactly when it was merged, at its place in the order |
| Chronology.MergedIsPrefixOfSort | src/lib/sbio/core/chronology.hh:126-168 | under every legal interleaving of add, set_exhausted and merge the order is a prefix of one sort of all steps by (key, broker, ordinal), and all of it once every broker is exhausted and merged |
| Chronology.CompleteRunsAgree | src/lib/sbio/core/chronology.hh:126-168 | batch sizes and interleaving never show: a complete run's order extends the order of every other run over the same streams |
| Chronology.FullOrderExists | src/lib/sbio/core/chronology.hh:126-168 | the one sorted order exists for all streams in time order |
| Chronology.MergeIsMaximal | src/lib/sbio/core/chronology.hh:140-168 | a merge stops only where the next step is not certain, and never takes a placement back |
| Chronology.MergeTakesPending | src/lib/sbio/core/chronology.hh:140-168 | what a merge places was waiting, and what still waits was waiting before |
| Chronology.AddedAllConsecutive | src/lib/sbio/core/datasource.hh:780-782 | adding a batch that repeats carried steps leaves exactly the new ones waiting |
| IndexChains.CallIsIndexed | src/lib/sbio/core/broker.hh:1064-1125 | a call that fits its scratch buffer indexes exactly the steps up to the next unit that starts a chunk, to the end of the parse, or until its rows are full |
| IndexChains.ChainIsWhole | src/lib/sbio/core/datasource.hh:804-810 | with rows to spare, a chain is indexed whole if and only if no file that ends in bytes which form no unit has steps in the files behind it, and no new file comes while a unit of the old one still starts a chunk |
| IndexChains.AlwaysWhole | src/lib/sbio/core/datasource.hh:804-810 | and that is also exactly when it is indexed whole whatever row capacity each call has |
| IndexChains.TrailingBytesHideChunk | src/lib/sbio/core/datasource.hh:750-760 | trailing bytes that are no unit keep the next file from ever being indexed |
| IndexChains.NewFileHidesMarkedStep | src/lib/sbio/core/broker.hh:421-455 | a step that starts a chunk is never indexed if a new file follows instead of the rest of its file |
| IndexChains.ProperIsReached | src/lib/sbio/core/datasource.hh:750-760 | where only the last file of a chain has units that start a chunk, the steps that are indexed are the same whatever the row capacity |
| IndexChains.ChainIsPrefix | src/lib/sbio/core/datasource.hh:804-810 | and they are the first ones of the chain |
| IndexChains.IndexKeepsChain | src/lib/sbio/core/broker.hh:988-1138 | indexing a batch moves steps from what the chain still holds to the history, losing none |
| IndexChains.AdvanceKeepsChain | src/lib/sbio/core/datasource.hh:750-760 | moving to the next file loses none either |
| DataSources.DataSource.AdvanceChunkIfDone | src/lib/sbio/core/datasource.hh:750-760 | moves to the next file exactly when the current one is complete and another is waiting |
| DataSources.DataSource.IndexChain | src/lib/sbio/core/datasource.hh:800-810 | indexing goes on through files without steps, terminates, and keeps the chain's steps; it ends without a step only when none is left in the file and no chunk can be moved to, and truncated exactly when rows or scratch do not suffice |
| DataSources.DataSource.AddIndexedSteps | src/lib/sbio/core/datasource.hh:767-783 | the new steps of the distributed kind wait in the merge, each once |
| DataSources.DataSource.IndexBroker | src/lib/sbio/core/datasource.hh:800-818 | a broker is indexed only with nothing of it waiting, so no waiting step loses its row; it is exhausted only when no step is left that it can move to, or it cannot be read; and the work left shrinks |
| DataSources.DataSource.IndexAll | src/lib/sbio/core/datasource.hh:794-820 | exactly the brokers that may be indexed are, and every other is left as it is |
| DataSources.DataSource.MergeTrigger | src/lib/sbio/core/datasource.hh:792-830 | terminates; returns true exactly when the capacity grew; every step between the old and the new capacity is located in a broker whose current rows hold it; nothing that could be placed is left waiting; false only when every broker is exhausted with nothing waiting |
| DataSources.DataSource.DiscoverMerging | src/lib/sbio/core/datasource.hh:322-366 | ends with success exactly when the first call on every broker finds a step and has room and scratch for all that it comes to, and otherwise as the first broker's that does not; so it succeeds for ready brokers with a step in their files; then every step below the capacity can be fetched, nothing that could be placed is left waiting, and the merge stands to the streams as it should |
| StreamBrokers.TruncatesExactly | src/lib/sbio/core/broker.hh:1047-1125 | a call ends at a unit that does not fit the scratch buffer exactly when it comes to one before its rows are full, the parse ends, or a further chunk starts |
| DataSources.DataSource.OrderIsSort | src/lib/sbio/core/datasource.hh:792-830 | at any time the merged steps start the one sort by time of all steps of all files, and are all of it once the trigger returned false |
| SerialIterations.SerialIteration.NextBatch | src/lib/sbio/core/datasource.hh:401-413 | over a merging source each batch starts where the last ended, is of full size or ends the window, and every step of it can be fetched when it is handed out; brokers are indexed further only when the window is used up; none is left when there is no batch |
| SerialIterations.SerialIteration.FetchStep | src/lib/sbio/core/topology.hh:588-602 | a handed out step leads to the row of its ordinal in its broker's current index |
| SerialIterations.SerialIteration.IterateAll | src/lib/sbio/core/datasource.hh:401-413 | end to end: indexing, merging, handing out and finding rows visit every step of every stream exactly once, in the order of one sort by time, in batches that lie end to end |
| Dealing.DealPartitions | src/lib/sbio/execution/mpi.hh:599-640 | for any capacities and block size the blocks lie end to end from 0 to the capacity, none is empty or too long, none crosses the end of a window |
| Dealing.StepHasOneOwner | src/lib/sbio/execution/mpi.hh:599-640 | every step below the capacity is in exactly one batch of exactly one worker |
| Dealing.BlockHasOneOwner | src/lib/sbio/execution/mpi.hh:599-607 | block g goes to worker g mod the number of workers, as its block g div that number |
| Dealing.ShareCounts | src/lib/sbio/execution/mpi.hh:599-607 | a worker's j-th block exists exactly when j is less than its share |
| Dealing.SharesAreFair | src/lib/sbio/execution/mpi.hh:599-607 | any two workers' shares differ by at most one |
| Dealing.StepInOneBlock | src/lib/sbio/execution/mpi.hh:633-638 | every step below the capacity lies in exactly one block |
| Dealing.CutAt | src/lib/sbio/execution/mpi.hh:605-607 | block i of a window starts i sizes after the window, and their number is the rounded-up quotient that the code adds |
| Reindexing.WindowBlock | src/lib/sbio/execution/mpi.hh:613-616 | block k of the current window is the block of the whole deal that comes k after those of earlier windows |
| Reindexing.AtNext | src/lib/sbio/execution/serial.hh:158-169 | a counter below the capacity stands at the next block of the deal, and the step computed moves it one block on |
| SerialHandOut.SerialDistribution.NextIndex | src/lib/sbio/execution/serial.hh:113-133 | the next index below the capacity, after one trigger at most; none at the end of the source or when the trigger added nothing |
| SerialHandOut.SerialDistribution.NextBatch | src/lib/sbio/execution/serial.hh:154-170 | the j-th batch is the j-th block of the deal |
| SerialHandOut.Drain | src/lib/sbio/execution/serial.hh:154-170 | a caller that stops at the first empty batch receives exactly the deal up to the first trigger that returned true without adding steps |
| SerialHandOut.FirstRunIsAll | src/lib/sbio/execution/serial.hh:113-133 | that is everything if and only if no capacity grows after such a trigger |
| RankHandOut.RankDistribution.NextBatch | src/lib/sbio/execution/mpi.hh:573-640 | with no communication, a rank's j-th batch is block worker + j * workers of the deal over all windows; there is none exactly when the rank left before its share was used up, or has no block left in any window; the trigger is asked only when the window has none |
| RankHandOut.RankDistribution.MoveWindow | src/lib/sbio/execution/mpi.hh:611-631 | moving to the next window leaves the rank's next block the same |
| RankHandOut.RankDistribution.NextStep | src/lib/sbio/execution/mpi.hh:515-549 | a rank's k-th single step is worker + k * workers, and there is none only past the last capacity |
| RankHandOut.RankDistribution.EndIteration | src/lib/sbio/execution/mpi.hh:647-662 | a rank that leaves before its share is used up departs for good |
| ThreadedHandOut.StepInv | src/lib/sbio/execution/threaded.hh:323-411 | one access of any thread keeps the invariant of the protocol: counter, capacity, mutex, in-flight count, what each thread has loaded |
| ThreadedHandOut.HandedOutInOrder | src/lib/sbio/execution/threaded.hh:323-411 | in every reachable state the batches handed out are the first blocks of the deal, end to end from 0 to the counter; the counter is within the shared capacity; what is in flight is what is held or being claimed; no two threads hold the same block; exhausted means everything was handed out |
| ThreadedHandOut.EmptyMeansAll | src/lib/sbio/execution/threaded.hh:408-410 | in every reachable state, a call comes back without a batch only when everything was handed out |
| ThreadedHandOut.CallAlone | src/lib/sbio/execution/threaded.hh:323-411 | a call while no other thread is in the policy or holds a batch comes back with the next block of the deal, through however many triggers that add nothing, and without a batch exactly when no block is left |
| ThreadedHandOut.EndGivesBack | src/lib/sbio/execution/threaded.hh:444-455 | a thread that ends its iteration gives back what it holds |
| ThreadedHandOut.NoClaimWhileReindexing | src/lib/sbio/execution/threaded.hh:372-393 | between the check that nothing is in flight and the store of the new capacity no thread holds a batch and no step of any thread hands one out |
| ThreadedHandOut.SameAsSerial | src/lib/sbio/execution/threaded.hh:323-411 | the serial policy hands out the same batches if and only if no capacity grows after a trigger that added nothing |
| ThreadedHandOut.SerialStopsAtStall | src/lib/sbio/execution/serial.hh:115-130 | three capacities for which the serial policy stops early |
| ThreadedHandOut.DrainWaitsForOthers | src/lib/sbio/execution/threaded.hh:372-374 | a thread that waits for batches to come back never waits for itself |
| ThreadedHandOut.NoDeadlock | src/lib/sbio/execution/threaded.hh:323-411 | once no batch is held, some thread inside the policy can go on |
| ThreadedHandOut.EveryRunEnds | src/lib/sbio/execution/threaded.hh:323-411 | under any schedule, and without exchanges that fail for no reason, the steps that change anything are bounded by what is left to hand out and the number of calls: retries and the mutex never keep threads busy forever |
| ThreadedHandOut.HeldInWindow | src/lib/sbio/execution/threaded.hh:372-393 | in every reachable state the steps of a batch that a thread holds are in the current index window |
| WindowHandOut.StepInv | src/lib/sbio/execution/mpi_threaded.hh:786-916 | one access of any thread of a rank keeps the invariant of the protocol, through joining, leaving, claiming and publishing a window |
| WindowHandOut.RoundsGivenOnce | src/lib/sbio/execution/mpi_threaded.hh:786-916 | in every reachable state the k-th batch of the rank is block worker + k * workers of the deal over all windows; held batches are different; in-flight and active counts are exact; exhausted means that the rank's share was handed out |
| WindowHandOut.SeqlockReads | src/lib/sbio/execution/mpi_threaded.hh:815-840 | the four fields of a window that was read while its version stood still are one published window |
| WindowHandOut.ClaimsInCurrentWindow | src/lib/sbio/execution/mpi_threaded.hh:906-914 | an exchange of the round that succeeds was decided on the window as it is then, and receives the rank's next block |
| WindowHandOut.NoClaimWhileReindexing | src/lib/sbio/execution/mpi_threaded.hh:872-901 | from the check that nothing is in flight until the new window is published nobody holds a batch and no step of any thread hands one out |
| WindowHandOut.DepartedIsFinal | src/lib/sbio/execution/mpi_threaded.hh:946-957 | once a rank departed none of its threads iterates, holds or claims, and none joins again |
| WindowHandOut.NoDeadlock | src/lib/sbio/execution/mpi_threaded.hh:786-916 | once no batch is held, some thread inside the policy can go on |
| WindowHandOut.RetriesMeanProgress | src/lib/sbio/execution/mpi_threaded.hh:806-916 | a thread goes back to the head of its loop only because another got ahead: an odd version is being changed by a thread that does not wait, a window is read again only after a publication or a claim, and an exchange fails only after a claim |
| WindowHandOut.FailureMeansClaims | src/lib/sbio/execution/mpi_threaded.hh:904-914 | in any run, between the load of a round and the failing exchange of it, exchanges of other threads succeeded |
| WindowHandOut.HeldInWindow | src/lib/sbio/execution/mpi_threaded.hh:872-901 | in every reachable state the steps of a batch that a thread holds are in the current index window |
| WindowHandOut.RanksPartition | src/lib/sbio/execution/mpi_threaded.hh:786-916 | when all ranks are exhausted, whatever their threads did, each step below the last capacity is in exactly one batch of one rank |
| WindowProgress.CallReturns | src/lib/sbio/execution/mpi_threaded.hh:795-916 | in any run, a call comes back without a batch only if the rank is exhausted or departed |
| WindowProgress.CallAlone | src/lib/sbio/execution/mpi_threaded.hh:786-916 | a call while no other thread of the rank is in the policy or holds a batch comes back with the rank's next block, and without a batch exactly when none is left or the rank departed |
| WindowProgress.LastLeaverDeparts | src/lib/sbio/execution/mpi_threaded.hh:937-957 | in any run, once threads took part and the last of them has left, the rank is departed unless it is exhausted |
| WindowProgress.EndAlone | src/lib/sbio/execution/mpi_threaded.hh:937-957 | a thread that ends its iteration while the others rest leaves, counts itself out, and as the last one makes the rank depart unless it is exhausted |
| WindowProgress.NothingMore | src/lib/sbio/execution/mpi_threaded.hh:795-804 | in any run, a rank that is exhausted or departed hands out nothing any more |
| WindowProgress.EveryRunEnds | src/lib/sbio/execution/mpi_threaded.hh:806-916 | under any schedule the steps that change anything are bounded by what is left to hand out, the number of calls, and how often threads look at a version that another one is changing |
| WindowProgress.TriggersBeforeExhausted | src/lib/sbio/execution/mpi_threaded.hh:848-885 | in every reachable state, no thread is on its way to the trigger once the rank is exhausted |
| WindowHandOut.FirstBlock | src/lib/sbio/execution/mpi_threaded.hh:832-837 | in a settled window a round's first step is below the capacity exactly when the rank has that block in the deal, and then it is that block |
| WindowHandOut.TurnBase | src/lib/sbio/execution/mpi_threaded.hh:892-899 | the base stored with a new window makes the rank's next block the one that the deal gives it |
| NodeProtocol.StepInv | src/lib/sbio/execution/mpi_threaded.hh:1047-1075 | one message or access of any rank keeps the invariant of the node protocol: messages in flight, counters, sequence numbers and window contents |
| NodeProtocol.RunInv | src/lib/sbio/execution/mpi_threaded.hh:1047-1075 | hence every run of every node does |
| NodeProtocol.NobodyReadsWhileRewriting | src/lib/sbio/execution/mpi_threaded.hh:877-880 | while the indexing rank rewrites a window every other rank is in the same trigger or left: none iterates over the old one |
| NodeProtocol.SeesWhenPublished | src/lib/sbio/execution/mpi_threaded.hh:594-599 | a rank gets past its wait exactly when the publication that it counts was made |
| NodeProtocol.NoneSince | src/lib/sbio/execution/mpi_threaded.hh:594-607 | while a rank copies a window, that window is not being rewritten and was not since the publication that the rank counted, when no trigger publishes a window twice |
| NodeProtocol.CopiesRightExactly | src/lib/sbio/execution/mpi_threaded.hh:558-609 | in every run each rank copies exactly what was published for it, if and only if no trigger publishes a window twice |
| NodeProtocol.CopyGoesWrong | src/lib/sbio/execution/mpi_threaded.hh:594-606 | for every plan that publishes a window twice in a trigger, a run in which a rank copies a catalog that is being rewritten |
| NodeProtocol.IdleHoldsLastCopies | src/lib/sbio/execution/mpi_threaded.hh:594-609 | while a rank iterates, nothing was published that it did not copy, no window is being rewritten, and each window holds what the rank copied of it last |
| NodeProtocol.EpochsCloseExactly | src/lib/sbio/execution/mpi_threaded.hh:1059-1074 | in all runs ranks stay within one trigger of the indexing rank, if and only if every trigger between the first and the last publishes something |
| NodeProtocol.RanksDrift | src/lib/sbio/execution/mpi.hh:736-764 | for every plan with a trigger in between that publishes nothing, a run in which a rank gets two triggers ahead |
| NodeProtocol.LeaverDeparts | src/lib/sbio/execution/mpi_threaded.hh:937-966 | a rank that leaves owes the indexing rank the releases of the triggers it finished, then its departure, and nothing else |
| NodeProtocol.DepartureIsNoted | src/lib/sbio/execution/mpi_threaded.hh:1047-1080 | it stays out, and the indexing rank notes it exactly when it receives the departure |
| NodeProtocol.IndexerDeparts | src/lib/sbio/execution/mpi_threaded.hh:968-980 | an indexing rank that leaves has left at once when no other rank iterates, and otherwise waits for the others |
| NodeProtocol.RunLeftRightly | src/lib/sbio/execution/mpi_threaded.hh:968-980 | in every run an indexing rank that left does not iterate again, and runs triggers only while other ranks iterate |
| NodeProtocol.SomeRankCanStep | src/lib/sbio/execution/mpi_threaded.hh:933-980 | in every reachable state with a rank that is neither exhausted nor departed, some rank can step; a departed indexing rank goes on for the others |
| NodeProtocol.EveryRunEnds | src/lib/sbio/execution/mpi.hh:649-685 | every run without idle waiting is bounded, whoever leaves early, and where it cannot go on every rank is exhausted or departed |
| ChronoBatches.LocateStep | src/lib/sbio/core/topology.hh:568-610 | the loop over the group's brokers finds the first position of the step's broker, or none |
| ChronoBatches.OrdinalCounts | src/lib/sbio/core/topology.hh:568-610 | a located step's ordinal is the number of earlier steps at the same position: in a merged order, round-robin, and where every broker has the step |
| ChronoBatches.ChronoBatch.Fill | src/lib/sbio/core/broker_group.hh:1269-1287 | each position gets the first and last of the consecutive ordinals that it holds of the batch, and is marked exactly if it holds any; fails exactly if a step cannot be located |
| ChronoBatches.OrdinalsAreConsecutive | src/lib/sbio/core/broker_group.hh:1294-1315 | per kind, a position fetches as many ordinals as it holds steps of the batch |
| ChronoBatches.FetchedIsBatch | src/lib/sbio/core/broker_group.hh:1294-1315 | the lengths that the positions fetch add up to the batch |
| ChronoBatches.SlotIsOwnPlace | src/lib/sbio/core/broker_group.hh:1342-1371 | per kind, a step's slot is the number of earlier steps of the batch at its position, inside what is fetched, and the ordinal there is its own |
| ChronoBatches.AlignedSlotInside | src/lib/sbio/core/broker_group.hh:1342-1371 | aligned to another kind, the slot lies inside what the position fetches, at the mapped ordinal |
| ChronoBatches.AlignedSlotIsLatest | src/lib/sbio/core/broker_group.hh:1342-1371 | for the mapping that the alignment really is: a segment's slot counts from the start of what its broker's first segment fetched exactly if both segments map the batch's first step alike; then it leads to the latest step of its kind at or before the step, and for segments of one kind it is inside what was fetched |
| ChronoBatches.MergedIsNumbered | src/lib/sbio/core/chronology.hh:140-168 | the merged order names each broker's steps one after another, whatever was merged so far |
| ChronoBatches.RoundRobinHeld | src/lib/sbio/core/topology.hh:606-609 | dealt round-robin, a position holds one of each complete turn |
| TopologyBuild.Collect | src/lib/sbio/core/topology.hh:257-298 | of the matching entries, the first of each broker's segments, in the order they are visited, and all of them while there is room |
| TopologyBuild.SortPositions | src/lib/sbio/core/topology.hh:300-356 | the selection sort yields a permutation in ascending order of keys |
| TopologyBuild.LogicalSlots | src/lib/sbio/core/topology.hh:358-376 | a segment's logical slot is the number of distinct identifiers below its own |
| TopologyBuild.SlotsFollowIds | src/lib/sbio/core/topology.hh:358-376 | slots are equal, or in order, exactly as the identifiers are |
| TopologyBuild.SlotsIdentify | src/lib/sbio/core/topology.hh:622-630 | a broker has at most one segment of each logical slot |
| TopologyBuild.CountLogicalSegments | src/lib/sbio/core/topology.hh:227-234 | the count is the number of distinct identifiers |
| ZipPlan.ZipFetchPlan.PlanGroup | src/lib/sbio/core/iteration.hh:272-298 | planning one more group keeps: no fetch twice, each position served by a fetch planned for it or for one before it, and each fetch naming the first earlier one of its buffer |
| ZipPlan.ZipFetchPlan.CheckSharedBuffer | src/lib/sbio/core/iteration.hh:367-400 | success exactly if both fetches need the same range, a conflict exactly if they need different ones |
| ZipPlan.ZipFetchPlan.FetchAll | src/lib/sbio/core/iteration.hh:239-250 | succeeds exactly if every planned fetch does, and then every fetch's range is in its buffer; otherwise it ends as the first fetch that does not go; buffers that no planned fetch reads into are as before |
| ZipPlan.OneWriter | src/lib/sbio/core/iteration.hh:272-298 | every buffer that a zipped group needs is read by exactly one planned fetch |
| ZipPlan.BufferOfReads | src/lib/sbio/core/iteration.hh:281-295 | a fetch that does not read names one that does, of the same buffer |
| ZipPlan.FilledIsInPlace | src/lib/sbio/core/iteration.hh:427-448 | after a successful fetch every zipped group finds its ranges in its buffers if and only if each nonempty range is that of the planned fetch which serves it, or was in a buffer that nothing is read into |
| ZipPlan.GoesExactly | src/lib/sbio/core/iteration.hh:367-448 | a fetch succeeds if and only if the planned steps map, the planned reads succeed, and no two planned fetches need different ranges of one buffer |
| ZipPlan.NoConflictExactly | src/lib/sbio/core/iteration.hh:367-448 | no two groups need different ranges of one buffer, all steps map and all reads succeed, if and only if the fetch succeeds and each range is that of the planned fetch which serves it |
| ZipRanges.SameDemandsExactly | src/lib/sbio/core/broker_group.hh:1294-1315 | two positions need the same range of every batch, under any mapping of ordinals, if and only if each single step is at both or at neither, and at both with the same image |
| ZipRanges.OneOrderSameDemands | src/lib/sbio/core/broker_group.hh:742-752 | groups of steps over one merged order that share a broker do need the same ranges, whatever other brokers they have and however their steps are mapped |
| ZipRanges.EverywhereSameDemands | src/lib/sbio/core/topology.hh:574-581 | groups of steps that every broker has do if and only if the broker comes first in both or in neither |
| ZipRanges.MixedSameDemands | src/lib/sbio/core/topology.hh:574-610 | a group of such steps and one of distributed steps do if and only if the second finds none of its steps in the broker and the first none either, or the second finds all there, with the same images |
| ZipRanges.MixedRoundRobin | src/lib/sbio/core/topology.hh:574-610 | with steps dealt round-robin, if and only if the broker comes first and is the only one |
| ZipRanges.RoundRobinSameDemands | src/lib/sbio/core/topology.hh:606-609 | groups of steps dealt round-robin do if and only if they have as many brokers and the broker at the same position, which the planner does not compare |
| ZipRanges.SharedIsInPlace | src/lib/sbio/core/iteration.hh:239-250 | if positions that share a fetch need the same, then after a successful fetch of a batch all ranges are in their buffers if and only if every group can locate the batch |
| ZipRanges.MergedSharersSame | src/lib/sbio/core/broker_group.hh:742-752 | they do need the same in every zip of groups over merged orders, one for each format |
| ZipRanges.SharedRangeIsLost | src/lib/sbio/core/iteration.hh:272-298 | a zip of two groups, for steps that every broker has and for steps dealt round-robin, whose fetch succeeds although the second group's range is not in its buffer |
| SourceSets.SourceSet.MinCapacity | src/lib/sbio/core/iteration.hh:1004-1017 | the least capacity of the sources |
| SourceSets.SourceSet.Trigger | src/lib/sbio/core/iteration.hh:988-1002 | only sources whose steps were all handed out are reindexed; every common step still to come is at or after each source's window start and below its capacity; false exactly if a source that ran out is exhausted, and then no common step is left |
| SourceSets.SourceSet.HandOut | src/lib/sbio/core/iteration.hh:785-789 | every common step handed out is in every source's index |
| KeySort.InsertionSort | src/lib/sbio/core/metadata.hh:125-138 | in place, the array becomes the sorted list of its entries |
| KeySort.SortedIsStable | src/lib/sbio/core/metadata.hh:125-138 | which is ascending, has the same entries, and keeps the order of entries with the same key |
| KeySort.LowerBound | src/lib/sbio/core/metadata.hh:86-99 | the position before which exactly the lesser entries lie |
| Inventory.LowerBoundFinds | src/lib/sbio/core/metadata.hh:505-525 | where the lower bound of a key has that key it is the first entry with it, and otherwise there is none |
| Inventory.GroupOrder | src/lib/sbio/core/metadata.hh:227-237 | group keys are totally ordered |
| Inventory.FieldOrder | src/lib/sbio/core/metadata.hh:258-270 | field keys are totally ordered |
| Inventory.MetadataInventory.RegisterGroup | src/lib/sbio/core/metadata.hh:350-387 | a group segment gets one number, however often it is registered, and different ones get different numbers |
| Inventory.MetadataInventory.AddField | src/lib/sbio/core/metadata.hh:435-462 | appends the field to what was added |
| Inventory.MetadataInventory.Finalize | src/lib/sbio/core/metadata.hh:470-474 | sorts both lists and keeps, for every key, the entries in the order they were added |
| Inventory.MetadataInventory.Lookup | src/lib/sbio/core/metadata.hh:499-529 | the group with the request's names and segment decides if it was registered, otherwise that of segment 0, otherwise nothing is found; the answer is the field that was added first with the deciding group's number and the request's keys, and none exactly if there is no such field |
| Inventory.MetadataInventory.LookupInGroupBy | src/lib/sbio/core/metadata.hh:565-577 | the first field of a group, in sorted order, that meets the condition, or none if none does |

## Left out

- StreamBrokers.StreamBroker.Preceding: promises the answer for references of the current batch only, because for carried references the code's answer is right only under the condition of Alignment.CarriedReference.
- StreamBrokers.StreamBroker.GenericIndex: every read returns all bytes asked for that the file still has; short reads and errors of the operating system are not modelled.
- PayloadRanges.FetchRange: names the streams that are read and not the file behind them; after a move to the next file a carried step is still found, and what a fetch of it reads is not promised, as the documentation says that steps of earlier chunks can no longer be read (broker.hh:413-455).
- DataSources.DataSource.MergeTrigger: keeps the agreement with one sort for chains in which no file is hidden behind another, units fit the scratch buffer, rows outnumber kinds and a file followed by another has no chunk markers; without that it still terminates and keeps every merged step fetchable.
- ChronoBatches.SlotIsOwnPlace: uses one mapping of ordinals for all segments of a broker, as per-kind mapping has; ChronoBatches.AlignedSlotIsLatest says what differing mappings come to.
- WindowHandOut.StepInv: covers the threads of one rank; the loop in which a departed indexing rank goes on reindexing is in NodeProtocol.
- RankHandOut.RankDistribution.NextBatch: covers one rank and its trigger; the messages that it sends before a trigger are in NodeProtocol.
- Reindexing of formats whose streams are not merged by time, which adds up or maximizes the capacities of the brokers.
- Format functions (unit size, locating bytes, kind, order key, payload region, name matching) are parameters that depend on a unit's locating bytes; a unit has a positive size.
- The trigger inside the distribution policies is a list of capacities fixed beforehand, the same for every rank and never shrinking; the statuses that only an indexing rank sees are not modelled.
- Memory is sequentially consistent; fences and orderings weaker than that are not modelled. The weak exchange of the threaded policy may fail for no reason.
- Integers are unbounded, and the no-row marker is an option; wrap-around is not modelled.
- Batch sizes are fixed for an iteration state, and batches are not mixed with single steps, as the documentation demands.
- Ranks that never iterate, communicators, shared-memory windows and logging.
- Device code, buffers and storage scoping, payload offset cache, result strides, Python bindings, locators and wheel tools.
- The mapping of steps for formats that divide a stream by segments, where it is the identity.
- Capacities of bounded lists, except where the code handles a full one.
