# A verified model of LSVD, a log-structured virtual disk

LSVD batches client writes into numbered, immutable objects. An extent map takes each sector to a place in an object, a collector rewrites sparse objects, and recovery replays object headers on top of a checkpoint. This project models that core in Dafny 4.11 and proves what it promises.

`dafny verify dfyconfig.toml` checks the whole project. Automatic induction is switched off on every lemma, so each induction is written out.

## How the model is built

- **Extents** (`Extents`, `Carving`, `ExtentMap`): the plain map a sequence of extents stands for, and the two-level extent map as a class that changes its lists in place.
- **The volume** (`Volume`, `Machine`): objects, the log they form, the disk a log stands for, and the volume as a machine of atomic steps. Clients append, flush, checkpoint and trim. The worker numbers batches, collected objects and checkpoints. Writes to the backend complete in any order. The collector picks, submits, finishes and deletes. A crash can come between any two steps, and opening the image again is part of it.
- **What every run keeps** (`Accounting`, `AccountingSteps`, `CopiedData`, `LogStory`, `CrashSafety`, `PrefixConsistency`, `Promises`, `ReadCoherence`, `ReadSteps`, `ReadTheorem`): live counts, the size bound, what the collector copies, what the log stands for, what must be durable, what a returned flush or checkpoint promises, and where a read finds the newest write.
- **Where the code is weaker than its promise** (`Runs`, `Limits`, `Generations`, `ReadLimits`, `CacheLimits`): runs from the empty volume that break a promise, each next to the exact condition under which the promise holds.
- **The code as objects** (`LiveCounts`, `Revalidation`, `Retirement`, `Translate`, `Collector`, `Recovery`): the translation layer and the image as classes over extent maps. Every method is proved to take a step the machine allows, so the theorems about runs are theorems about these methods. Where a method and the machine share a function, the contract also says in plain fields or numbers what comes out.
- **The read path** (`SmartIov`, `Scatter`, `ReadPath`, `ReadResult`): the scattered buffers of a client, the sectors their bytes stand for, and the loop that assembles a read in them.
- **The read cache** (`ReadCache`, `SharedCache`, `CachedReads`): the cache as a machine of events and as an object, and volume and cache together, chunks being fetched from whatever is durable at that moment.
- **The journal** (`Journal`) and **the encodings** (`Codec`, `Objects`, `Checkpoints`, `Encoding`, `Pages`). The last follows whole pages through every run, to the header of every object.

Sectors are opaque values, addresses are integers, and integers are unbounded except where a field width is the point (`Codec`, `Encoding.ExtentLength`). Buffers are named by their address; a new buffer is any address that does not touch one in use.

## Where code and promise differ

- `write_checkpoint` does not wait for writes on their way. The crash theorems assume that, when the superblock names a checkpoint, no object still on its way holds live sectors. `PrefixConsistency.PublishExact` shows that this is exactly what is needed, and `Limits.CheckpointTooEarly` is a run without it.
- With no checkpoint nothing is replayed and nothing swept: `PrefixConsistency.NoCheckpointExact`, `Limits.FlushedWriteLost`.
- The comment at src/image.cc:164-168 says that the sweep keeps generations apart. The crash theorems assume, at every crash of the run, that recovery leaves nothing above the number it returns (`CleanTail`). `PrefixConsistency.SweepExact` says when that is so: with no checkpoint, only on an empty backend; with one, when no object is four windows past the recovery point. The window bounds how many writes are outstanding, not how far numbers run past one that is stuck, so it is not always so. `Generations.GenerationsApart` needs only that no data object is left at a number replay may reach, and `Generations.MixExact` says that this is exact. `Generations.AbandonedTailExact` and `Generations.GenerationsMixed` are the case without a checkpoint; `Generations.TailOutrunsSweep` is a run with one, for any window, whose clients keep to the window and which flushes nothing.
- Dead objects are deleted without looking at the last checkpoint. The crash theorems assume the guard. `Limits.ReapExact` says for every dead object exactly when deleting it is harmless; `Limits.ReapedFlushedWrite` and `Limits.ReapedUnderCheckpoint` are runs in which it is not. The guard is a little more than the exact condition: an object the named checkpoint points into may go as well, once durable objects after the checkpoint overwrite all of those sectors.
- The collector does not look at the result of its reads, and may choose objects that are still on their way: always while no checkpoint is named, and, after one that was named too early, among the objects it covers. What it then copies is whatever the buffer held. `CopiedData.SnapshotExact` and `CopiedData.CopiesExact` say that a cycle keeps all contents exactly when every object chosen that has live sectors is durable; `ReadLimits.CollectedTooEarly` is a run in which one is not. On a volume that is safe to crash and has a checkpoint they always are (`CrashSafety.LiveDurable`), so there the theorems need no guard on the collector.
- On a stop request the collector erases the rows of its objects although requests are outstanding: `AccountingSteps.StopExact` says when that keeps the table exact, `ReadLimits.StoppedTooEarly` is a run in which a mapped sector loses its row, and `AccountingSteps.StopRecovered` says that the next checkpoint keeps the damage.
- Collected data never enters the buffer map, although the comment at src/translate.cc:45-51 says so. `ReadTheorem.CoherentReads` is therefore an if-and-only-if, and `ReadLimits.MovedUnreadable` is a run in which a read finds nothing.
- The check at src/image.cc:97 is inverted. Recovery is modelled with the check as it is written and as it is meant. As written, opening throws exactly when a sector is covered twice by the named checkpoint and the objects after it (`Recovery.Image.RollForward`); `Limits.OpeningThrows` is a run to such a volume. As meant, it never throws.
- src/objects.cc:207 rejects checkpoints, so the branch at src/image.cc:69-75 is never taken and a checkpoint the superblock does not name ends the roll-forward: `Checkpoints.CkptIsNoData`.
- Trimming an empty range parts an extent, after which the map is no longer canonical: `ExtentMap.ExtMap.Trim` says exactly when.
- A checkpoint keeps addresses of 35 bits, a data header of 36: `Codec.EntryRoundTrip`, `Codec.MapRoundTrip`.
- Batches of single sectors outgrow the room for their header: `Encoding.SectorsDoNotFit`, with the exact bound in `Encoding.BatchHeaderFits`.
- Inserting a key the read cache already has breaks its map: `ReadCache.InsertExact`, `ReadCache.InsertedTwice`.
- The read cache keeps a chunk whose fetch found no object, and goes on serving it: `CachedReads.FetchExact` says when a chunk is the object's, `CacheLimits.StaleChunk` is a run in which a read gets what was in the buffer although the volume is in order by then.
- The room for the header of a collected object is no larger than that of a batch, although the object may be larger and may be cut into more pieces than were packed. Over pages of 4 KB it fits all the same at the default threshold of 60 percent, because two pieces of one entry have a page between them (`Pages.HeadersFit`, `Pages.PartCount`). The size bound alone gives less (`Encoding.GcPagesFit`). `Pages.DefaultRoomy` says how far the argument goes.

## Model

| member | source | states |
|---|---|---|
| Extents.CanonicalUnique | src/extent.h:505-509 | Two sorted, fully merged extent sequences that map the same sectors alike are the same sequence, so the canonical form of a map is unique |
| Extents.ModelAt | src/extent.h:201-212 | Every extent of a sorted sequence fixes the mapping of each of its sectors |
| Extents.RangeLaws | src/extent.h:605-637 | What overriding, removing and keeping a range does to each single sector |
| Carving.CarveDone | src/extent.h:537-603 | When the bisect, left, full and right cases are done, what is left is the old map without the range, and the displaced extents are the old map inside it, each sector once |
| ExtentMap.ExtMap.constructor | src/extent.h:230-237 | An empty map is canonical and maps nothing |
| ExtentMap.ExtMap.LowerBound | src/extent.h:370-406 | The result is the first extent that ends after the given sector, wherever the two levels put it |
| ExtentMap.ExtMap.Expand | src/extent.h:426-443 | Splitting an over-full list keeps the contents, the place, and the size bounds of all lists |
| ExtentMap.ExtMap.Insert | src/extent.h:445-457 | One extent enters at one place; counts, upper ends and list sizes stay right |
| ExtentMap.ExtMap.Erase | src/extent.h:459-501 | One extent goes; lists are joined and split again as needed and no dropped list is indexed; the result names the next extent |
| ExtentMap.ExtMap.Join | src/extent.h:474-492 | Merging a short list with a neighbour, on either side, keeps the contents and the place |
| ExtentMap.ExtMap.Carve | src/extent.h:535-603 | Cutting out a range gives the abstract map without it, and names where the range was |
| ExtentMap.ExtMap.PlaceAt | src/extent.h:605-637 | Entering an extent adds its sectors, and in a canonical map leaves a canonical map in all four merge cases |
| ExtentMap.ExtMap.Update | src/extent.h:664-671 | Equals overriding the abstract map on the range; the displaced extents are the old mapping of the range in order, each sector once; canonical maps stay canonical |
| ExtentMap.ExtMap.Trim | src/extent.h:673-682 | Equals removing the range; a canonical map stays canonical exactly when the range is not empty or does not lie inside an extent |
| ExtentMap.ExtMap.Overlaps | src/extent.h:651-660 | The lookup loop visits exactly the mapping of the range, cut to the range, in order, and canonical if the map is |
| ExtentMap.ExtMap.Entries | src/extent.h:355-368 | Iterating from begin to end visits every extent once, in order |
| ExtentMap.ListSizes | src/extent.h:426-501 | In every valid map no list has two loads of extents or more, with several lists each has more than half a load, and the index names the upper end of each |
| ExtentMap.SameViewSameExtents | src/extent.h:606-637 | Two histories that leave the same abstract map leave identical extent sequences |
| AccountingSteps.StepAccounted | src/translate.cc:802-846 | Every step of client, worker, completion, collector, trim and crash keeps the table exact and every pending collection request in order, a stop only if it erases no row in use |
| AccountingSteps.ExactLiveCounts | src/translate.cc:442-449 | After every run without a stop that erases a row in use, the live count of each tracked object is the number of sectors mapped to it, zero exactly when nothing is, and every mapped sector is in a tracked object |
| AccountingSteps.StopExact | src/translate.cc:1124-1143 | A stop request that erases the rows of the cycle keeps the table exact exactly when nothing is mapped to those objects any more |
| AccountingSteps.StopRecovered | src/translate.cc:546-593 | A checkpoint taken right after a stop request recovers the map as it was and the table without the erased rows; that table is exact exactly when the stop erased no row in use, and otherwise some mapped sector has no row |
| AccountingSteps.ObjectSizeBound | src/translate.cc:1078-1087 | After every run each object satisfies data * (100 - p) <= 100 * max, although packing overshoots by a whole extent |
| AccountingSteps.PackedRequest | src/translate.cc:996-1004 | A request that was below the limit before its last extent keeps the size bound, because that extent is no longer than its object's live count |
| CopiedData.GcPreservesContents | src/translate.cc:660-704 | A collection request, however long after its snapshot, leaves the contents of every sector unchanged exactly when it carries, for the sectors it keeps, what they hold; comparing object numbers alone picks the right sectors |
| CopiedData.SnapshotExact | src/translate.cc:1053-1058 | Whatever the reads of missing objects leave in the buffer, the requests of a cycle carry what the objects hold exactly when every object chosen that has live sectors is durable |
| CopiedData.CopiesExact | src/translate.cc:1078-1113 | The requests of a snapshot would keep all contents exactly when they carry what the objects hold |
| CopiedData.StepTruthful | src/translate.cc:1115-1118 | If cycles only start on objects that are there, every pending request carries what the objects hold until it is processed |
| AccountingSteps.CleanedUnreferenced | src/translate.cc:1120-1137 | When every request of a cycle is processed, nothing is mapped to an object of the cycle |
| AccountingSteps.ReplayExact | src/image.cc:77-98 | Replaying objects over an exact map and table gives an exact map and table |
| LogStory.RecoveredIsReplay | src/image.cc:147-160 | The recovered map is the very map the running system had when it had numbered the objects below the first gap |
| LogStory.StepLogged | src/translate.cc:750-775 | Every step but a trim keeps the map equal to the replay of the log, and every prefix of the log equal to the disk after the client writes in it, if the collector reads only what is there |
| CrashSafety.StepDurable | src/translate.cc:598-616 | Every guarded step keeps durable what the last named checkpoint and the flushed writes need |
| CrashSafety.LiveDurable | src/translate.cc:972-983 | On a volume safe to crash, every object no newer than the named checkpoint that has live sectors is durable |
| CrashSafety.ChoiceDurable | src/translate.cc:980-1006 | So whatever a cycle chooses once a checkpoint is named can be read |
| CrashSafety.StepFlushes | src/translate.cc:852-865 | Every step keeps as many writes in front of a queued flush as it says it covers; that these are all the writes before it is in `Promises.FlushReturns` |
| PrefixConsistency.PrefixConsistent | src/image.cc:147-173 | After every guarded run a crash gives the disk after some prefix of the client writes, all of it readable, and the prefix holds every write a returned flush has covered |
| Promises.FlushReturns | src/translate.cc:814-819 | Over every run without a crash: when the worker has come to a flush, it has covered every write accepted before it, however they were batched, and what was accepted since is what clients wrote |
| Promises.FlushSurvives | src/translate.cc:852-865 | So after any guarded run on, a crash keeps every write accepted before the flush, and of the later ones a prefix |
| Promises.FlushedWritesSurvive | src/translate.cc:852-865 | The same from the empty volume, in terms of the writes in the run alone |
| Promises.CheckpointReturns | src/translate.cc:867-881 | When the worker has come to a checkpoint, every write accepted before it is in the log below a checkpoint record that is named, about to be named, or older than one named |
| Promises.CheckpointSurvives | src/translate.cc:867-881 | When the superblock has been written, a crash keeps every write accepted before the checkpoint, flushed or not |
| Promises.CrashKeepsPrefix | src/image.cc:147-173 | A crash leaves the history the recovered disk stands for: a prefix with every flushed write, and with every write in an object that is durable together with all objects between it and the checkpoint |
| Volume.LastWriteWins | src/image.cc:262-441 | The disk after some writes holds in each sector what the last write to it put there |
| Volume.NeverWritten | src/image.cc:319-325 | And zeroes in a sector nobody wrote |
| PrefixConsistency.StepSafe | src/translate.cc:802-846 | Every guarded step, a crash and recovery among them, keeps the volume safe to crash |
| PrefixConsistency.ReplayEqualsExecution | src/image.cc:77-98 | Replay rebuilds the map the running system had when it had numbered the objects below the recovery point, with the table entry of every object that had live sectors |
| PrefixConsistency.NoCheckpointExact | src/image.cc:149-150 | With no checkpoint named, a crash is safe exactly while nothing has been flushed |
| PrefixConsistency.PublishExact | src/translate.cc:593-610 | Naming a checkpoint leaves the volume safe to crash exactly when no object on its way holds live sectors |
| PrefixConsistency.SweepExact | src/image.cc:164-170 | Recovery leaves nothing above the returned number exactly when the tail is shorter than four windows, or with no checkpoint when there is nothing at all |
| PrefixConsistency.RecoveryIdempotent | src/image.cc:152-172 | On any volume, recovering again gives the same point, the same map and the same table, sweeps nothing more, and leaves the very state the first recovery left |
| PrefixConsistency.DeletedUnreferenced | src/translate.cc:1145-1164 | An object the collector may delete is referred to by neither the running map nor the map of any later crash point |
| Limits.CheckpointTooEarly | src/translate.cc:539-546 | A run of five steps in which a named checkpoint points into an object that a crash loses |
| Limits.FlushedWriteLost | src/image.cc:149-150 | A run in which a flushed write is lost because no checkpoint is named yet |
| Generations.GenerationsApart | src/image.cc:147-173 | Over every run from the empty volume, trims and unguarded deletions included, if no crash leaves a data object where replay may reach it, the next crash replays only objects of the log, in their places |
| Generations.MixExact | src/image.cc:162-172 | After a crash every continuation without another crash stays so exactly when the sweep has left no data object at a number replay may reach |
| Generations.LeftoverReplayed | src/image.cc:162-172 | Whatever object is left over, there is a continuation, within the window, that names a checkpoint, writes up to the object's number, and whose next crash replays it |
| Generations.TailOutrunsSweep | src/translate.cc:459-464 | For any window, a run from the empty volume within the window and without a flush, with one write stuck and more than four windows of later ones durable, whose second crash brings back a sector of the lost generation and gives no prefix of the writes at all |
| Generations.AbandonedTailExact | src/image.cc:149-150 | After a crash without a checkpoint, a reopening and a first checkpoint, a crash gives the empty disk, and indeed any prefix, exactly when the abandoned objects from number 2 to the first gap hold no sector |
| Generations.GenerationsMixed | src/image.cc:147-173 | A run from the empty volume after which a volume that has accepted nothing recovers a sector of the lost generation |
| Limits.ReapExact | src/translate.cc:931-970 | After a dead object is deleted a crash is safe exactly in these cases: no checkpoint and nothing flushed; an object older than the checkpoint, all of whose sectors there are overwritten by durable objects after it; one replay would reach, if the disk below it is one after a prefix with every flushed write; one replay never reaches |
| Limits.ReapOlder | src/translate.cc:931-970 | Deleting a dead object older than the checkpoint is safe exactly when every sector the checkpoint has in it is overwritten by a durable object after the checkpoint |
| Limits.ReapNewer | src/translate.cc:931-970 | Deleting a dead object that replay would reach cuts the log there, and is safe exactly when the disk below it is one after a prefix with every flushed write |
| Limits.ReapBeyond | src/translate.cc:931-970 | Deleting an object past the recovery point leaves the recovery point and the safety of a crash alone |
| Limits.ReapUnnamed | src/translate.cc:931-970 | With no checkpoint deleting changes nothing for a crash |
| Limits.ReapedFlushedWrite | src/translate.cc:931-970 | A run in which two flushed writes are lost because a dead object newer than the checkpoint is deleted |
| Limits.ReapedUnderCheckpoint | src/translate.cc:931-970 | A run in which the named checkpoint points into the object deleted while the one that overwrites it is on its way |
| Limits.OpeningThrows | src/image.cc:93-98 | A run after which the image, safe to crash as it is, cannot be opened with the check as it is written |
| ReadSteps.StepTracked | src/translate.cc:491-524 | Every step keeps the buffer map equal to the newest writes of the batches in memory, and their buffers apart |
| ReadSteps.StepCoherent | src/translate.cc:374-417 | Every step but a trim keeps all that reads rely on |
| ReadTheorem.CoherentReads | src/translate.cc:45-51 | A read finds the newest write, in memory or in a durable object, exactly when the sector was not just moved into a collected object still on its way |
| ReadTheorem.ReadCoherent | src/translate.cc:748-766 | The same after every run, with completions in any order and collections, checkpoints and deletions in between |
| ReadLimits.MovedUnreadable | src/translate.cc:691-725 | A run in which the collector has moved a sector and a read finds nothing |
| ReadLimits.CollectedTooEarly | src/translate.cc:1053-1058 | A run in which the collector copies an object before it has arrived, and in the end, with nothing under way, a sector reads as what no client wrote |
| ReadLimits.StoppedTooEarly | src/translate.cc:1124-1143 | A run in which a stop request erases the row of an object a sector is mapped to |
| Retirement.NoStraddle | src/translate.cc:510-518 | A run of sectors at consecutive addresses is in one batch buffer or in none, so no extent of the buffer map straddles two |
| Retirement.Retire | src/translate.cc:504-523 | A finished batch leaves the buffer map: exactly the sectors it wrote that still point into its buffer go |
| LiveCounts.SumLenCount | src/translate.cc:442-449 | The displaced extents of one update, added up for an object, count each sector mapped to it once |
| LiveCounts.Deduct | src/translate.cc:768-775 | Taking displaced extents off one at a time gives each count less its share, and no count is negative on the way |
| LiveCounts.DisjointNothingLost | src/translate.cc:691-725 | An object displaces none of its own sectors exactly when its pieces do not overlap |
| LiveCounts.DeductedBeforeEntry | src/translate.cc:706-725 | Recording a collected object after the subtraction is right exactly when it displaced none of its own sectors |
| LiveCounts.DeductedAfterEntry | src/translate.cc:748-775 | Recording a batch before the subtraction takes overlaps inside the batch off its own count |
| Revalidation.Revalidate | src/translate.cc:660-684 | The pieces kept are disjoint and hold exactly the sectors of the request still mapped to the object they were picked from, with the data read for them; on a canonical map no piece could be longer |
| Translate.EnterPieces | src/translate.cc:761-766 | Entering the pieces one by one gives the map with all of them; the displaced extents account for every reference lost, and there are none exactly when no sector was mapped already or is in two pieces |
| Translate.TranslationLayer.constructor | src/translate.cc:221-262 | A new layer stands for a new volume |
| Translate.TranslationLayer.Reopen | src/translate.cc:221-262 | A layer on a recovered map, table, checkpoints and number stands for the volume after the crash step, and is in order exactly when nothing is left above the number |
| Translate.TranslationLayer.Writev | src/translate.cc:374-417 | Takes the append step: the write joins the current batch exactly if it fits, and otherwise starts a new one behind the full one on the queue; the buffer map points at its copy inside the batch's own buffer |
| Translate.TranslationLayer.Trim | src/translate.cc:432-451 | Takes the trim step: mapping and counts lose exactly the range, no count turns negative |
| Translate.TranslationLayer.ProcessBatch | src/translate.cc:734-800 | Takes the worker's batch step: number, map, table and write on its way, counts exact |
| Translate.TranslationLayer.WriteGc | src/translate.cc:637-732 | Takes the worker's collection step with the revalidated pieces, none of which could be longer, counts exact although the object is recorded last |
| Translate.TranslationLayer.Flush | src/translate.cc:852-865 | Takes the flush step: the request is queued behind the current batch, if that holds anything |
| Translate.TranslationLayer.Checkpoint | src/translate.cc:867-881 | Takes the checkpoint step: the same for a checkpoint |
| Translate.TranslationLayer.FinishFlush | src/translate.cc:814-819 | A flush returns with nothing on its way, and covers what was written when it was asked for |
| Translate.TranslationLayer.StoreCheckpoint | src/translate.cc:546-593 | Takes the checkpoint step: the object holds the extents of the map and the table as they are |
| Translate.TranslationLayer.PublishCheckpoint | src/translate.cc:595-616 | Takes the publish step: of all checkpoints with the new one, the last three stay named, or all if there are fewer, and exactly the objects of those in front are deleted |
| Translate.TranslationLayer.Notify | src/translate.cc:491-537 | Takes the completion step: the object is durable, and a batch has left the buffer map |
| Collector.Choose | src/translate.cc:980-1006 | At most 33 objects at or below the threshold; if one at or below it is left out there are 33, and each of them has a share of live sectors no larger, by cross-multiplied counts, and where the shares are equal a smaller number |
| Collector.EmptierCounts | src/translate.cc:976-992 | The order by ratio is the order by cross-multiplied counts, and by number where these are equal |
| Collector.RhoSparse | src/translate.cc:980-1006 | The ratio test on exact counts is the threshold on sectors |
| Collector.Gather | src/translate.cc:1022-1031 | The live extents are exactly the part of the map that points into the chosen objects, fully merged |
| Collector.Take | src/translate.cc:1078-1087 | Extents are taken until the limit is reached: all but the last stay below it, and it is reached if any are left |
| Collector.Pack | src/translate.cc:1078-1113 | Every live extent is in some request with what the read of its object left in the buffer, nothing else is, each request is below the limit before its last extent, and all but the last reach it |
| Collector.StartCycle | src/translate.cc:972-1113 | A cycle takes a start step the machine allows: sparse objects no newer than the checkpoint, all of them if they are fewer than 33, all their live sectors packed into full requests, in runs that do not go on in the map, and with what the objects hold if those with live sectors are durable |
| Collector.Submit | src/translate.cc:1115-1118 | Takes the submit step: the request goes on the end of the worker's queue |
| Collector.FinishCycle | src/translate.cc:1135-1141 | The cleaned objects leave the table, and nothing is mapped to them |
| Collector.StopCycle | src/translate.cc:1124-1143 | On a stop request the rows go at once; the layer stays in order exactly when nothing is mapped to those objects |
| Collector.DeleteCleaned | src/translate.cc:1149-1164 | After a later checkpoint exactly the cleaned objects are deleted |
| Collector.ReapDead | src/translate.cc:931-970 | Exactly the objects with no live sectors are deleted, and nothing is mapped to them |
| Recovery.LoadExtents | src/image.cc:140-143 | Reloading a checkpoint rebuilds the map it was written from, extent for extent if that map was canonical |
| Recovery.Image.ReadFromCheckpoint | src/image.cc:126-144 | The table and the map of the checkpoint, exactly |
| Recovery.Image.ApplyLog | src/image.cc:59-101 | A missing object or one that is no data object stops replay and changes nothing; a data object does to map and table what the worker did; with the check as written it throws exactly when a sector of the object is mapped already or in two of its pieces |
| Recovery.Image.RollForward | src/image.cc:147-173 | Ends at the first number after the checkpoint without a data object, with the recovered map and table, and exactly the next 4 * window - 1 numbers deleted; with the check as written it throws exactly when a sector is covered twice by the checkpoint and the objects after it |
| Recovery.Image.Recover | src/image.cc:126-173 | The image after a crash is what the machine's crash step says, empty and with nothing deleted if no checkpoint is named, or recovery has thrown |
| Recovery.Open | src/translate.cc:221-262 | Recovery and a layer on its result take the machine's crash step; the layer is in order exactly when recovery has left nothing above the number it returned |
| Recovery.DeductOrFail | src/image.cc:93-98 | As written, the check fails on the first extent displaced, whatever the counts |
| ReadPath.HandleReads | src/image.cc:262-441 | Ends, changes only bytes of the client's scattered buffers, and every sector these hold comes from memory if it is buffered, else from one block read of the right place, else is zero; block reads are disjoint, in order, each inside one aligned block of 128 sectors, and each is given exactly the bytes of its sectors |
| ReadPath.Collect | src/shared_read_cache.cc:351-378 | When every block read has copied what it was given into its slice, each sector of the scattered buffers is the one its block read brought, or what it was if there is none |
| ReadPath.BlockOf | src/image.cc:357-412 | A run of an object is cut only where it or its cache block of 128 sectors ends, and the iterator moves on only past a finished extent |
| ReadResult.ReadReturnsNewest | src/image.cc:262-441 | A sector whose block read has delivered what its object holds is the newest write to it, or zero |
| SmartIov.Bytes | src/smartiov.h:43-49 | The size is the number of bytes the ranges name |
| SmartIov.AddrsAt | src/smartiov.h:43-66 | Each byte of each range comes behind all bytes of the ranges before it |
| SmartIov.Slice | src/smartiov.h:51-66 | The slice names exactly the bytes from off up to limit, in order, although it may hold empty ranges |
| SmartIov.Zero | src/smartiov.h:75-88 | Exactly the bytes from off up to limit are zeroed, as far as the buffer goes |
| SmartIov.CopyIn | src/smartiov.h:90-96 | Each address takes its byte, and no other memory changes |
| SmartIov.CopyOut | src/smartiov.h:117-123 | The bytes come out in order |
| SmartIov.CopyRoundTrip | src/smartiov.h:90-123 | What is copied in comes out again |
| Scatter.ZeroSectors | src/image.cc:319-325 | Zeroing a stretch of a scattered buffer makes exactly those sectors zero, although a sector may span ranges |
| Scatter.CopySectors | src/image.cc:330-336 | Copying bytes into a slice of a scattered buffer puts exactly the sectors they stand for there, and touches no other |
| ReadCache.EventOk | src/shared_read_cache.cc:467-624 | Whatever happens, counts stay exact, map and entries inverse, and every request on its way to being told once |
| ReadCache.CacheAgrees | src/shared_read_cache.cc:74-93 | In every state a run reaches, a refcount is the number of requests on the chunk, an unused chunk has no buffer and no waiting reads, a resident chunk whose fetch found its object holds the object's contents, and map and keys are inverse |
| ReadCache.ToldOnce | src/shared_read_cache.cc:219-245 | In every state a run reaches, a read that is over was told exactly once, with contents of its chunk, whether its run or the fetch came first, and a read still waiting has not both been run and been fetched |
| ReadCache.Answers | src/shared_read_cache.cc:219-245 | A read from the store is told when that is done; a fetch that is back tells itself and all that wait for it and have been run, and leaves the others ready to be told when they are |
| ReadCache.BecomesCached | src/shared_read_cache.cc:617-625 | When the write to the store is done the key's chunk is there with the bytes that were written |
| ReadCache.StaysCached | src/shared_read_cache.cc:505-595 | Whatever happens, a chunk in the store stays with what it holds until the hand takes it, which it does only when nobody uses it, and no fetch of its key starts |
| ReadCache.ReadSurvives | src/shared_read_cache.cc:467-489 | The hand never takes a chunk in use, and one read since it last came by only if there is no unused one that was not |
| ReadCache.InsertExact | src/shared_read_cache.cc:597-615 | Inserting a key keeps map and entries inverse exactly when no other chunk has the key |
| ReadCache.InsertedTwice | src/shared_read_cache.cc:597-615 | A run to a cache in which a second insertion of a key leaves a chunk the map does not lead to |
| CachedReads.ResidentAgrees | src/shared_read_cache.cc:351-378 | After every run of volume and cache, a chunk in the store is its object's if the object was there at the fetch |
| CachedReads.FetchExact | src/shared_read_cache.cc:351-378 | Whatever a fetch may leave in the buffer, it is the object's exactly when the object is there |
| CachedReads.CacheDelivers | src/shared_read_cache.cc:505-595 | What the cache answers a block read, at whatever moment and from whatever state, is what the object held when the read was put together, if the chunk is sound |
| CachedReads.CachedReadNewest | src/image.cc:262-441 | A sector read through the cache, with anything but a crash in between, is the newest write at the start, unless a collected object on its way has just taken it or a chunk was fetched while its object was missing |
| CachedReads.ScatteredReadNewest | src/image.cc:262-441 | The same for the bytes in the client's scattered buffers, once every block read has copied in what the cache answered |
| CachedReads.ActsSound | src/shared_read_cache.cc:351-378 | If no fetch of a run misses its object, every answer the cache gives is sound |
| CacheLimits.StaleChunk | src/shared_read_cache.cc:351-378 | A run in which a chunk fetched too early is kept and served when the object has long arrived |
| SharedCache.SharedReadCache.Search | src/shared_read_cache.cc:467-489 | If a chunk is free or unused, the hand takes fewer than two rounds: it stops at the first that is empty or unused and not accessed, and if there is none then in the second round at the first unused; exactly the unused chunks it passed lose their bit |
| SharedCache.SharedReadCache.AllocateChunk | src/shared_read_cache.cc:467-503 | The evicted chunk is that one, is unused, has no buffer and no waiting reads, its key leaves the map, and the hand stands behind it |
| SharedCache.SharedReadCache.MakeReadRequest | src/shared_read_cache.cc:505-595 | A resident chunk is pinned and read, one being filled serves at once from its buffer, one being fetched is joined, all three with their accessed bit set, and otherwise a fetch starts |
| SharedCache.SharedReadCache.StartFetch | src/shared_read_cache.cc:563-595 | Evicts an unused chunk for the key and starts its only fetch |
| SharedCache.SharedReadCache.InsertChunk | src/shared_read_cache.cc:597-615 | The key gets a chunk of its own; the map leads to every chunk exactly when the key was not there or its chunk was evicted |
| SharedCache.SharedReadCache.RunPending | src/shared_read_cache.cc:227-235 | A pending read that is run is over if its bytes are there, and waits for them otherwise |
| SharedCache.SharedReadCache.OnBackendDone | src/shared_read_cache.cc:351-378 | Every waiting read gets its part of what came back, right or not, those already run are told, the parent is told, and the fill starts |
| SharedCache.SharedReadCache.OnStoreDone | src/shared_read_cache.cc:617-625 | The chunk becomes resident with the fetched bytes and is unpinned |
| SharedCache.SharedReadCache.OnHitDone | src/shared_read_cache.cc:278-285 | The read gets the stored bytes, its parent is told, and the chunk is unpinned |
| Journal.RegionInFile | src/write_cache.cc:514-552 | Behind page 0 come two copies of as many pages as the content needs at 256 and at 512 entries a page; the data region behind them lies inside the file, and has room for a page exactly from seven pages on |
| Journal.Apart | src/write_cache.cc:254-276 | Records that together take no more pages than the ring has do not overlap |
| Journal.WalkVisits | src/write_cache.cc:123-168 | Following the links on disk visits the last records newest first, pads among them, with numbers falling by one, as long as they fit the ring |
| Journal.WriteCache.constructor | src/write_cache.cc:447-478 | An opened journal starts an empty ring at its base, whatever is on the disk |
| Journal.WriteCache.Allocate | src/write_cache.cc:254-276 | Where record and pad go; the record stays inside the ring exactly when it is no longer than the ring |
| Journal.RecordMore | src/write_cache.cc:279-296 | A header with the next number, linked to the header before it, and its pages behind the last record keep the ring tiled, linked and intact |
| Journal.WriteCache.Writev | src/write_cache.cc:123-168 | Record and pad tile the ring, the pad links to the last header and the record to the pad, and everything in the last ring's worth of pages is still there |
| Codec.BytesRoundTrip | src/objects.h:10-12 | A little-endian buffer gives back every word |
| Codec.BytesLayout | src/objects.h:10-12 | The least significant byte of a word comes first |
| Codec.MapRoundTrip | src/objects.h:91-94 | A data header keeps an extent exactly when it fits 36 and 28 bits |
| Codec.MapsLayout | src/objects.h:91-94 | Where each extent of a data header lies: one 64-bit number with the address in its low 36 bits |
| Codec.EntryRoundTrip | src/objects.h:130-135 | A checkpoint keeps an entry exactly when all its fields are in signed range |
| Codec.EntriesLayout | src/objects.h:130-135 | Where each entry of a checkpoint lies, and in which words it says what it points to |
| Codec.TableLayout | src/objects.h:118-123 | Where each row of the object table lies: number, header, data and live sectors, in this order |
| Objects.MakeObjHdr | src/translate.cc:333-368 | The buffer is the header with its extents in order, zeroes behind them, and in its place the checksum of all of it with zero there |
| Objects.DataLayout | src/objects.h:75-94 | The words of a data header one by one, from the magic to the last extent |
| Objects.ReadDataHdr | src/objects.cc:199-217 | For every object there can be: nothing if there is none, or if magic, version or type are wrong or a header of more than 8 sectors is cut short; failure exactly on less than a sector or a list outside what was read; and otherwise each field from its word |
| Objects.DataRoundTrip | src/objects.cc:199-217 | Reading back a data header gives exactly what was written, however long it is and whatever follows |
| Checkpoints.SerialiseCheckpoint | src/translate.cc:546-593 | The buffer is the header, the table and the map, padded to whole sectors |
| Checkpoints.CkptLayout | src/objects.h:106-135 | The words of a checkpoint one by one: header, rows, entries, and less than a sector behind them |
| Checkpoints.ReadCheckpoint | src/objects.cc:219-241 | The same for a checkpoint, with both lists |
| Checkpoints.CkptRoundTrip | src/objects.cc:219-241 | Reading back a checkpoint gives exactly the table and the map that were written |
| Checkpoints.CkptIsNoData | src/objects.cc:207-208 | A checkpoint is never read as a data object |
| Checkpoints.SerialiseSuperblock | src/objects.cc:28-96 | The superblock of a volume that is no clone |
| Checkpoints.SuperLayout | src/objects.cc:28-96 | The words of a superblock one by one |
| Checkpoints.SuperExact | src/objects.cc:168-197 | What is read, for every object there can be: nothing, a failure, or each field from its word |
| Checkpoints.SuperRoundTrip | src/objects.cc:168-197 | The named checkpoints, the size and the identity come back |
| Encoding.BatchHeaderFits | src/translate.cc:121-133 | The header of a batch fits in front of its data exactly up to a number of writes |
| Encoding.GcHeaderFits | src/translate.cc:645-653 | The same for a collected object |
| Encoding.GcPagesFit | src/translate.cc:645-653 | With pieces of 4 KB and more the header of a collected object always fits, if the number of pieces the size bound allows does |
| Encoding.GcPagesFitBelowHalf | src/translate.cc:645-653 | So it does with 8 MB objects and a threshold below one half |
| Pages.HeadersFit | src/translate.cc:645-653 | Over every run in which clients write and trim whole pages, every object, batch or collected, is whole pages and its header fits the room kept for it, if the configuration is roomy |
| Pages.PartCount | src/translate.cc:660-684 | Of an entry of n pages at most half, rounded up, come back as pieces, because pieces that could not be longer have a page between them |
| Pages.DefaultRoomy | src/translate.cc:645-653 | With objects of 8 MB the configuration is roomy exactly up to a threshold of 66 percent |
| Encoding.PagesAlwaysFit | src/translate.cc:738-743 | With writes of 4 KB and more and objects of 2 MB and more the header always fits |
| Encoding.SectorsDoNotFit | src/translate.cc:121-133 | A full 8 MB batch of single sectors does not fit |
| Encoding.ReplayFromBytes | src/image.cc:59-98 | Replaying an object from its bytes does to the map what the object did, and its header says its size |
| Encoding.CheckpointFromBytes | src/image.cc:126-144 | A checkpoint read from its bytes gives the very extents the map had, and the object table |
| Encoding.ExtentLength | src/extent.h:135-141 | No extent is longer than the object it points into, and none outgrows its field if the largest object does not |

## Left out

- Locks and threads: each step of worker, completion and collector is atomic; the collector's snapshot and its reads of the objects are one step.
- `flush_thread`, which swaps the current batch without the lock.
- Clones: object name prefixes, clone records in the superblock, and mappings into a base image.
- `total_live_sectors` and `total_sectors`, which feed only a disabled trigger.
- Pinning of objects that are being read: a deleted object is gone at once.
- Durable trim: a trim changes the object map and the counts only, so it is in the theorems on extents and counts and not in those on crashes and reads.
- Writes of no sectors, and writes longer than a batch, which the batch buffer cannot hold.
- Clock, network and backend errors: the backend is a map from number to object with a set of writes on their way; only a missing object is modelled, by a read that may leave anything in the buffer.
- Cache statistics, bypass, dirty bits and the file the collector copies objects through.
- `reserve_room`, which counts data pages but not headers and pads; the disjointness of records is stated on what was allocated.
- `roll_log_forward`, which is compiled out, and `recover_from_wlog`, which is not implemented.
- Checksums are an arbitrary function of the buffer and are not compared on reading, as in the source.
- A header whose lists lie outside what was read, or do not start on a word, is read all the same by the source; the model fails instead. Lists that recovery does not use are not read.
- Growth of a header buffer by reserve instead of resize.
- Iterator arithmetic by more than one.
- ExtentMap.ExtMap.Update: assumes a range that is not empty; an empty one would enter an empty extent.
- Translate.TranslationLayer.Writev: assumes a write that is not empty and no longer than a batch.
- Collector.RhoSparse: takes reals for doubles, and nothing over nothing as zero.
- ReadPath.HandleReads: assumes buffers that lie in memory, hold a whole number of sectors, and have no address twice.
- Encoding.GcPagesFit: takes the pieces to be 4 KB and more and goes by the size bound alone; `Pages.HeadersFit` derives both from the client's writes.
- Pages.HeadersFit: needs batches of 2 MB and more and the roomy bound; past it no run with too many pieces is given.
- PrefixConsistency.ReplayEqualsExecution: compares the rows of objects with live sectors; rows without any may be in one table only, since cycles and deletions erase rows without leaving a record in the log.
- SharedCache.SharedReadCache.Search: assumes a chunk that is free or unused; without one the source never returns.
- Journal.WriteCache.Writev: assumes a record no longer than the ring; `Journal.WriteCache.Allocate` shows that a longer one leaves it.
- Checkpoints.SuperRoundTrip: has no clone records.
- Checkpoints.SerialiseSuperblock: starts from a new buffer, so the clone length that the source accumulates on a reused one is not modelled.
