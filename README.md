# Write routing and flush coordination of one IoTDB storage group

This project models three parts of the IoTDB storage engine and proves properties of the model.

- **`FileNodeProcessorV2`**: the write engine of one storage group (module `StorageGroup`, class `Engine`). It keeps two chains of data files. The sequence chain holds in-order data and the unsequence chain holds out-of-order data. Each chain has a file list, a "work" processor that receives writes, and a list of closing processors. Per device, the engine keeps the latest accepted timestamp and the latest timestamp handed to a flush (the flushed watermark).
  - `insert` routes a record by its device's flushed watermark. It opens a new data file, named after the record's timestamp, when the chain has no work processor. It writes through the processor and advances the latest time.
  - When the processor asks for a flush, `insert` may move the processor to the closing list and copies every latest time into the flushed map.
  - `query` selects, per chain, the files that hold data.
  - The close callback removes the processor from the sequence closing list. It writes end times into the file of the work sequence processor, and throws a null-pointer exception when sequence files exist but that processor is null. It then writes the restore store.
  - `forceClose` closes the work sequence processor.
- **`FlushManager`**: a FIFO queue of processors that wait for a flush worker (module `FlushScheduling`). A "managed" flag keeps a processor from being queued twice.
- **`UnSealedTsFileReaderV2`**: the reader of one series in an unsealed file (module `UnsealedReader`). It chains an on-disk reader and an in-memory reader, in reverse order for reverse reads, and reverses the chunk-metadata list in place.

Module `Basics` holds Java `long` bounds, `Option`, the decimal file name of a timestamp (with its round trip), and list helpers.

Module `TsFiles` holds the data-file resource (`TsFileResource`, updated in place) and the unsealed-file processor. The processor is a collaborator whose internals are not modelled. It records the ordered requests the engine makes of it: write, set close mark, flush, force close.

Module `EngineScenarios` calls the engine on fixed inputs to exhibit the findings below. Each method's `ensures` states the outcome, proved by the verifier.

The collaborators' answers are a parameter of `Insert`: whether opening a file succeeds, what `write`, `shouldFlush` and `shouldClose` return, and which base directory the placement policy picks. Each region of the source that runs under a lock or monitor is one atomic method.

Three behaviours of the code are easy to miss:
- A file takes part in a query when its start-time map is non-empty, whatever the queried device.
- `forceClose` closes only the sequence chain's work processor. The unsequence chain's work processor stays open.
- A flush worker catches and discards an I/O failure of the flush. It then clears the processor's flag and registers it again, as after a successful flush.

## Model

| member | source | states |
|---|---|---|
| Basics.Digits | iotdb/src/main/java/org/apache/iotdb/db/engine/filenodeV2/FileNodeProcessorV2.java:250 | the decimal digits of a timestamp are a non-empty digit string without leading zeros |
| Basics.DigitsRoundTrip | iotdb/src/main/java/org/apache/iotdb/db/engine/filenodeV2/FileNodeProcessorV2.java:250 | reading the digits of `n` back gives `n` |
| Basics.DecimalRoundTrip | iotdb/src/main/java/org/apache/iotdb/db/engine/filenodeV2/FileNodeProcessorV2.java:250 | parsing `time + ""` gives back the timestamp, negative ones included |
| Basics.DecimalStringInjective | iotdb/src/main/java/org/apache/iotdb/db/engine/filenodeV2/FileNodeProcessorV2.java:250 | records with different timestamps get different file names |
| Basics.TsFilePath | iotdb/src/main/java/org/apache/iotdb/db/engine/filenodeV2/FileNodeProcessorV2.java:249-250 | a new file's path is base directory / storage group / a name that parses back to the record's timestamp |
| Basics.DistinctOccursAtMostOnce | iotdb/src/main/java/org/apache/iotdb/db/engine/bufferwriteV2/FlushManager.java:47-50 | in a list without duplicates an element occurs at most once |
| Basics.RemoveFirst | iotdb/src/main/java/org/apache/iotdb/db/engine/filenodeV2/FileNodeProcessorV2.java:360 | `remove` shortens the list by one when the element is present, leaves it unchanged otherwise, and adds nothing |
| Basics.RemoveFirstMultiset | iotdb/src/main/java/org/apache/iotdb/db/engine/filenodeV2/FileNodeProcessorV2.java:360 | `remove` takes away exactly one occurrence of the element and nothing else |
| Basics.RemoveFirstFromDistinct | iotdb/src/main/java/org/apache/iotdb/db/engine/filenodeV2/FileNodeProcessorV2.java:360 | removing from a duplicate-free closing list keeps it duplicate-free and leaves no copy of the element |
| TsFiles.TsFileResource.constructor | iotdb/src/main/java/org/apache/iotdb/db/engine/filenodeV2/FileNodeProcessorV2.java:251-253 | a new file's resource has its path, no start or end times, and is not closed |
| TsFiles.Processor.constructor | iotdb/src/main/java/org/apache/iotdb/db/engine/filenodeV2/FileNodeProcessorV2.java:251-252 | a new processor owns a fresh resource for the given file and has received no requests |
| TsFiles.Processor.Write | iotdb/src/main/java/org/apache/iotdb/db/engine/filenodeV2/FileNodeProcessorV2.java:265 | the write request is appended to the processor's requests |
| TsFiles.Processor.SetCloseMark | iotdb/src/main/java/org/apache/iotdb/db/engine/filenodeV2/FileNodeProcessorV2.java:343 | the close mark is appended and the processor is close-marked from then on |
| TsFiles.Processor.AsyncFlush | iotdb/src/main/java/org/apache/iotdb/db/engine/filenodeV2/FileNodeProcessorV2.java:346 | the flush request is appended to the processor's requests |
| TsFiles.Processor.ForceClose | iotdb/src/main/java/org/apache/iotdb/db/engine/filenodeV2/FileNodeProcessorV2.java:390 | the force-close request is appended to the processor's requests |
| StorageGroup.ReadStoreFromDiskOrCreate | iotdb/src/main/java/org/apache/iotdb/db/engine/filenodeV2/FileNodeProcessorV2.java:184-202 | a missing or empty restore file gives the empty store (not overflowed, no devices, no files, status NONE, version 0); otherwise the store is what the file decodes to, and a decoding failure is an error |
| StorageGroup.RouteUnsequenceNotNewer | iotdb/src/main/java/org/apache/iotdb/db/engine/filenodeV2/FileNodeProcessorV2.java:228-232 | when flushed watermarks are at most the latest times, an unsequence record is never newer than its device's latest time, and a newer record always goes to the sequence chain |
| StorageGroup.CopyLatestTimes | iotdb/src/main/java/org/apache/iotdb/db/engine/filenodeV2/FileNodeProcessorV2.java:349-351 | after the `put` loop every device with a latest time has it as its flushed time, and other flushed entries keep their values |
| StorageGroup.EndTimesFromLatest | iotdb/src/main/java/org/apache/iotdb/db/engine/filenodeV2/FileNodeProcessorV2.java:366-373 | the end-time map has exactly the devices of the start-time map, each mapped to its latest time, or null when it has none |
| StorageGroup.SelectedAtKeptPositions | iotdb/src/main/java/org/apache/iotdb/db/engine/filenodeV2/FileNodeProcessorV2.java:307-309 | each selected file is the chain's file at its kept position, and it has data |
| StorageGroup.KeptPositionsIncrease | iotdb/src/main/java/org/apache/iotdb/db/engine/filenodeV2/FileNodeProcessorV2.java:307-309 | kept positions strictly increase, so the chain's order is kept |
| StorageGroup.KeptPositionsComplete | iotdb/src/main/java/org/apache/iotdb/db/engine/filenodeV2/FileNodeProcessorV2.java:307-309 | every file with a non-empty start-time map is kept |
| StorageGroup.SelectedKeepsFilesWithData | iotdb/src/main/java/org/apache/iotdb/db/engine/filenodeV2/FileNodeProcessorV2.java:306-322 | the selection is exactly the files with data, in their original order, and never longer than the chain |
| StorageGroup.ForQueryDescribesSelected | iotdb/src/main/java/org/apache/iotdb/db/engine/filenodeV2/FileNodeProcessorV2.java:300-322 | a query's list for a chain has one entry per selected file, in order, each built from that file as the code builds it |
| StorageGroup.ForQueryCorrectedReadsUnsealedThroughProcessor | iotdb/src/main/java/org/apache/iotdb/db/engine/filenodeV2/FileNodeProcessorV2.java:296-318 | with the branch corrected, each entry is built from the selected file. It is an unsealed view exactly when that file is not closed, and such a view is of the queried device and measurement |
| StorageGroup.QueryAsWrittenSwapsSealedAndUnsealed | iotdb/src/main/java/org/apache/iotdb/db/engine/filenodeV2/FileNodeProcessorV2.java:310-318 | as written, an open file with data is passed on without its in-memory data, and a closed one is sent to its processor |
| StorageGroup.GetFileResourceListForQuery | iotdb/src/main/java/org/apache/iotdb/db/engine/filenodeV2/FileNodeProcessorV2.java:300-323 | the loop over a chain builds exactly the list the query composition describes |
| StorageGroup.Engine.constructor | iotdb/src/main/java/org/apache/iotdb/db/engine/filenodeV2/FileNodeProcessorV2.java:103-138 | the engine takes its file lists and latest-time map from the store, has no flushed times and no processors, and is valid |
| StorageGroup.Engine.Open | iotdb/src/main/java/org/apache/iotdb/db/engine/filenodeV2/FileNodeProcessorV2.java:127-138 | construction fails exactly when the restore file cannot be read; otherwise the engine's store is the one read |
| StorageGroup.Engine.OpenFile | iotdb/src/main/java/org/apache/iotdb/db/engine/filenodeV2/FileNodeProcessorV2.java:247-262 | a new processor on a file named after the record's time; its resource is appended to that chain's list only; nothing changes when opening fails |
| StorageGroup.Engine.FlushAndCheckShouldClose | iotdb/src/main/java/org/apache/iotdb/db/engine/filenodeV2/FileNodeProcessorV2.java:332-352 | a processor that should close joins its chain's closing list, clears the work pointer and receives the close mark before the flush; the flushed map becomes the latest map; validity is kept |
| StorageGroup.Engine.MarkClosing | iotdb/src/main/java/org/apache/iotdb/db/engine/filenodeV2/FileNodeProcessorV2.java:335-343 | the processor is appended to its chain's closing list, the chain's work pointer becomes null, the close mark is sent, the other chain is untouched, and validity is kept |
| StorageGroup.Engine.DelegateWrite | iotdb/src/main/java/org/apache/iotdb/db/engine/filenodeV2/FileNodeProcessorV2.java:264-277 | the write goes to the processor; only a successful write raises the device's latest time, to the maximum of the old time and the record's; a flush follows when asked |
| StorageGroup.Engine.WriteUnsealedDataFile | iotdb/src/main/java/org/apache/iotdb/db/engine/filenodeV2/FileNodeProcessorV2.java:243-278 | as written: a new file is opened when the pointer is null, but the work pointer is never bound to the new processor; it becomes null when the processor closes; an open failure writes nothing |
| StorageGroup.Engine.OpenWorkFile | iotdb/src/main/java/org/apache/iotdb/db/engine/filenodeV2/FileNodeProcessorV2.java:247-262 | corrected: the processor on the new file also becomes the chain's work processor |
| StorageGroup.Engine.WriteUnsealedDataFileCorrected | iotdb/src/main/java/org/apache/iotdb/db/engine/filenodeV2/FileNodeProcessorV2.java:243-278 | corrected: after the write the chain's work processor is the processor written to, unless it closed |
| StorageGroup.Engine.InitWatermarks | iotdb/src/main/java/org/apache/iotdb/db/engine/filenodeV2/FileNodeProcessorV2.java:224-225 | an unseen device starts at `Long.MIN_VALUE` in both maps; known devices keep their values |
| StorageGroup.Engine.Insert | iotdb/src/main/java/org/apache/iotdb/db/engine/filenodeV2/FileNodeProcessorV2.java:218-241 | a record goes to the sequence chain iff its time exceeds its device's flushed watermark, after the device is initialised to `Long.MIN_VALUE`. At most one file is added, to that chain only. The other chain's files, closing list and work processor are unchanged, and that processor receives no request. The processor written to receives the write, then the flush requests when asked. The result is true iff a processor accepted the write. Both watermark maps are given exactly. Flushed times stay at most the latest times |
| StorageGroup.LatestTimeNeverDecreases | iotdb/src/main/java/org/apache/iotdb/db/engine/filenodeV2/FileNodeProcessorV2.java:267-270 | the latest-time map an insert leaves keeps every device, holds the record's device, never lowers a time, and holds at least the record's time after a successful write |
| StorageGroup.FlushedTimeNeverDecreases | iotdb/src/main/java/org/apache/iotdb/db/engine/filenodeV2/FileNodeProcessorV2.java:348-351 | the flushed map an insert leaves keeps every device and never lowers a time, whether or not a flush copied the latest times |
| StorageGroup.Engine.InsertCorrected | iotdb/src/main/java/org/apache/iotdb/db/engine/filenodeV2/FileNodeProcessorV2.java:218-241 | as `Insert`, and the chain's work pointer is the processor written to unless it closed |
| StorageGroup.Engine.Query | iotdb/src/main/java/org/apache/iotdb/db/engine/filenodeV2/FileNodeProcessorV2.java:282-293 | each chain's list is its query composition, no longer than the chain |
| StorageGroup.Engine.QueryCorrected | iotdb/src/main/java/org/apache/iotdb/db/engine/filenodeV2/FileNodeProcessorV2.java:282-318 | corrected: one entry per file with data, in chain order. An entry is read through its processor, for the queried device and measurement, exactly when its file is not closed |
| StorageGroup.Engine.CloseCallback | iotdb/src/main/java/org/apache/iotdb/db/engine/filenodeV2/FileNodeProcessorV2.java:359-383 | as written: the processor leaves only the sequence closing list. With sequence files present, a null work pointer throws; otherwise the work sequence file's end times are the latest times of the devices in its start-time map before the call. That file's start-time map and closed flag do not change. The store is written when that succeeds |
| StorageGroup.Engine.CloseCallbackCorrected | iotdb/src/main/java/org/apache/iotdb/db/engine/filenodeV2/FileNodeProcessorV2.java:359-383 | corrected: the processor leaves both closing lists. Only its own file's end-time map changes, to the latest times of the devices in its start-time map before the call |
| StorageGroup.Engine.ForceClose | iotdb/src/main/java/org/apache/iotdb/db/engine/filenodeV2/FileNodeProcessorV2.java:385-396 | the work sequence processor, if any, joins the closing list, gets the force-close request and stops being the work processor; the unsequence chain is untouched |
| FlushScheduling.FlushManager.constructor | iotdb/src/main/java/org/apache/iotdb/db/engine/bufferwriteV2/FlushManager.java:28 | the manager starts with an empty queue, no flags and no tasks |
| FlushScheduling.FlushManager.QueuedAtMostOnce | iotdb/src/main/java/org/apache/iotdb/db/engine/bufferwriteV2/FlushManager.java:47-50 | a processor is queued at most once, and a queued processor has its managed flag set |
| FlushScheduling.FlushManager.RegisterUnsealedTsFileProcessor | iotdb/src/main/java/org/apache/iotdb/db/engine/bufferwriteV2/FlushManager.java:46-56 | registration succeeds iff the processor is unmanaged with memtables to flush. Success appends it to the tail, sets its flag and submits one task; failure changes nothing. The queue invariant is kept |
| FlushScheduling.FlushManager.TakeHead | iotdb/src/main/java/org/apache/iotdb/db/engine/bufferwriteV2/FlushManager.java:33-39 | the queue head is polled and its task consumed; one memtable is flushed, or on a failure the count it left is taken; the flag is cleared. The head is no longer queued and the queue invariant is kept |
| FlushScheduling.FlushManager.FlushThread | iotdb/src/main/java/org/apache/iotdb/db/engine/bufferwriteV2/FlushManager.java:32-41 | the worker takes the queue head and flushes one of its memtables; a failure is discarded. It clears the flag and requeues the processor iff memtables remain: after a successful flush iff more than one was pending, after a failure iff the failure left any. The queue invariant is kept |
| UnsealedReader.Reversed | iotdb/src/main/java/org/apache/iotdb/db/query/reader/sequence/UnSealedTsFileReaderV2.java:61 | reversal keeps the length |
| UnsealedReader.ReversedIndex | iotdb/src/main/java/org/apache/iotdb/db/query/reader/sequence/UnSealedTsFileReaderV2.java:61 | position `k` of the reversal holds position `n-1-k` of the list |
| UnsealedReader.ReversedTwice | iotdb/src/main/java/org/apache/iotdb/db/query/reader/sequence/UnSealedTsFileReaderV2.java:59-62 | reversing twice restores the list |
| UnsealedReader.Reverse | iotdb/src/main/java/org/apache/iotdb/db/query/reader/sequence/UnSealedTsFileReaderV2.java:61 | the in-place swap loop leaves the array holding its old contents reversed |
| UnsealedReader.UnsealedTsFileReader.constructor | iotdb/src/main/java/org/apache/iotdb/db/query/reader/sequence/UnSealedTsFileReaderV2.java:52-82 | metadata is reversed in place iff reverse reading; exactly two readers. The disk reader uses the file and that list, unfiltered iff no filter; the memory reader gets the same filter. Forward is disk then memory, reverse the opposite |
| EngineScenarios.RepeatedInsertsOpenNewFiles | iotdb/src/main/java/org/apache/iotdb/db/engine/filenodeV2/FileNodeProcessorV2.java:247-262 | as written, two in-order records with no flush between them open two sequence files |
| EngineScenarios.RepeatedInsertsReuseFile | iotdb/src/main/java/org/apache/iotdb/db/engine/filenodeV2/FileNodeProcessorV2.java:247-262 | corrected, the same two records share one sequence file |
| EngineScenarios.CloseCallbackAfterCloseThrows | iotdb/src/main/java/org/apache/iotdb/db/engine/filenodeV2/FileNodeProcessorV2.java:364-367 | as written, the close callback of the only sequence file, closed by an insert, throws a null-pointer exception |
| EngineScenarios.OutOfOrderRecordGoesToUnsequence | iotdb/src/main/java/org/apache/iotdb/db/engine/filenodeV2/FileNodeProcessorV2.java:228-232 | after (d1, 100) is flushed, (d1, 80) opens an unsequence file; each chain then holds one file |

## Left out

- Locks, `synchronized` blocks and thread interleavings: each operation is one atomic method, whether or not the source locks it (`query` holds no lock, and the close callback holds only the store's monitor), and a flush worker's run is one atomic step.
- UnsealedReader.UnsealedTsFileReader.constructor: the source does not show whether `getChunkMetaDatas()` returns the resource's own list. The model's disk reader shares the reversed array, so a second reverse read would flip it back under the first reader; this is not claimed as a defect.
- The flush thread pool: a submission is a counter of pending tasks.
- FlushScheduling.FlushManager.AddFlushingMemTable: the processor's own step of moving a memtable to its flushing list. It exists so a caller can reach states where registration succeeds; the processor's flushing-memtable count is a map owned by the manager.
- Restore-file I/O: serialising and deserialising the store is not modelled. A restore file is missing, empty, or present with what it decodes to. Writing the store is a list of stores written, with success as a parameter. Directory creation in the constructor is not modelled.
- `UnsealedTsFileProcessorV2` internals, including its updates of a file's start-time map, `shouldFlush`/`shouldClose` decisions, memtables and `queryUnsealedFile`. Its answers are parameters, and the view it builds for a query is a descriptor.
- `Directories` and the overflow data directory from `IoTDBDescriptor`: the base directory is a parameter.
- `MManager`, `FileSchema` construction and `addTimeSeries`, `SimpleFileVersionController`: not modelled. The measurement schema that `getFileReSourceListForQuery` looks up (and the null-pointer exception for an unknown measurement) is not modelled either.
- `FileReaderManager`, `ChunkLoaderImpl` and the reader implementations: readers are descriptors naming their file, metadata array and filter.
- The store statuses other than `NONE` are one opaque value; `isOverflowed`, status and version are copied from the store and never changed.
- StorageGroup.Engine.Insert: an exception other than a failed file open (for example from the processor's write) is not modelled; the only `false` results are a failed open and a refused write.
- StorageGroup.Engine.Open: the constructor also fails when `SimpleFileVersionController` cannot be created. That failure is not modelled, because the version controller is not part of this model. `Open` fails only when the restore file cannot be read.
- StorageGroup.Engine.CloseCallback: `setLatestTimeMap` and `setSequenceFileList` are modelled through the store sharing the engine's lists and map, so the store written is the engine's current state.
- The HTTP controller, back end, service and manager files are not part of this model.
- FlushScheduling.FlushManager.FlushThread: what a failed `flushOneMemTable` leaves pending is decided inside `UnsealedTsFileProcessorV2`, which is not part of this model. The count after a failure is a parameter, so the model does not promise that a failed flush is requeued.
- Logging.

## Findings

| source | as written | input that shows it | evidently intended | confidence | as-written member | corrected member |
|---|---|---|---|---|---|---|
| iotdb/src/main/java/org/apache/iotdb/db/engine/filenodeV2/FileNodeProcessorV2.java:247-262 | the processor opened for a chain without a work processor is assigned only to the method parameter, so the work pointer stays null | two inserts of device `root.sg.d1` at times 1 and 2, with no flush: two sequence files are opened | the new processor becomes the chain's work processor, and later records reuse its file | high, not executed | EngineScenarios.RepeatedInsertsOpenNewFiles | StorageGroup.Engine.InsertCorrected |
| iotdb/src/main/java/org/apache/iotdb/db/engine/filenodeV2/FileNodeProcessorV2.java:310-318 | a file that is not closed is passed to the query as it is, and a closed file is sent to its processor for an unsealed view | any open file with a non-empty start-time map: its in-memory data does not reach the query | open files are read through their processor's memory-and-disk view, closed files as they are | medium, not executed | StorageGroup.QueryAsWrittenSwapsSealedAndUnsealed | StorageGroup.ForQueryCorrectedReadsUnsealedThroughProcessor |
| iotdb/src/main/java/org/apache/iotdb/db/engine/filenodeV2/FileNodeProcessorV2.java:360-367 | the closed processor is removed only from the sequence closing list, and the end times go to the work sequence processor's file, which is null once that processor has closed | an insert whose processor asks to flush and close, then its close callback: null-pointer exception | the processor leaves the closing list that holds it, and its own file receives the end times | high, not executed | EngineScenarios.CloseCallbackAfterCloseThrows | StorageGroup.Engine.CloseCallbackCorrected |
