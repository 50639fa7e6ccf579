# Verified models of the tracer, the collector and the post-processing

This project models the parts of the tracer whose correctness spans several
functions, threads or machines, and proves properties of them in Dafny 4.11.
`dafny verify dfyconfig.toml` checks everything.

| part | modules |
|---|---|
| Call stacks: the stack replay and the relational pipeline that fill `ext_callstack` | `CallTrace`, `StackReplay`, `SqlPipeline`, `CallForest`, `CallStackTheorems`, `CallStackAgreement`, `CallStackTies`, `CallStackTotals`, `CallStackGpu` |
| Buffered ring tables with their worker, flushers and finalizer | `RingTable`, `RingRuns` |
| Row codecs, message framing, the collector's channels, the shared key space and the collected database | `ByteCodec`, `RowCodec`, `NetWire`, `WriterChannel`, `ChannelRuns`, `IdSpace`, `SqlSchema`, `TableCells`, `CollectedRows`, `CollectedReferences`, `FrameNames` |
| The writers of one file: temporary tables, flushes and what they lose | `WriterBackends`, `BackendRuns`, `FlushLosses`, `FrameLosses`, `FlushedFile` |
| Clock synchronisation: sequence lock, measurement filter, PI controller | `SeqLock`, `MeasurementWindow`, `DriftRegression`, `WindowStatistics`, `PiController` |
| String tables and the caches in front of them | `StringCaches` |
| roctx range stacks across pauses, monitor rows as runs | `RangeStacks`, `MonitorRuns` |
| Offline passes: string clean-up, queue depth, idle time | `StringDedupe`, `StringReferences`, `QueueDepth`, `IdleGaps` |
| Shared small facts | `Wrappers`, `Sequences`, `Sorting`, `Division` |

How each part is modelled:

* Code that changes objects in place is a class whose methods are proved
  against functions on a value (`View()`, `Over()`, or a parameter); the theorems
  are about those functions.
* A protocol between threads is a state machine. One action is one stretch
  between two points where the code releases its mutex (for the ring, writing
  one row of a batch is an action of its own; for the sequence lock, one load
  or store). A run is any sequence of enabled actions, so theorems about runs
  hold for every interleaving and any number of threads.
* A SQL query is a function over rows; where SQL leaves an order open, the
  theorem holds for each possible order.

Where code and documentation differ, the model follows the code:

* `call_stacks.py:14` says that both generators produce identical output. This
  holds for a given order of events if and only if each end event closes the
  call opened last (`SameOutputIffBracketed`), and for every order SQL may give
  to tied events if and only if the calls of a thread nest strictly
  (`AgreeForAllTiesIffStrict`). Starts sort before ends, so two calls that touch
  (`a.end == b.start`) already break it (`TouchingSiblingsDiffer`).
* `RemoteDataSource.cpp:51-53` says that foreign keys match after the offset.
  `StackFrameTable.cpp:59` binds `name_id` without it, so a frame's name is its
  own process's if and only if the frame is of session 0 of node 0 or the two
  processes agree there (`FrameNamesAreUnshifted`, `FrameNameGoesAstray`).
* The tracer's README (lines 18-19) says that processes can log to one file
  concurrently and that files can be appended.  `StackFrameTable.cpp:72` copies
  the ids of its temporary table, which count from 1 in every process: a flush
  that meets a taken id is refused, and the frames are deleted.  In the default
  mode no frame is lost if and only if at most one backend ever wrote frames to
  the file (`FramesKeptIffOneWriter`, `SecondFrameIsLost`); with direct writing
  none is (`DirectFramesKept`).
* `RemoteDataSource.cpp:45-46` promises 32K nodes.  Process numbers are ints, so
  with the schema's stride they fit up to node 213 (`PidsFitUpTo213`).
* `CopyApiTable.cpp:35` and `:37` list source before destination and the binding
  gives destination before source (`CopyEndsAreSwapped`).
* `strings.py:21` announces all columns that reference rocpd_string.  The list
  lacks the names of counters and of stack frames (`ListCoversAllButTwo`), which
  keep their text if and only if it keeps its id
  (`UnlistedReferenceKeepsTextIff`, `CounterNameDangles`).
* The idle-gap accounting counts a gap twice for an operation that ends before
  it starts and begins after all earlier ones have ended
  (`ReversedGapCountsTwice`); it is exact if and only if there is no such
  operation (`GapsAndBusyFill`).
* The idle counter of the JSON trace agrees with the depth counter if and only
  if the depth never goes negative (`WriteCounters`).  It stays non-negative under
  every order of equal times if and only if at no time more operations have ended
  than calls have started strictly before (`NonNegativeForAllTiesIffAhead`,
  `TiedEndGoesNegative`).

## Model

| member | source | states |
|---|---|---|
| CallStackAgreement.SameOutputIffBracketed | rocpd_python/rocpd/call_stacks.py:5-14 | For every table, every split into threads and every order of tied events: replay and SQL pipeline both succeed and store the same bag of rows if and only if every end event closes the call opened last |
| CallStackTies.AgreeForAllTiesIffStrict | rocpd_python/rocpd/call_stacks.py:64 | For a table alone: they agree under every order SQL may give to ties if and only if no call is reversed and any two calls of a thread are strictly nested or strictly apart |
| CallStackAgreement.TouchingSiblingsDiffer | rocpd_python/rocpd/call_stacks.py:152 | A concrete trace of two touching calls on which the outputs differ |
| CallStackAgreement.StrictTablesAgree | rocpd_python/rocpd/call_stacks.py:54-86 | A strictly nested table gives well-bracketed streams however ties fall, hence equal output |
| CallStackAgreement.BracketedIffTopsMatch | rocpd_python/rocpd/call_stacks.py:69-86 | A trace is well bracketed if and only if in the replay of every thread the call on top of the stack at every end event is the one that ends; the stack then ends empty |
| CallStackAgreement.UnclosedShows | rocpd_python/rocpd/call_stacks.py:74-85 | A replay that gets past an end event for a call other than the top emits a depth-0 row naming two calls |
| CallStackAgreement.SqlNeverMismatches | rocpd_python/rocpd/call_stacks.py:204-217 | The pipeline never stores a depth-0 row naming two calls |
| CallStackAgreement.RoundsSuffice | rocpd_python/rocpd/call_stacks.py:204-217 | The recursive query ends: on any trace, more rounds than there are calls add no row |
| CallStackTheorems.BracketedAgree | rocpd_python/rocpd/call_stacks.py:143-217 | On well-bracketed streams both generators succeed and store the same bag of rows |
| CallForest.ReplayForest | rocpd_python/rocpd/call_stacks.py:57-86 | Replaying the events of a forest emits exactly its rows, charges every open slot the forest's root time and leaves the rest of the stack as it was |
| CallForest.BracketedIsForest | rocpd_python/rocpd/call_stacks.py:60-65 | A well-bracketed stream of balanced events is the flattening of a forest |
| CallForest.DepthIsNesting | rocpd_python/rocpd/call_stacks.py:146-161 | The running sum of +1 and -1 gives each call its nesting depth |
| CallForest.ContainerIsParent | rocpd_python/rocpd/call_stacks.py:168-176 | Any call one level up that contains a call in time is its parent in the forest |
| CallForest.ParentFound | rocpd_python/rocpd/call_stacks.py:170-176 | Below the top level the tightest container is the parent in the forest |
| CallForest.SlimTreeOfForest | rocpd_python/rocpd/call_stacks.py:168-181 | slim_tree holds exactly the parent-child edges of the forest with the child's duration |
| CallStackTheorems.ForestLinks | rocpd_python/rocpd/call_stacks.py:184-217 | Along every path of the forest the join of phase 4 leads to the parent, and phase 3 sums exactly the direct children |
| CallStackTheorems.RecursionIsClimbs | rocpd_python/rocpd/call_stacks.py:204-217 | The recursive query yields exactly one climb to the root for every call of the forest |
| CallStackTheorems.ClimbsStoreRows | rocpd_python/rocpd/call_stacks.py:204-217 | The climbs, inserted, are the same bag of rows the replay emits |
| StackReplay.ReturnFrame | rocpd_python/rocpd/call_stacks.py:77-86 | The walk at an end event charges every slot below the top, emits one row a slot with falling depth, and pops |
| StackReplay.ReplayThread | rocpd_python/rocpd/call_stacks.py:57-86 | The loop over one thread's events computes Replay, IndexError on an unmatched end included, and leaves the stack StackAfter says |
| StackReplay.GenerateCallStacks | rocpd_python/rocpd/call_stacks.py:52-86 | The loop over threads computes ReplayAll |
| CallStackTotals.RowsConserveTime | rocpd_python/rocpd/call_stacks.py:74-86 | Rows under a call sum to its duration, no exclusive time is negative, the row count is the sum of depths and depth-0 rows sum to the top-level calls |
| CallStackTotals.ThreadConservesTime | rocpd_python/rocpd/call_stacks.py:57-86 | In every thread the depth-0 rows sum to its top-level calls, the row count is the sum of its depths and the stack ends empty |
| CallStackTotals.InclusiveViewIsDuration | rocpd_python/rocpd/call_stacks.py:241-244 | The inclusive view gives every call of the table its full duration, from either generator |
| CallStackGpu.EveryRowCarriesItsTime | rocpd_python/rocpd/call_stacks.py:75-85 | On any trace, every row that either generator stores has as gpu_time the GPU time of its child call, 0 for a call without operations |
| CallStackGpu.GpuUnderCall | rocpd_python/rocpd/call_stacks.py:241-244 | The inclusive view gives a call the GPU time of all calls its thread starts from its start event up to its end event, from either generator |
| CallStackGpu.GpuTimeIsConserved | rocpd_python/rocpd/call_stacks.py:245-248 | The gpu times of depth 0 add up to that of the calls of the table, from either generator |
| CallStackGpu.OperationsCountedOnce | rocpd_python/rocpd/call_stacks.py:45-50 | They add up to the durations of the linked operations, one for every link of a call of the table to an operation that exists |
| RingTable.OpTable.Insert | rpd_tracer/OpTable.cpp:154-170 | A row gets the next id and its slot; nothing else changes |
| RingTable.OpTable.WriteBatch | rpd_tracer/OpTable.cpp:59-87 | For each row from start to end, slot index modulo capacity: the operation and its api_ops link, keys and references at the offset |
| RingTable.OpTable.TakeBatch | rpd_tracer/OpTable.cpp:191-198 | The batch fixed under the mutex is the next at most BATCHSIZE rows, or none |
| RingTable.OpTable.Work | rpd_tracer/BufferedTable.cpp:91-122 | The worker's control flow between two mutex releases equals the function the runs use |
| RingRuns.RunKeeps | rpd_tracer/BufferedTable.cpp:50-122 | The invariant of ring, batch, backend, flush flag and exit over every interleaving |
| RingRuns.BackendIsHistory | rpd_tracer/OpTable.cpp:154-205 | In every reachable state at most BUFFERSIZE rows wait, the backend holds a prefix of the inserted rows, each once and in order, and row k carries id k |
| RingRuns.BatchNotOverwritten | rpd_tracer/OpTable.cpp:157-201 | No insert touches a slot of the batch being written while the mutex is released |
| RingRuns.FlushBarrier | rpd_tracer/BufferedTable.cpp:50-62 | With any concurrent inserters and flushers, when flush() ends all rows inserted before it began are in the main table, in order |
| RingRuns.ExitDrains | rpd_tracer/BufferedTable.cpp:65-122 | The worker leaves only when done and empty, and finalize() then moves all rows up to that point to the main table |
| RingRuns.StepCommits | rpd_tracer/OpTable.cpp:191-205 | A pass of a write loop releases at least one row and at most a batch; no other step of any thread moves what is committed |
| RingRuns.FlushLoopIsBounded | rpd_tracer/BufferedTable.cpp:102-110 | Between any two moments of any run, as long as no flush asks for more than a target, at most target - tail passes of the flush loop begin, so the loop ends |
| RingRuns.WaitsIff | rpd_tracer/BufferedTable.cpp:95-116 | Taking the mutex the worker goes to wait if and only if it is not done, no flush needs rows and, unless it returns from the flush loop, no full batch is pending |
| RingRuns.WaitsWithNothingToDo | rpd_tracer/BufferedTable.cpp:102-116 | In any run the worker never goes to wait with a flush outstanding or a blocked flusher unserved, and with a full batch only from the flush loop |
| RingRuns.SleepsOnFullBatch | rpd_tracer/BufferedTable.cpp:102-115 | A run in which it does: two rows inserted while a flush is written leave a full batch behind a worker that goes to wait |
| RingRuns.RunningIffAwake | rpd_tracer/OpTable.cpp:166-169 | In every run workerRunning is false while the worker waits and true until it has left, so an insert that fills a batch notifies a waiting worker |
| RingRuns.WhoIsBlocked | rpd_tracer/OpTable.cpp:154-205 | In every reachable state the worker, until it leaves, can make exactly one next step, an insert is blocked exactly by a full ring and a flush exactly by its flag |
| RingRuns.WaitingIffInFlush | rpd_tracer/BufferedTable.cpp:50-58 | In every run those who wait for a flush are exactly those whose last step was to begin one |
| RingRuns.DoneTellsHistory | rpd_tracer/BufferedTable.cpp:65-76 | In every run the worker is told to stop exactly from finalize() on |
| RingRuns.ExitStrandsFlush | rpd_tracer/BufferedTable.cpp:50-58 | A flush that is waiting when the worker leaves is never ended by anyone |
| RingRuns.FinalizeStrandsFlush | rpd_tracer/BufferedTable.cpp:65-76 | For any sizes, a run in which this happens: a finalizer overtakes a flush |
| ByteCodec.IntRoundTrip | rpd_tracer/ByteBuffer.h:16-44 | 32- and 64-bit integers read back as written, sign included |
| ByteCodec.StringRoundTrip | rpd_tracer/ByteBuffer.h:29-64 | In any surrounding bytes a string reads back as written if and only if its length fits 32 bits; otherwise it is cut; the cursor ends behind it |
| ByteCodec.ByteBuffer.ReadString | rpd_tracer/ByteBuffer.h:55-64 | Text, cursor and error flag of a read, also when the length points past the end |
| RowCodec.SameOrder | rpd_tracer/CopyApiTable.cpp:198-226 | All nine tables read their columns in the order and with the widths they write them |
| RowCodec.RowRoundTrip | rpd_tracer/OpTable.cpp:214-236 | Any row of any table, anywhere in a buffer, reads back unchanged and leaves the cursor behind it |
| RowCodec.Serialize | rpd_tracer/KernelApiTable.cpp:189-201 | Writing column by column appends the row's bytes |
| RowCodec.Deserialize | rpd_tracer/ApiTable.cpp:210-220 | Reading column by column yields the row and the cursor of GetRow, errors included |
| RowCodec.BatchFrom | rpd_tracer/RemoteDataSource.cpp:54-64 | A batch reads back as the very rows written |
| RowCodec.CutBatchFails | rpd_tracer/ByteBuffer.h:55-96 | Of a genuine batch cut after any number of bytes, whatever precedes it, the reader ends with the error flag set if and only if some bytes are missing |
| RowCodec.BatchAtLeast | rpd_tracer/RemoteDataSource.cpp:435-463 | A batch takes at least 12 bytes a row, so the minimum-size guard never turns a genuine batch away |
| NetWire.NetWriterBackend.WriteBatch | rpd_tracer/NetWriterBackend.cpp:71-103 | The loop over the ring slots sends header and payload of exactly these rows |
| NetWire.NetWriterBackend.Flush | rpd_tracer/NetWriterBackend.cpp:105-120 | A flush is a header with no rows and no payload |
| NetWire.RecvMessage | rpd_tracer/RemoteDataSource.cpp:438-505 | A message is queued if and only if it is complete and passes every guard; the next one starts behind it |
| NetWire.RecvLoop | rpd_tracer/RemoteDataSource.cpp:431-508 | The queue after the loop is Received of the bytes |
| NetWire.WireRoundTrip | rpd_tracer/RemoteDataSource.cpp:431-508 | Any sequence of genuine batches and flushes arrives complete, in order and unchanged |
| NetWire.RowsArrive | rpd_tracer/RemoteDataSource.cpp:54-64 | Deserializing an arrived batch gives the rows the sender wrote, with no error and no byte left |
| NetWire.ReceivedPrefix | rpd_tracer/RemoteDataSource.cpp:438-508 | Cutting any byte stream, genuine or not, loses items only at its end |
| NetWire.BrokenWire | rpd_tracer/NetWriterBackend.cpp:96-120 | A connection that breaks at any byte delivers a prefix of what was sent |
| WriterChannel.Writer.RequestFlush | rpd_tracer/RemoteDataSource.cpp:344-357 | A numbered flush mark is queued unless the channel is done |
| WriterChannel.Writer.SignalFlushComplete | rpd_tracer/RemoteDataSource.cpp:315-325 | Completion only rises; number 0 changes nothing |
| WriterChannel.DrainedHandlesAll | rpd_tracer/RemoteDataSource.cpp:548-560 | Draining any queue handles each entry once and in order: every batch reaches the backend behind what it had, and completion rises to the highest mark |
| WriterChannel.Writer.Drain | rpd_tracer/RemoteDataSource.cpp:548-563 | The loop empties the queue, and the main table then holds what both tables had followed by every queued batch in order |
| ChannelRuns.RunKeeps | rpd_tracer/RemoteDataSource.cpp:517-564 | The invariant of queue, numbers, completion, backend and shutdown over every interleaving |
| ChannelRuns.FifoExactlyOnce | rpd_tracer/RemoteDataSource.cpp:517-546 | The backend has the batches in queueing order, each once; every numbered mark in the queue is within nextFlushSeq, and they ascend |
| ChannelRuns.DrainFindsNothing | rpd_tracer/RemoteDataSource.cpp:526-560 | In every run the writer reaches its drain loop with an empty queue, since it leaves the main loop only then and nothing is queued after done |
| ChannelRuns.CompletionCovers | rpd_tracer/RemoteDataSource.cpp:315-325 | completedFlushSeq >= n means everything queued before mark n is in the main table |
| ChannelRuns.FlushWaitsForAll | rpd_tracer/RemoteDataSource.cpp:327-365 | When a flush() returns, every batch queued before it began is in the main table, in order |
| ChannelRuns.NoFlushForgotten | rpd_tracer/RemoteDataSource.cpp:327-365 | In every reachable state in which the queue is empty and the writer neither handles nor signals, every caller in flush() can return, so none is left behind at the writer's exit |
| ChannelRuns.WriterNeverStuck | rpd_tracer/RemoteDataSource.cpp:517-564 | The writer has a next step unless it has left or waits, with an empty queue, for an entry or for done |
| ChannelRuns.WriterRests | rpd_tracer/RemoteDataSource.cpp:517-564 | Between any two moments of any run the writer makes no more steps than it had left plus three for each entry queued meanwhile |
| ChannelRuns.WaitingIffInFlush | rpd_tracer/RemoteDataSource.cpp:344-365 | In every run those who wait for a flush are exactly those whose last step was to begin one |
| ChannelRuns.FlagsTellHistory | rpd_tracer/RemoteDataSource.cpp:250-298 | In every run receiving ends exactly with the joined receivers, done is set exactly from its step on and the writer has left exactly from its last step on |
| ChannelRuns.ShutdownLosesNothing | rpd_tracer/RemoteDataSource.cpp:280-302 | Nothing is queued after done, and an exited writer has put every batch ever queued into the main table |
| IdSpace.KeysNeverCollide | rpd_tracer/RemoteDataSource.cpp:35-49 | Keys of rows below 2^32, sessions below 2^16 and nodes below 2^15 are distinct and below 2^63 |
| IdSpace.AnnotationsStayApart | rpd_tracer/Storage.h:39-61 | Annotation keys never meet keys of ordinary rows of any process |
| SqlSchema.OffsetGoesToLinks | rpd_tracer/ApiTable.cpp:55-67 | In every table the offset is bound to exactly the keys and references the schema declares, except the name of a stack frame |
| SqlSchema.LinksTravel | rpd_tracer/KernelApiTable.cpp:189-201 | Every key or reference column is bound to a 64-bit field that the row carries on the wire |
| SqlSchema.StoredMoves | rpd_tracer/RemoteDataSource.cpp:54-111 | What a statement stores at an offset is what it stores at home with the offset, and in 32 bits the node stride, added to the columns that get them |
| SqlSchema.FlushCopiesColumns | rpd_tracer/StackFrameTable.cpp:72 | Every flush statement copies all bound columns; of the tables whose ids the tracer does not choose, exactly stack frames have the temporary id copied too |
| SqlSchema.PidsFitUpTo213 | rpd_tracer/RemoteDataSource.cpp:83-84 | Every process number below the stride survives the 32-bit addition if and only if the node is at most 213 |
| SqlSchema.CopyEndsAreSwapped | rpd_tracer/CopyApiTable.cpp:36-77 | The copy table stores destination in its source columns and source in its destination columns |
| TableCells.ColumnsMean | rpd_tracer/OpTable.cpp:62-85 | For each of the ten tables and any row that arrived: which columns it has, and what each holds in terms of the struct field, offset, stride and text for non-positive sizes included |
| TableCells.WireOpIsRingOp | rpd_tracer/OpTable.cpp:66-84 | An operation that went over the wire is stored column by column, in both tables, as the ring's worker stores it |
| CollectedRows.Collector.DeserializeAndWrite | rpd_tracer/RemoteDataSource.cpp:54-64 | Reading rowCount rows off the buffer and running each row's insert statements at the process's offset adds exactly that batch to what has been collected |
| CollectedRows.CollectedHoldsEach | rpd_tracer/OpTable.cpp:59-87 | With direct writing, whatever order batches of all processes arrive in, the database holds each process's own database, moved: keyed rows under moved keys, all others in the same order |
| CollectedRows.CollectedRowIsOwn | rpd_tracer/OpTable.cpp:59-87 | With direct writing, every row is a row of its writer's own database, moved |
| CollectedRows.OnlyFrameNamesLackIt | rpd_tracer/StackFrameTable.cpp:55-60 | Every reference on a path is written with the offset unless the path leaves a stack frame by its name |
| CollectedRows.JoinsSurviveCollection | rpd_tracer/OpTable.cpp:68-81 | With direct writing every row a process wrote is collected, and every chain of joins from it by references bound with the offset ends at the row it ends at in the process's own database, or dangles where that does, with the same columns but for keys, references and strides |
| CollectedReferences.SentRowsAreStored | rpd_tracer/RemoteDataSource.cpp:50-64 | Every row a process sent is in the collected database or has found its key taken, in each table its own table feeds |
| CollectedReferences.FirstStays | rpd_tracer/RemoteDataSource.cpp:54-64 | A row whose key is free when its statement is run is under that key in the collected database, whatever comes later in its batch or after it |
| CollectedReferences.StatementsFollowRows | rpd_tracer/OpTable.cpp:62-86 | The statements of a batch follow its rows in order, an operation before its link |
| CollectedReferences.ReferencesDeclared | rocpd_python/rocpd/schema_data/tableSchema.cmd:2-16 | The references followed here are the declared ones but for the name of a stack frame |
| CollectedReferences.ReferencesEnd | rpd_tracer/OpTable.cpp:66-81 | The join of a collected row by any of them ends at a row that its own process sent under the number in the row's field, and dangles if and only if it sent none |
| CollectedReferences.TextsFound | rpd_tracer/RemoteDataSource.cpp:50-64 | Where a process sent one text under a number, descriptions, operation types, names, domains, categories and arguments with that number join to that text |
| WriterBackends.SqliteBackend.InsertRow | rpd_tracer/StackFrameTable.cpp:48-65 | A row goes to the temporary or, with direct writing, the main table under its key or the next id, unless its key is taken |
| WriterBackends.SqliteBackend.FlushRows | rpd_tracer/OpTable.cpp:89-101 | Each table is copied whole or refused whole, and the temporary tables are emptied either way |
| BackendRuns.RowsConserved | rpd_tracer/OpTable.cpp:89-101 | At every moment of every run of any number of backends, each row is in the main tables, in temporary ones and lost as often as it was written in all |
| BackendRuns.LosesIff | rpd_tracer/StackFrameTable.cpp:67-76 | A step loses rows if and only if the key of an inserted row is taken, or a flush copies an id that is taken |
| FlushLosses.OthersNeverLost | rpd_tracer/OpTable.cpp:96 | Rows of api_ops, counter and monitor are never lost in any run |
| FlushLosses.KeyedLostIffTwice | rpd_tracer/ApiTable.cpp:73-82 | Once everything has been flushed, a row of a keyed table has been lost if and only if some key was written twice |
| FrameLosses.FramesKeptIffOneWriter | rpd_tracer/StackFrameTable.cpp:67-76 | In the default mode, once everything has been flushed, no stack frame has been lost if and only if at most one backend ever wrote any |
| FrameLosses.DirectFramesKept | rpd_tracer/StackFrameTable.cpp:33-38 | If frames are written directly only, none is lost in any run |
| FrameLosses.SecondFrameIsLost | rpd_tracer/StackFrameTable.cpp:72-74 | Two backends of one file each write and flush a frame: the file holds the first and the second is lost |
| FlushedFile.FlushedKeyedIsDirect | rpd_tracer/OpTable.cpp:89-101 | If no key is written twice, the keyed tables of a flushed file are those of direct writing, however backends and flushes interleave |
| FlushedFile.FlushedLooseIsDirect | rpd_tracer/CounterTable.cpp:88-97 | Rows without a key of their own are in a flushed file as often as direct writing stores them; for stack frames this holds if and only if none was lost |
| FlushedFile.JoinsSurviveFlushing | rpd_tracer/OpTable.cpp:68-101 | Every chain of joins in a flushed file ends where it does in the process's own database; the row it starts from is there unless it is a frame and frames were lost |
| FlushedFile.BatchesOnceIffEachOnce | rpd_tracer/RemoteDataSource.cpp:35-49 | No key is written twice in a file if and only if no process writes one twice |
| FrameNames.FrameNamesAreUnshifted | rpd_tracer/StackFrameTable.cpp:55-60 | With direct writing a collected frame's name joins to what session 0 of node 0 has at that id; it joins to its own process's string if and only if the frame is that process's or the two agree there |
| FlushedFile.FlushedFrameNames | rpd_tracer/StackFrameTable.cpp:55-60 | In a flushed file a frame's name joins in the same way |
| FrameNames.FrameNameGoesAstray | rpd_tracer/StackFrameTable.cpp:59 | Two sessions with different texts under one string id, where the frame of the second joins to the text of the first |
| IdSpace.AdjustCalls | rpd_tracer/RemoteDataSource.cpp:76-88 | The in-place loop adds node * stride to pid and tid of every row |
| IdSpace.StrideDecodes | rpd_tracer/RemoteDataSource.cpp:27-33 | Division by the stride recovers node and number if and only if the number was below the stride |
| SeqLock.NeverTorn | rpd_tracer/Utility.h:70-87 | With any number of readers, a reader that leaves its loop has all words of one completed update |
| SeqLock.NeverStale | rpd_tracer/Utility.h:78-83 | It is the update completed last at the reader's final check |
| SeqLock.EvenMeansComplete | rpd_tracer/Firefly.cpp:212-221 | Sequence 0 means no update has begun; an even nonzero one means the words are a completed update |
| SeqLock.UpdateEnds | rpd_tracer/Firefly.cpp:212-221 | Whatever readers do meanwhile, an update can end exactly when its four stores are made, and then is the shared value and the last finished one, the sequence two further |
| SeqLock.EmptyHandedIffNothingBegun | rpd_tracer/Utility.h:71-73 | A step leaves a reader empty-handed if and only if it is the reader's first and no update has begun |
| SeqLock.ReadsWhatIsFinished | rpd_tracer/Utility.h:70-83 | A reader that enters after a finished update leaves only with a finished update, none older than that one |
| SeqLock.UndisturbedLeaves | rpd_tracer/Utility.h:78-83 | With the writer resting, six steps of its own take a reader from loading the sequence to leaving with the last finished update, however other readers' steps fall in between |
| MeasurementWindow.WalkReadsEachOnce | rpd_tracer/Firefly.cpp:23-31 | The modulo walk reads each live slot exactly once for any count and capacity |
| MeasurementWindow.MeasurementBuffer.Record | rpd_tracer/Firefly.cpp:195-200 | Recording appends to the history the ring stands for |
| MeasurementWindow.MeasurementBuffer.Window | rpd_tracer/Firefly.cpp:252-258 | The copy is the latest measurements in recording order |
| MeasurementWindow.ReadLatestMeasurements | rpd_tracer/Firefly.cpp:13-112 | Collecting, sorting, windowing, filtering and summing in loops gives the samples, offset and drift rate of an analysis of the role's samples on the walk, in some order of time, every early return included |
| DriftRegression.ZeroIffSimultaneous | rpd_tracer/Firefly.cpp:94-99 | The regression's denominator is never negative and zero exactly when all timestamps coincide |
| DriftRegression.DriftOfLine | rpd_tracer/Firefly.cpp:78-110 | Samples on a line, not all at one time, give exactly the line's slope as drift rate |
| DriftRegression.SlopeIsLeastSquares | rpd_tracer/Firefly.cpp:78-101 | For any samples not all taken at one time no line is nearer, in the sum of squared distances, than one with the reported drift rate |
| MeasurementWindow.WindowIsLatest | rpd_tracer/Firefly.cpp:37-43 | However equal times are sorted, the window holds the latest samples: as many as fit, and nothing left out is newer than anything kept |
| MeasurementWindow.RetainedAreWithinFence | rpd_tracer/Firefly.cpp:59-69 | A sample is retained if and only if it is in the window and within three interquartile ranges of its quartiles |
| MeasurementWindow.FenceKeepsMiddle | rpd_tracer/Firefly.cpp:51-69 | With two samples or more the fence keeps at least 3n/4 - n/4 + 1 of them |
| MeasurementWindow.FilterLeavesTwo | rpd_tracer/Firefly.cpp:71-75 | Whatever the order of equal times, the early return after filtering is unreachable |
| MeasurementWindow.OffsetWithinSamples | rpd_tracer/Firefly.cpp:95-109 | Whatever the order of equal times, the reported offset lies between the least and the greatest retained one |
| MeasurementWindow.MiddleIsAccepted | rpd_tracer/Firefly.cpp:263-282 | A latest offset between the quartiles is never rejected |
| WindowStatistics.FenceIsQuartiles | rpd_tracer/Firefly.cpp:52-62 | The fence stands on q1 and q3 if and only if, by counting, they have the ranks n / 4 and 3n / 4 among the samples |
| WindowStatistics.RejectedIffFarOut | rpd_tracer/Firefly.cpp:262-282 | A latest offset is turned away if and only if more than ten were taken, some are retained and it lies more than three interquartile ranges outside their quartiles |
| WindowStatistics.OffsetIsMedian | rpd_tracer/Firefly.cpp:93-109 | The reported offset has rank n / 2 among the retained ones, or is their mean cut toward zero when all were taken at one time |
| PiController.Firefly.Run | rpd_tracer/Firefly.cpp:240-309 | One call: nothing without a measurement or for one the gate turns away, else one controller update with the newest measurement |
| PiController.Firefly.Correct | rpd_tracer/Firefly.cpp:284-309 | First measurement adopted as it is; later ones through I term, clamp and P term |
| PiController.FrequencyBounded | rpd_tracer/Firefly.cpp:299-303 | Whatever is measured, the learned drift stays within 500 ppm |
| PiController.Contracts | rpd_tracer/Firefly.cpp:292-306 | An unclamped step takes exactly a tenth of the energy 0.02 e^2 + 0.12 e h + h^2 |
| PiController.EnergyBounds | rpd_tracer/Firefly.cpp:292-306 | The energy bounds the squared error and the squared drift lag |
| PiController.ConvergesGeometrically | rpd_tracer/Firefly.cpp:292-308 | From a start within the bound the clamp never acts, and after n updates e^2 <= 0.9^n V0 / 0.0164 |
| PiController.TracksDrift | rpd_tracer/Firefly.cpp:284-308 | With offsets cut to integers and measurement jitter the clamp still never acts and the squared error falls geometrically to a floor proportional to (jitter + 1)^2 |
| PiController.FirstOfRun | rpd_tracer/Firefly.cpp:286-290 | From a reset controller the first measurement is published as it is; the second finds its distance from the first as error and the whole drift as lag, an energy that drift and jitter bound |
| PiController.TracksFromReset | rpd_tracer/Firefly.cpp:286-308 | From a reset controller, under a condition on drift and jitter alone, the squared error falls geometrically from that energy to the floor, by 0.95 an update |
| PiController.NeverClamped | rpd_tracer/Firefly.cpp:295-303 | Under the same condition the clamp never acts: every learned drift is the unclamped one |
| PiController.TrackableRange | rpd_tracer/Firefly.cpp:292-308 | The condition holds up to 200 ppm of drift with 8 microseconds of jitter |
| PiController.LearnsNearest | rpd_tracer/Firefly.cpp:295-303 | The learned drift is the admissible one nearest to what the error asks for, also where the clamp acts |
| PiController.SlewBounded | rpd_tracer/Firefly.cpp:295-308 | Whatever is measured, an update after the first moves the published offset by at most a tenth of the error plus 50001 ns |
| StringCaches.StringTable.GetOrCreate | rpd_tracer/StringTable.cpp:135-180 | One id per text; a new text goes last, all other ids stay |
| StringCaches.LocalStringCache.Lookup | rpd_tracer/LocalStringCache.h:30-59 | Through pointer reuse, refresh and eviction: the id getOrCreate would give, and the table as it would leave it |
| StringCaches.CachedIds | rpd_tracer/LocalStringCache.h:12-62 | Over a whole run of lookups, insertions by others and storage resets the answers and the table of every generation are those of the table alone |
| StringCaches.IdsNameTexts | rpd_tracer/LocalStringCache.h:30-59 | Those answers are one for each look, and each names the text looked up in the table, as it finally is, of its generation; no table holds a text twice |
| StringCaches.TextsAreMentioned | rpd_tracer/StringTable.cpp:135-180 | A text is in the table of a generation if and only if it is the empty one or was looked up or added in that generation |
| StringCaches.UStringTable.Create | rpd_tracer/UStringTable.cpp:135-170 | The empty text is 1, any other text a new last row |
| StringCaches.UStringCache.Lookup | rpd_tracer/UStringCache.h:32-80 | For any hash function the id names the text in the current table, empty as 1; a non-empty text is appended exactly when its slot does not hold it, and holds it from then on, no other slot changing |
| StringCaches.CachedNames | rpd_tracer/UStringCache.h:16-91 | Over a whole run the table of each generation is the empty text followed by every text others add and every text looked up that was not the last in its slot, in order; every look gets an answer that names its text in the final table of its generation |
| RangeStacks.RangesStayNested | rpd_tracer/RoctxDataSource.cpp:160-257 | Over any run with a clock that never goes back, any two rows of a thread are nested or apart, drained and pre-existing ones included |
| RangeStacks.RowsAreCounted | rpd_tracer/RoctxDataSource.cpp:160-227 | Rows plus open ranges equal active pushes, active pops without push and marks |
| RangeStacks.PushHasItsRow | rpd_tracer/RoctxDataSource.cpp:160-257 | A recorded push is closed only by the pop that takes its thread's stack back to its height or by the stop that ends tracing, and gets a row from its own time to that moment |
| RangeStacks.RowsLieInStretches | rpd_tracer/RoctxDataSource.cpp:160-257 | Every row lies inside one stretch of tracing: it starts no earlier than the call that switched tracing on last before it was emitted, and ends at the call that emitted it, tracing being on all that time |
| RangeStacks.OrphanPopHasItsRow | rpd_tracer/RoctxDataSource.cpp:200-217 | A pop without a push gets exactly the row from the time tracing was last switched on to its own |
| RangeStacks.MarkHasItsRow | rpd_tracer/RoctxDataSource.cpp:137-158 | A mark has the row of its own instant while tracing is on, and none otherwise |
| RangeStacks.StartsAndStopsAlternate | rpd_tracer/Logger.cpp:87-107 | Tracing is on exactly while the count is positive, so starts and stops alternate |
| RangeStacks.RoctxDataSource.DrainStacks | rpd_tracer/RoctxDataSource.cpp:101-117 | The nested loops close every open range of every thread, innermost first |
| RangeStacks.RoctxDataSource.RangePush | rpd_tracer/RoctxDataSource.cpp:160-184 | A push does what the runs say of it and returns the depth below it, or -1 while tracing is off |
| RangeStacks.RoctxDataSource.RangePop | rpd_tracer/RoctxDataSource.cpp:186-227 | The three outcomes of a pop are what the runs say of it, with the depth left or -1 |
| RangeStacks.RoctxDataSource.MarkA | rpd_tracer/RoctxDataSource.cpp:137-158 | A mark does what the runs say of it |
| RangeStacks.Logger.Rpdstop | rpd_tracer/Logger.cpp:98-107 | Only the last stop drains |
| MonitorRuns.MonitorTable.Insert | rpd_tracer/MonitorTable.cpp:145-166 | One sample steps its own key's run and leaves every other key's rows alone |
| MonitorRuns.MonitorTable.EndCurrentRuns | rpd_tracer/MonitorTable.cpp:191-200 | Every key's open run is closed once, whatever the order of keys |
| MonitorRuns.StretchIsEncoded | rpd_tracer/MonitorTable.cpp:145-200 | Between resets a key gains exactly the run-length encoding of its samples: contiguous runs, neighbours differ, each sample covered by the run of its value |
| MonitorRuns.RunsApart | rpd_tracer/MonitorTable.cpp:160-165 | Runs of one stretch do not overlap |
| StringDedupe.CleanStrings | rocpd_python/rocpd/strings.py:57-92 | The statements, loop by loop, produce a database that is Cleaned |
| StringDedupe.SelectTexts | rocpd_python/rocpd/strings.py:77-79 | Each active text once, by ascending id of one of its owners |
| StringDedupe.ReferencesKeepText | rocpd_python/rocpd/strings.py:82-92 | Every reference in a relinked column keeps its text; a dangling one becomes 1 |
| StringReferences.StringUsers | rocpd_python/rocpd/strings.py:26-39 | The loop lists the well-known columns and then each registered one once |
| StringReferences.ListCoversAllButTwo | rocpd_python/rocpd/strings.py:26-33 | The well-known columns are exactly the declared references to rocpd_string but for the names of counters and of stack frames |
| StringReferences.Clean | rocpd_python/rocpd/strings.py:57-92 | The listed columns of a whole database are cleaned and all others left alone |
| StringReferences.ListedReferencesKeepText | rocpd_python/rocpd/strings.py:82-92 | Every reference in a listed column of the database keeps its text; a dangling one becomes 1 |
| StringReferences.UnlistedReferenceKeepsTextIff | rocpd_python/rocpd/strings.py:67-92 | A reference in any other column is not touched and keeps its text if and only if the text keeps its id |
| StringReferences.CounterNameDangles | rocpd_python/rocpd/strings.py:26-33 | Three strings, an operation naming 2 and a counter naming 3: the table becomes the operation's text alone and the counter's name dangles |
| StringDedupe.TableIsTight | rocpd_python/rocpd/strings.py:57-79 | The new table repeats no text and holds no unreferenced row |
| StringDedupe.SelectionIsForced | rocpd_python/rocpd/strings.py:77-79 | On a clean table the selection can only be the table itself |
| StringDedupe.SecondRunChangesNothing | rocpd_python/rocpd/strings.py:57-92 | A second run changes no reference and no row |
| QueueDepth.WriteCounters | rocpd_python/rocpd/tracing.py:289-307 | One depth row an event, with the idle value on display that the events determine; that agrees with every depth if and only if the depth never goes negative; one idle row, at the event's time, for every change of the value |
| QueueDepth.DepthIsOutstanding | rocpd_python/rocpd/tracing.py:291-303 | With operations ending after their calls start, under any order of ties the depth is the number of calls issued and not finished |
| QueueDepth.DepthEndsAtZero | rocpd_python/rocpd/tracing.py:276-303 | Every timeline ends with depth 0 |
| QueueDepth.ForwardLinksNeverNegative | rocpd_python/rocpd/tracing.py:276-303 | With operations ending after their calls start, no order of ties takes the depth below zero |
| QueueDepth.NonNegativeForAllTiesIffAhead | rocpd_python/rocpd/tracing.py:276-303 | No order of tied times goes negative if and only if at no time more operations have ended than calls have started strictly before |
| QueueDepth.TiedEndGoesNegative | rocpd_python/rocpd/tracing.py:287-303 | An operation ending when its call starts, end first: depth -1 while idle shows 1, then 0 while idle shows 0 |
| IdleGaps.GapsAndBusyFill | raptor/raptor_parser.py:357-362 | Gaps plus the measure of the union of operations fill first start to last end if and only if no reversed operation opens a gap |
| IdleGaps.RegionIsAccountedFor | raptor/raptor_parser.py:460-465 | For every GPU leading idle, gaps, busy union and trailing idle add up to the region of interest under the same condition, however equal starts are ordered |
| IdleGaps.ReversedGapCountsTwice | raptor/raptor_parser.py:357-362 | Operations (0,1), (10,5), (12,13): gaps 16 and busy time 2 in a stretch of 13 |

## Left out

- Liveness, fairness, wake-ups and timeouts: only safety and loop termination. A flush() of the collector that times out is not modelled.
- SQLite, sockets, shared memory and clocks: the backend is a temporary log that a flush appends to the main one, a connection is the bytes that arrived, the clock is an input. A backend flush is one step, also beside a batch being written.
- Weak memory ordering and the 32-bit wrap of the sequence number in the sequence lock; 32-bit overflow of head, tail and the flush numbers.
- Floating-point rounding: the controller and the filter use exact numbers, and the cut of the published offset to an integer is modelled. The use of the published drift as `drift * elapsed` is not.
- ApiTable and MonitorTable inserts test for a full buffer once and not in a loop, so the ring theorems are not claimed for them; ApiTable's own queue is not modelled.
- Overhead records that writeRows() inserts into another table.
- Table cache locking: the shared and the exclusive lock of StringTable::getOrCreate() count as one step, which the second look-up under the exclusive lock makes it.
- NetWire.WireRoundTrip: assumes the widths of the C++ types and the 256 MB payload limit, which the sender does not enforce; the connection handshake, reconnecting after a failed send and m_running are not modelled.
- ByteCodec.ByteBuffer.ReadDouble: a double is its 64 bits, and a failed read gives 0 where the code returns an unset value.
- CollectedRows.JoinsSurviveCollection: for direct writing; the default mode is FlushedFile.JoinsSurviveFlushing. Strides are the schema's defaults.
- SqlSchema.StoredMoves: a sum past 32 bits wraps as on two's complement machines, where C++ leaves it undefined.
- BackendRuns.RowsConserved: a statement of one connection is one step beside the others; that a busy database makes it wait or fail is not modelled.
- FlushedFile.FlushedKeyedIsDirect: keys once is the condition; that each source numbers its calls once is not part of this model, that the ring tables do is RingRuns.BackendIsHistory.
- StringReferences.Clean: requires that registered columns exist, where the statement otherwise raises.
- CollectedRows.Collector.DeserializeAndWrite: adds the stride where a column is bound and not to the field before; IdSpace.AdjustCalls is the loop over the fields.
- IdSpace.AdjustCalls: requires that the adjusted numbers fit 32 bits; the same loop over gpuId is not repeated.
- QueueDepth.DepthIsOutstanding: issued and finished are the ordering keys of the query, nanoseconds divided by 1000.0 as doubles; that distinct nanoseconds can give equal keys is covered as a tie, the division itself is not modelled.
- CallStackAgreement.SameOutputIffBracketed: both queries see one order of tied events for a thread, as the same ORDER BY on the same table gives; GPU times are an input there, and the sums of the linked operations in CallStackGpu.OperationsCountedOnce.
- RangeStacks.RangesStayNested: calls are atomic, so a pop on one thread racing with a drain is not modelled, nor is a thread's exit.
- StringDedupe.ReferencesKeepText: without fix_autograd, and without NULL references.
- StringCaches.UStringCache.Lookup: the hash is any function; hit and miss counters are left out, and whole runs use the std::string overload.
- Vendor callbacks, database resource locking, schema creation, configuration, rpdrun, signal handling, the viewer, importers, JSON text, autograd and graph scripts, statistics of the parser: they would add only easy members or depend on libraries that are not part of this model.
