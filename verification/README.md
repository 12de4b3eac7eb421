# A verified model of cachefly

cachefly is a Redis-like cache: clients send RESP2 commands over TCP, a dispatcher runs them on a worker
pool, a sharded key-value store with a memory ceiling executes them, and an append-only file or a snapshot
carries the data over a restart. This project models the parts of it that hold state and proves what they
promise over every input, every run and every interleaving. `dafny verify dfyconfig.toml` checks all of it.

| part | files | form |
|---|---|---|
| RESP2 values, parser, printer | `Resp`, `RespLaws`, `RespGrammar`, `RespParser`, `Decimal` | parser and printer as functions with their laws; the cursor-advancing recursion and loops as methods proved equal to them |
| frames, input buffer, drain loop, replay, chunking | `Frames`, `Buffer`, `Stream` | `Buffer` and `Input` are classes over an array and fields; replay is a loop over an offset |
| append-only-file writer | `AofWriter`, `Durability` | a machine over the atomic steps of callers and worker, with failing and short writes |
| dispatcher | `Dispatcher`, `SessionEnd` | agents (callers, pool workers) that take one atomic step at a time |
| connection output | `Connection`, `Delivery`, `GracefulClose` | sender threads with a compare-exchange loop, and the event loop, one step at a time |
| one client's session | `SessionPath` | the input side, the dispatcher and the connection output stepped together |
| one store | `Store`, `KvStore`, `StoreRuns`, `Eviction`, `Frequencies`, `Sweeping`, `LiveMap`, `Transparency` | `KvStore` is the class with its loops; every method computes a function of `Store`, and the laws are about those functions |
| sharded database | `Sharding`, `ShardedDatabase`, `OneStore`, `Transaction`, `Atomicity`, `Completion`, `Undisturbed`, `Linear`, `Concurrent` | the sequential database as a value and as a class over `KvStore` objects; the concurrent batch write as a machine of clients, writer and shard workers |
| commands and recovery | `Executor`, `CommandExecutor`, `ClientView`, `CommandLaws`, `Twins`, `Recovery`, `Restart`, `SnapshotLoad`, `SnapshotRoundTrip` | option parsing and execution as functions; the executor as a class with its loops; recovery as theorems over whole runs |

The main results:

- **Crash recovery.** In every run of the log writer the file is whole records in enqueue order plus at most one
  partial record; whatever prefix survives a crash, replay yields a prefix of the commands that covers every
  append acknowledged under `always` (`AofWriter.CrashRecovery`), and every command popped before a successful sync of
  `everysec` (`Durability.EverySecondKeeps`); a clean close leaves everything synced (`Durability.CloseCompletes`).
- **Recovery of contents.** Under any policy, replaying only the logged commands of a run without memory pressure and TTLs
  rebuilds the same keys and values; after a crash the restarted server holds the contents the run had at or after its last
  acknowledged command, over any number of crashes
  (`Recovery.LogRebuilds`, `Restart.RestartedContents`, `Restart.ManyRestarts`). The file of a snapshot, in any entry
  order, restores exactly what was live (`SnapshotRoundTrip.SnapshotFileRestores`).
- **Atomic batch writes.** In every interleaving with clients, worker sweeps and throwing shards, a batch write that does
  not succeed leaves every shard's live view as it was at every later time, one that succeeds leaves each listed key
  with its last listed value and no TTL, and no client task runs in between (`Atomicity`). However its own steps are
  ordered, a batch that nothing disturbs can only end as the sequential one, and some order ends it
  (`Undisturbed.UndisturbedIsSequential`, `Completion.BatchCompletes`). Between batches every interleaving of clients
  and workers replies as a sequential run (`Linear.InterleavingIsARun`), and with batches, under any policy
  and without memory pressure, it replies as one store in which each successful batch is one write
  (`Concurrent.ConcurrentRepliesAsOneStore`).
- **One store behind shards, one map behind a store.** Without memory pressure the sharded database replies as one store,
  the store replies as a plain map from live keys to values and deadlines, and sweeps are invisible
  (`OneStore.RepliesAsOneStore`, `LiveMap.Refines`, `Transparency.SweepsAreInvisible`).
- **Memory.** Usage is exactly the bytes stored and within the ceiling in every run; eviction takes the least recently
  touched entries, or those with the fewest hits since they were written, and no more than needed; a write is refused
  exactly when it cannot fit.
- **Commands.** Each command, named by the text that invokes it, has its law over the cells clients can find before and after
  it, under every policy and with or without room (`CommandLaws`).
- **The wire format.** The parser accepts exactly the grammar within its limits, calls input malformed only when nothing can
  make a value of it, and incomplete only when something can settle it (`RespGrammar`).
- **Dispatching.** One runner per session, replies in submission order, no lost wakeup, and graceful stop with its exact
  exception; a close is final and a stop always comes to its end (`SessionEnd`). A shutdown of a connection that has begun
  is carried out as soon as nothing is left to write, and always can be (`GracefulClose`).
- **From request bytes to reply bytes.** In every interleaving of event loop, dispatcher callers, workers and output steps,
  the socket of a connection that is up has got a prefix of the answers to the commands in the bytes its client sent, in
  order and without a gap, and all of them once the connection is at rest (`SessionPath.RepliesFollowRequests`,
  `SessionPath.AtRestAllAnswered`).

Places where the code does less than one would expect, each with a failing input and the exact condition:

- A command whose Submit returned before Stop can still be lost: `Dispatcher.OverlappingSubmitCanBeLost` shows it. It is
  lost if and only if it was queued after a command whose Submit, when the pool was told to stop, still stood between
  queueing and posting (`Dispatcher.StopDeliversIff`).
- The request limit is applied to everything buffered, so it depends on how bytes arrive: two commands accepted in two
  reads are refused in one (`Stream.LimitDependsOnChunking`). A stream without protocol errors survives every way of
  splitting it into reads of at most `cap` bytes if and only if, wherever a read may begin, the unread bytes and the
  longest read from there fit the limit together (`Stream.StaysOpenIff`); so short commands are never refused when the
  limit has room for one command and one read (`Stream.ShortCommandsStayOpen`). The commands submitted never depend on
  the splitting.
- Simple strings are printed as they are, so one with a CRLF in it reads back cut short
  (`RespLaws.BrokenSimpleString`). A value round-trips if and only if its simple and error strings are free of line
  terminators and its sizes are within the limits (`RespLaws.RoundTripIff`).
- A simple-string argument has no length limit, so an accepted request can leave a corrupt record in the log
  (`RespLaws.LongSimpleStringCorruptsLog`). It can be logged if and only if each of its simple-string arguments is within
  the bulk limit (`RespLaws.ParsedLoggableIff`), and a command survives the log if and only if it is loggable
  (`RespLaws.CommandRoundTripIff`). Such a request can only arrive when `max_request_bytes` is configured above the
  parser's bulk limit, which the defaults (16 MiB and 512 MiB) rule out (`RespLaws.DefaultRequestsLoggable`).
- The reply to a protocol error is sent by the event loop itself and can reach the socket before replies to earlier
  commands whose Send has already returned (`Delivery.LoopSendOvertakes`).

## Model

| member | source | states |
|---|---|---|
| `Decimal.RoundTrip` | src/resp/resp_parser.cpp:27-31 | reading back the decimal text of an integer gives that integer exactly when it is a 64-bit one |
| `Decimal.ReadsNumerals` | src/resp/resp_parser.cpp:27-31 | the texts read as a number are exactly its numerals, with zeros after the sign, for 64-bit numbers and no others |
| `Resp.ReadLine` | src/resp/resp_parser.cpp:11-25 | a complete line ends at a CRLF inside the input, takes its own length plus two bytes and has no stray CR or LF |
| `RespLaws.ReadLineStable` | src/resp/resp_parser.cpp:11-25 | a line result other than incomplete does not change when bytes follow |
| `RespLaws.ParseValueStable` | src/resp/resp_parser.cpp:80-169 | a complete or malformed value parses the same whatever bytes follow it |
| `RespLaws.ParseElementsStable` | src/resp/resp_parser.cpp:155-164 | the same for the elements of an array |
| `RespLaws.ParseCommandStable` | src/resp/resp_parser.cpp:54-78 | the same for commands |
| `RespLaws.ProperPrefixIncomplete` | src/resp/resp_parser.cpp:54-78 | every proper prefix of a complete command frame is incomplete |
| `RespLaws.ParsedIsPrintable` | src/resp/resp_parser.cpp:80-169 | whatever parses is within the length, depth and line-terminator limits |
| `RespLaws.EncodeThenParse` | src/resp/resp_value.cpp:44-63 | a printable value followed by anything parses back to itself, consuming exactly its encoding |
| `RespLaws.RoundTripIff` | src/resp/resp_value.cpp:44-63 | the round trip holds for a value if and only if it is printable |
| `RespLaws.BrokenSimpleString` | src/resp/resp_value.cpp:46-47 | a simple string with a CRLF in it reads back as what precedes the first one |
| `RespLaws.CommandRoundTrip` | src/resp/resp_value.cpp:65-70 | a loggable command followed by anything reads back as itself |
| `RespLaws.UnloggableIsCorrupt` | src/resp/resp_parser.cpp:114-125 | a command that is not loggable is read back as a malformed frame, whatever follows |
| `RespLaws.CommandRoundTripIff` | src/resp/resp_value.cpp:65-70 | a command survives the log if and only if it is loggable, and is corrupt there if and only if it is not |
| `RespLaws.ParsedLoggableIff` | src/resp/resp_parser.cpp:68-76 | an accepted request can be logged if and only if each simple-string argument is within the limits enforced on bulk strings |
| `RespLaws.LongSimpleStringCorruptsLog` | src/resp/resp_parser.cpp:92-96 | a request with a simple-string argument beyond the bulk limit is accepted and its log record is malformed |
| `RespLaws.ParsedCommandLoggable` | src/resp/resp_parser.cpp:54-78 | in particular a request no longer than the bulk limit can be logged and read back; the exact condition is `ParsedLoggableIff` |
| `RespLaws.DefaultRequestsLoggable` | include/cachefly/config/config.h:14 | with the default request and bulk limits every request let through can be logged and read back |
| `RespGrammar.ParsesExactly` | src/resp/resp_parser.cpp:80-169 | a value is read from the first bytes of the input if and only if they spell it in the wire grammar and it is within the limits |
| `RespGrammar.CommandsExactly` | src/resp/resp_parser.cpp:54-78 | a command is read if and only if the bytes spell a non-empty array of strings within the limits |
| `RespGrammar.MalformedIsFinal` | src/resp/resp_parser.cpp:80-169 | malformed input stays so, and no prefix of it with whatever follows spells a value within the limits |
| `RespGrammar.IncompleteCanBeSettled` | src/resp/resp_parser.cpp:80-169 | input is called incomplete only when something that follows settles it |
| `RespParser.ReadLineAt` | src/resp/resp_parser.cpp:11-25 | the cursor version returns the line, the advanced cursor or the error of the specification on the rest of the input |
| `RespParser.ParseValueAt` | src/resp/resp_parser.cpp:80-169 | the cursor recursion computes the parse of the rest of the input: value and cursor, incomplete, or the same error text |
| `RespParser.ParseBodyAt` | src/resp/resp_parser.cpp:92-165 | the same for what follows the type byte and first line |
| `RespParser.ParseElementsAt` | src/resp/resp_parser.cpp:155-164 | the element loop collects the specified elements or stops with the first child's result |
| `RespParser.ParseCommandAt` | src/resp/resp_parser.cpp:54-78 | command parsing with its argument loop, consumed count and error texts |
| `RespParser.SanitizeError` | src/resp/resp_value.cpp:72-78 | replaces each CR and LF by a space and nothing else |
| `RespParser.EncodeValue` | src/resp/resp_value.cpp:44-63 | the printing loop writes the specified encoding |
| `RespParser.EncodeCommandLine` | src/resp/resp_value.cpp:65-70 | the command printer writes an array of bulk strings |
| `Frames.ReadFrames` | include/cachefly/persist/aof_impl.h:24-41 | a scan never consumes more than the data and is exhausted exactly when it consumed all of it |
| `Frames.ScanIs` | include/cachefly/persist/aof_impl.h:24-41 | a scan takes every whole frame, in order, and stops only at the end, at an incomplete frame or at a malformed one, telling them apart |
| `Frames.ReadFramesAppend` | src/main.cpp:123-147 | scanning is incremental: the unread rest is all that must be remembered, and an error is final |
| `Frames.ReadLog` | src/resp/resp_value.cpp:65-70 | a log followed by anything reads back as its commands, then whatever follows |
| `Frames.CountWholeBefore` | include/cachefly/persist/aof_impl.h:24-41 | every cut position has a number of commands wholly before it |
| `Frames.CutAnywhere` | include/cachefly/persist/aof_impl.h:24-41 | a log cut at any byte reads back as exactly the commands wholly before the cut, consuming exactly their bytes |
| `Frames.AppendAfterCut` | include/cachefly/persist/aof_impl.h:30-33 | truncating at the cut and appending replays as the survivors followed by the new commands |
| `Buffers.Buffer.constructor` | src/net/buffer.cpp:12 | a new buffer is empty |
| `Buffers.Buffer.RetrieveAll` | src/net/buffer.cpp:24 | drops everything and keeps the storage |
| `Buffers.Buffer.Retrieve` | src/net/buffer.cpp:18-22 | drops a prefix of the readable bytes, or refuses a length beyond them |
| `Buffers.Buffer.RetrieveAllAsString` | src/net/buffer.cpp:26-30 | returns the readable bytes and empties the buffer |
| `Buffers.Buffer.Compact` | src/net/buffer.cpp:75-80 | moves overlapping bytes to the front without changing the contents |
| `Buffers.Buffer.EnsureWritable` | src/net/buffer.cpp:72-84 | makes room by compacting or growing; the contents stay |
| `Buffers.Buffer.Append` | src/net/buffer.cpp:32-37 | the contents are extended by exactly the data |
| `Buffers.Buffer.ReadCapacity` | src/net/buffer.cpp:40-47 | one read can always deliver at least the size of the stack buffer |
| `Buffers.Buffer.ReadFd` | src/net/buffer.cpp:39-60 | whatever count a scattered read delivers, into storage and stack buffer, is appended in order |
| `Buffers.Buffer.WriteFd` | src/net/buffer.cpp:62-70 | whatever count a write accepts is dropped from the front |
| `Stream.Drain` | src/main.cpp:123-147 | the drain loop submits exactly the whole commands in the buffer, keeps the rest, and on a protocol error reports it and empties the buffer |
| `Stream.Replay` | include/cachefly/persist/aof_impl.h:13-43 | calls back the whole commands in order, truncates just an incomplete tail when asked to, reports corruption with offset and reason |
| `Stream.Input.HandleRead` | src/net/tcp_connection.cpp:77-95 | one read event on the compacting buffer is one step of a reader over a plain byte queue, with the request limit and the closing cases |
| `Stream.ReceiveAllTracks` | src/main.cpp:123-147 | after any reads the connection's commands, error and unread bytes are those of one scan of the whole stream |
| `Stream.ChunkingIndependence` | src/main.cpp:123-147 | two ways of splitting a stream give the same commands up to the first error, the same error cases and the same unread bytes |
| `Stream.SubmittedIsPrefix` | src/net/tcp_connection.cpp:83-87 | even a closed connection submitted only a gapless prefix of its stream's commands |
| `Stream.ErrorStartsAfresh` | src/main.cpp:130-135 | a protocol error submits the commands before it, drops what is buffered, and the connection reads on as if the stream began there |
| `Stream.EndOfStreamCloses` | src/net/tcp_connection.cpp:90 | the end of the stream closes the connection, and nothing read after it is submitted |
| `Stream.SmallStreamStaysOpen` | src/net/tcp_connection.cpp:83-87 | a stream within the request limit is never closed by it, however it is split |
| `Stream.StaysOpenIff` | src/net/tcp_connection.cpp:77-87 | for reads of at most `cap` bytes, a stream without protocol errors is left open under every splitting if and only if, wherever a read may begin, the unread bytes and the longest read from there fit the request limit together |
| `Stream.ShortCommandsStayOpen` | src/net/tcp_connection.cpp:77-87 | a stream of any length of commands of bounded size is never closed when the limit has room for one command and one read |
| `Stream.LimitDependsOnChunking` | src/net/tcp_connection.cpp:83-87 | two commands accepted in two reads close the connection in one read, when together they exceed the limit; all three reads are within what one call can deliver |
| `AofWriter.InvKept` | src/persist/aof.cpp:61-131 | every step of callers and worker keeps the invariant of queue, file, synced prefix and promises |
| `AofWriter.RunInv` | src/persist/aof.cpp:41-131 | the invariant holds in every run |
| `AofWriter.FileIsLogPrefix` | src/persist/aof.cpp:120-131 | the file is whole records in enqueue order plus at most one partial record |
| `AofWriter.CrashRecovery` | src/persist/aof.cpp:61-105 | after a crash keeping any prefix not shorter than the last sync, replay yields a prefix of the commands with no corrupt frame, covering every acknowledged append, every older command that was safe when the writer was opened, and every record that ends within the prefix |
| `AofWriter.CloseDrains` | src/persist/aof.cpp:31-39 | when the worker is gone nobody waits, and without a failure every accepted command is in the file |
| `AofWriter.FailurePermanent` | src/persist/aof.cpp:107-118 | after a recorded failure nothing is accepted, written or promised any more |
| `AofWriter.NextRecordCompletes` | src/persist/aof.cpp:78-93 | from any state waiting on a non-empty queue, under every policy and however the record is split into full or short writes, calls that do not fail put it whole into the file, and under `always` sync it and release its caller |
| `AofWriter.ShortWrites` | src/persist/aof.cpp:120-131 | any sequence of short writes that adds up to the rest of a record puts exactly that rest into the file |
| `AofWriter.QueueCompletes` | src/persist/aof.cpp:64-93 | so the whole queue gets through in order, for every splitting of its records, each acknowledged and synced under `always` |
| `Durability.CleanIsSynced` | src/persist/aof.cpp:78-104 | in every run on a safe file, a worker between records that has met no failure and has nothing left to sync has its whole file synced, and under `always` it always has |
| `Durability.WholeRecordsSynced` | src/persist/aof.cpp:78-104 | in every run in which no timer sync fails, a worker with nothing left to sync has synced all whole records, also after a failed write |
| `Durability.SyncedOnlyBySync` | src/persist/aof.cpp:73-103 | the synced length moves only by a sync that succeeds, then to the whole file, and never under `no` |
| `Durability.SyncedSurvives` | src/persist/aof.cpp:61-105 | whatever was popped when the whole file was synced between records is replayed after a crash at that moment or later |
| `Durability.EverySecondKeeps` | src/persist/aof.cpp:95-103 | under `everysec` every command popped before a due sync that succeeds survives any later crash |
| `Durability.TimerSyncs` | src/persist/aof.cpp:66-103 | from any state waiting on an empty queue the timer's sync leaves the whole file synced |
| `Durability.CloseSyncs` | src/persist/aof.cpp:73-76 | a clean close leaves every accepted command in the file and the file synced, under every policy that syncs |
| `Durability.CloseCompletes` | src/persist/aof.cpp:31-105 | closing a healthy writer can always be carried to its end: the queue is written, the worker stops, nobody waits, and the file is synced |
| `Durability.ClosedAcceptsNothing` | src/persist/aof.cpp:49-50 | a writer that is closing accepts nothing more |
| `Dispatcher.InvKept` | src/command/async_dispatcher.cpp:83-168 | every step keeps the agreement of queues, flags, pool and runners |
| `Dispatcher.RunInv` | src/command/async_dispatcher.cpp:83-168 | it holds in every interleaving |
| `Dispatcher.SingleRunner` | src/command/async_dispatcher.cpp:115-127 | a session is held by at most one agent and never also waits in the pool |
| `Dispatcher.PooledOnce` | src/command/async_dispatcher.cpp:120-127 | a session is in the pool at most once |
| `Dispatcher.RepliesInOrder` | src/command/async_dispatcher.cpp:141-168 | accepted commands are replies, at most one in flight, and the queue, in submission order and each once |
| `Dispatcher.NoLostWakeup` | src/command/async_dispatcher.cpp:115-127 | an open session with queued commands has a runner posted, running or about to be posted, unless a stopping pool refused it |
| `Dispatcher.StopDeliversIff` | src/command/async_dispatcher.cpp:130-139 | after the join, a command whose Submit had returned when the pool was told to stop is unanswered if and only if it was queued after a command whose Submit was then still posting the session |
| `Dispatcher.StopReplies` | src/command/async_dispatcher.cpp:130-139 | after the join an open session has replies to all it had accepted, or, if a Submit was still posting it, to exactly what was accepted before that command, which had not returned |
| `Dispatcher.OverlappingSubmitCanBeLost` | src/command/async_dispatcher.cpp:28-35 | a concrete run in which a Submit that returned before Stop is never answered |
| `Dispatcher.SubmitSchedules` | src/command/async_dispatcher.cpp:103-128 | a Submit on an open session of a running dispatcher queues its command, returns, and posts the session exactly if it has no runner |
| `SessionEnd.CloseIsFinal` | src/command/async_dispatcher.cpp:89-101 | in every run, once a close has taken its second step the session is closed with an empty queue for ever: nothing more is accepted, no further command starts executing, and it gets at most the reply that was about to be delivered |
| `SessionEnd.CloseCall` | src/command/async_dispatcher.cpp:89-101 | a CloseSession call frees its id, closes its session and touches no other |
| `SessionEnd.ClosedFrees` | src/command/async_dispatcher.cpp:145-165 | a worker at a closed session is free after its next step |
| `SessionEnd.StoppedRefuses` | src/command/async_dispatcher.cpp:83-113 | a stopped dispatcher opens no session and takes no command |
| `SessionEnd.StopTakesEffect` | src/command/async_dispatcher.cpp:130-139 | Stop closes the door, then tells the pool, then forgets the sessions |
| `SessionEnd.StopCompletes` | src/command/async_dispatcher.cpp:37-67 | whatever the workers of a stopping pool are in the middle of, they can all finish, serve what is queued and exit, so that the join returns |
| `Dispatcher.HeadIsServed` | src/command/async_dispatcher.cpp:141-168 | a waiting worker takes the session next in the pool and answers all of its queue |
| `Dispatcher.PoolDrains` | src/command/async_dispatcher.cpp:51-67 | one worker on its own empties the pool, serving every session in it to the end and touching no other |
| `Dispatcher.PoolIsAnswered` | src/command/async_dispatcher.cpp:51-67 | in every reachable state a waiting worker can answer every command accepted by the open sessions in the pool |
| `Connection.InvKept` | src/net/tcp_connection.cpp:35-176 | every step, each one access to the shared status or budget or one system call, keeps the budget and stream invariants |
| `Connection.BudgetConserved` | src/net/tcp_connection.cpp:138-176 | in every interleaving the counter is the bytes reserved and not handled, plus the bytes buffered, plus those in the loop's hands between a call and its release; it stays between zero and the limit |
| `Connection.OutputInOrder` | src/net/tcp_connection.cpp:151-176 | while connected, bytes the socket took, bytes buffered and bytes about to be buffered are the handled messages in order |
| `Connection.ShutdownAfterFlush` | src/net/tcp_connection.cpp:97-112 | the write side is shut down only when every handled message is with the socket |
| `Connection.SenderQueues` | src/net/tcp_connection.cpp:35-46 | whatever the loop is doing, an undisturbed sender queues its message if it fits the budget and otherwise a request to close |
| `Connection.MessageHandled` | src/net/tcp_connection.cpp:151-176 | whatever the socket takes of a message, the loop handles it and buffers the rest behind what was there |
| `Connection.BufferFlushes` | src/net/tcp_connection.cpp:97-112 | when the socket takes the buffer, everything handled is with it, the bytes are released, and a closing connection is shut down |
| `Connection.LoopDrains` | src/net/tcp_connection.cpp:97-176 | whatever messages are queued and bytes buffered, the loop can bring all of them to a willing socket in order |
| `Delivery.PipeKept` | src/net/tcp_connection.cpp:35-175 | while the connection is up, what is handled, in the loop's hands, queued and held by the sender inside Send is what was sent, in order, and a prefix of it once the connection is going to close; every step but a Send keeps this |
| `Delivery.PipeGrows` | src/net/tcp_connection.cpp:35-46 | a Send that begins when no other is under way puts its message at the end |
| `Delivery.LoopSendOvertakes` | src/main.cpp:130-135 | on an idle connection a message sent by the event loop reaches the socket before all queued ones |
| `GracefulClose.ShutKept` | src/net/tcp_connection.cpp:48-181 | every step keeps that a shutdown which has begun is done, or in the hands of the thread that began it, of a queued task, or of the loop writing out its buffer |
| `GracefulClose.ShutWhenQuiet` | src/net/tcp_connection.cpp:178-181 | in every run a connection that is shutting down, with the loop at rest, no thread inside Shutdown, no shutdown queued and nothing being written, is shut down |
| `GracefulClose.ShutdownCompletes` | src/net/tcp_connection.cpp:48-181 | from any state a begun shutdown, by whichever thread, can be carried to a shut write side, or to a closed connection if something asks for that |
| `GracefulClose.BrokenLeaves` | src/net/tcp_connection.cpp:68-111 | a peer that hung up, a failed write and a failed send make the loop close the connection; destroying it takes it down |
| `GracefulClose.LeavingCloses` | src/net/tcp_connection.cpp:114-125 | a loop on its way to closing takes the connection down, drops its buffer and returns the dropped bytes to the budget |
| `GracefulClose.DownIsFinal` | src/net/tcp_connection.cpp:151-156 | a connection that is down stays down, and nothing more reaches the socket |
| `SessionPath.PathKept` | src/main.cpp:120-148 | every step of reads, submits, dispatcher, reply callbacks and connection keeps the tie between the commands read, accepted and replied to and the bytes on their way |
| `SessionPath.OpenedOk` | src/main.cpp:103-112 | it holds when a connection is established on a dispatcher in any reachable state |
| `SessionPath.RepliesFollowRequests` | src/main.cpp:120-148 | in every interleaving the socket of a connection that is up has got a prefix of the answers to the commands in the client's bytes, in order, each once, without a gap |
| `SessionPath.AtRestAllAnswered` | src/main.cpp:120-148 | with nothing queued, running or buffered the socket has got exactly the answers to all of them |
| `Store.Erase` | src/storage/kv_store.cpp:245-251 | erasing keeps the accounting and frees exactly the entry's bytes |
| `Store.Put` | src/storage/kv_store.cpp:57-62 | assigning keeps the invariant and moves the usage by the difference of the entries |
| `Store.RemoveIfExpired` | src/storage/kv_store.cpp:245-251 | keeps the invariant and leaves no expired entry under the key |
| `Store.Scan` | src/storage/kv_store.cpp:267-273 | the scan picks an unprotected stored key, and none only if there is no other |
| `Store.SelectVictim` | src/storage/kv_store.cpp:257-294 | a victim is a stored unprotected key, and there is none only if nothing else is stored |
| `Store.Evict` | src/storage/kv_store.cpp:299-308 | an eviction pass keeps the invariant, spares the protected key and on success makes the projected bytes fit |
| `Store.EvictShrinks` | src/storage/kv_store.cpp:92-101 | eviction only removes entries |
| `Store.MakeRoom` | src/storage/kv_store.cpp:296-309 | on success the projected bytes fit, and the written key keeps its weight |
| `Store.BatchOf` | src/storage/kv_store.cpp:69-72 | the deduplicated batch lists every key once with its last value |
| `Store.EraseAll` | src/storage/kv_store.cpp:73-80 | drops exactly the listed keys |
| `Store.InsertAll` | src/storage/kv_store.cpp:102-107 | the batch is added and its bytes are accounted |
| `Store.MSet` | src/storage/kv_store.cpp:66-117 | keeps the invariant; any result but success is a refusal that changes nothing |
| `KvStores.KvStore.constructor` | src/storage/kv_store.cpp:23-25 | a new store is the empty one |
| `KvStores.KvStore.Get` | src/storage/kv_store.cpp:27-37 | the method computes the specified state and value |
| `KvStores.KvStore.Set` | src/storage/kv_store.cpp:39-64 | the same, with conditions, ceiling, eviction and deadline |
| `KvStores.KvStore.MSet` | src/storage/kv_store.cpp:66-117 | the trial copy, its loops and early exits compute the specified batch write |
| `KvStores.KvStore.Deduplicate` | src/storage/kv_store.cpp:69-72 | the update map is the deduplicated batch |
| `KvStores.KvStore.BytesIfFit` | src/storage/kv_store.cpp:81-86 | the early-exit sum accepts exactly the batches within the ceiling |
| `KvStores.KvStore.Delete` | src/storage/kv_store.cpp:119-131 | the loop deletes and counts as specified |
| `KvStores.KvStore.Exists` | src/storage/kv_store.cpp:133-141 | the loop counts as specified |
| `KvStores.KvStore.Expire` | src/storage/kv_store.cpp:143-153 | sets or deletes as specified |
| `KvStores.KvStore.TtlSeconds` | src/storage/kv_store.cpp:155-163 | whole seconds left, -1 or -2 |
| `KvStores.KvStore.Increment` | src/storage/kv_store.cpp:165-193 | checked addition, with the TTL carried in whole milliseconds from a second clock reading |
| `KvStores.KvStore.ActiveExpire` | src/storage/kv_store.cpp:195-217 | the iterating sweep with wraparound and erasure computes the specified sweep of a rotation |
| `KvStores.KvStore.SweepFrom` | src/storage/kv_store.cpp:202-214 | the loop examines the next keys of the original rotation, each once, while the map shrinks |
| `KvStores.KvStore.Snapshot` | src/storage/kv_store.cpp:222-237 | a full sweep, then every entry with its remaining TTL |
| `KvStores.KvStore.Clear` | src/storage/kv_store.cpp:239 | empties the store and its accounting, keeping the access counter |
| `KvStores.KvStore.ScanVictim` | src/storage/kv_store.cpp:267-273 | the loop computes the specified scan |
| `KvStores.KvStore.SelectVictim` | src/storage/kv_store.cpp:257-294 | random draw, then scan, advancing only the generator |
| `KvStores.KvStore.EvictUntilFits` | src/storage/kv_store.cpp:299-308 | the loop computes the specified eviction pass |
| `KvStores.KvStore.MakeRoom` | src/storage/kv_store.cpp:296-309 | as specified |
| `StoreRuns.UsageExact` | src/storage/kv_store.cpp:39-117 | in every run under any policy the recorded usage is the sum of the entries' bytes and within the ceiling |
| `StoreRuns.ApplyConfig` | src/storage/kv_store.cpp:27-217 | no operation changes the ceiling or the policy |
| `StoreRuns.ApplyLogged` | src/storage/kv_store.cpp:34-35 | every operation stamps exactly the keys it touches |
| `StoreRuns.StampsAreLastTouches` | src/storage/kv_store.cpp:34-61 | in every run each stamp is the position of the key's last touch, so stamps are distinct and ordered by it |
| `StoreRuns.LruEvictsLeastRecentlyTouched` | src/storage/kv_store.cpp:296-309 | after any run a successful single write evicts only keys last touched before every survivor it did not write |
| `StoreRuns.LruBatchEvictsLeastRecentlyTouched` | src/storage/kv_store.cpp:92-101 | the same for the eviction loop of a batch |
| `Frequencies.ApplyCounted` | src/storage/kv_store.cpp:27-117 | every operation keeps each frequency equal to one plus the hits on its key since it was last written |
| `Frequencies.FrequenciesCountHits` | src/storage/kv_store.cpp:35 | in every run a stored key's frequency is one plus the hits on it since it was last written, capped at the counter's maximum |
| `Frequencies.LfuEvictsLeastHit` | src/storage/kv_store.cpp:267-309 | after any run under LFU a successful single write evicts only keys with at most as many hits since their last write as every survivor it did not write |
| `Frequencies.LfuBatchEvictsLeastHit` | src/storage/kv_store.cpp:93-101 | the same for a successful batch |
| `Eviction.LruVictim` | src/storage/kv_store.cpp:267-273 | the LRU victim is the least recently touched unprotected entry |
| `Eviction.LfuVictim` | src/storage/kv_store.cpp:267-273 | the LFU victim has the least frequency |
| `Eviction.RandomPicksAny` | src/storage/kv_store.cpp:257-266 | under the random policy every entry that may be evicted is drawn by some value of the generator |
| `Eviction.LruEvictsOldest` | src/storage/kv_store.cpp:296-309 | a pass removes only entries touched before every unprotected survivor |
| `Eviction.LfuEvictsLeastUsed` | src/storage/kv_store.cpp:296-309 | no unprotected survivor has a lower frequency than a victim |
| `Eviction.EvictsNoMoreThanNeeded` | src/storage/kv_store.cpp:299-308 | the last victim was necessary, and under LRU it is the most recent of those removed, so their number is the least that fits |
| `Eviction.LruOrderIndependent` | src/storage/kv_store.cpp:257-274 | under LRU the survivors do not depend on the hash order |
| `Eviction.ProtectedSurvives` | src/storage/kv_store.cpp:268 | a pass never evicts the key being written |
| `Eviction.EvictSucceeds` | src/storage/kv_store.cpp:299-308 | a pass succeeds whenever evicting everything evictable makes room |
| `Eviction.SetRefusedIff` | src/storage/kv_store.cpp:51-56 | a write whose condition holds is refused exactly when its entry alone, or without eviction the whole store, exceeds the ceiling |
| `Eviction.RefusedSetEvictsNothing` | src/storage/kv_store.cpp:51-56 | a write that does not succeed drops at most its own expired entry |
| `Eviction.MSetRefusedIff` | src/storage/kv_store.cpp:81-101 | the same exact condition for the deduplicated batch |
| `Eviction.MSetContents` | src/storage/kv_store.cpp:102-117 | an accepted batch leaves its keys with their last values and no TTL, and other keys unchanged or evicted |
| `Eviction.LastValuesMeaning` | src/storage/kv_store.cpp:69-72 | the batch value of a key is its last listed one |
| `Eviction.SetEvictsOldest` | src/storage/kv_store.cpp:51-56 | an accepted write evicts only entries older than every survivor but its own |
| `Eviction.MSetEvictsOldest` | src/storage/kv_store.cpp:92-101 | an accepted batch evicts only entries older than every survivor it does not write |
| `Sweeping.ActiveExpireExact` | src/storage/kv_store.cpp:195-217 | a sweep removes exactly the expired keys of its window and counts them |
| `Sweeping.WindowOnce` | src/storage/kv_store.cpp:199-207 | the window names no key twice, and with enough budget names them all |
| `Sweeping.FullSweep` | src/storage/kv_store.cpp:195-217 | a sweep with budget for every entry leaves none expired |
| `Sweeping.SweepsRemoveOne` | src/storage/kv_store.cpp:195-217 | consecutive sweeps whose budgets add up to the size remove an entry if any is expired |
| `Sweeping.SweepsDrain` | src/storage/kv_store.cpp:195-217 | repeated sweeps of any positive budget leave nothing expired |
| `LiveMap.PurgeLive` | src/storage/kv_store.cpp:241-251 | lazy expiry changes no live entry and answers whether the key is live |
| `LiveMap.FittingSet` | src/storage/kv_store.cpp:39-64 | a write that fits changes its own entry and nothing else |
| `LiveMap.FittingMSet` | src/storage/kv_store.cpp:66-117 | a batch that fits changes its own keys and nothing else |
| `LiveMap.DeleteRefines` | src/storage/kv_store.cpp:119-131 | deletion is deletion from the live map, with the same count |
| `LiveMap.ActiveExpireLive` | src/storage/kv_store.cpp:195-217 | a sweep changes nothing a client can see |
| `LiveMap.IncrementRefines` | src/storage/kv_store.cpp:165-193 | an increment is one on the live map, with both clock readings and the truncated TTL |
| `LiveMap.Refines` | src/storage/kv_store.cpp:27-217 | without memory pressure every operation replies as on the live map and the store shows the result at every later time |
| `Transparency.StepSimilar` | src/storage/kv_store.cpp:27-193 | stores that differ only in expired entries reply alike and stay so, and what fits in one fits in the other |
| `Transparency.SweepsAreInvisible` | src/storage/kv_store.cpp:195-217 | sweeps of any budget inserted anywhere in a run change no reply |
| `Sharding.ShardFor` | src/shard/sharded_database.cpp:172-174 | every key has a shard among the existing ones |
| `Sharding.ShardIs` | src/shard/sharded_database.cpp:172-174 | a key's shard is what its hash leaves over whole rounds of the shards, so every shard can be reached |
| `Sharding.SplitBudget` | src/shard/sharded_database.cpp:57-68 | zero shards are refused; budgets differ by at most one and add up to the ceiling |
| `Sharding.StatsBounded` | src/shard/sharded_database.cpp:196-213 | shard usages read at any moments sum to at most the ceiling |
| `Sharding.GroupValues` | src/shard/sharded_database.cpp:86-89 | grouping keeps each key's last value, in its home shard's group alone |
| `Sharding.GroupByShard` | src/shard/sharded_database.cpp:86-89 | the loop computes the groups |
| `Sharding.AtHome` | src/shard/sharded_database.cpp:70-81 | an operation on its key's shard keeps routing, budgets and accounting |
| `Sharding.DeleteKeys` | src/shard/sharded_database.cpp:129-138 | key-by-key deletion keeps them too |
| `Sharding.MSetDb` | src/shard/sharded_database.cpp:83-127 | the batch write keeps routing, budgets and accounting |
| `Sharding.RefusedAt` | src/shard/sharded_database.cpp:117-120 | the first refused group ends the batch with its result and the state as it was |
| `Sharding.Perform` | src/shard/sharded_database.cpp:70-170 | every operation keeps routing, budgets and accounting |
| `ShardedDatabases.ShardedDatabase.Create` | src/shard/sharded_database.cpp:57-68 | refuses zero shards, otherwise builds distinct empty stores with their budgets |
| `ShardedDatabases.ShardedDatabase.Get` | src/shard/sharded_database.cpp:70-73 | runs on the home shard and touches no other |
| `ShardedDatabases.ShardedDatabase.Set` | src/shard/sharded_database.cpp:75-81 | the same |
| `ShardedDatabases.ShardedDatabase.Delete` | src/shard/sharded_database.cpp:129-138 | the loop sums per-key deletions |
| `ShardedDatabases.ShardedDatabase.Exists` | src/shard/sharded_database.cpp:140-149 | the loop sums per-key existence |
| `ShardedDatabases.ShardedDatabase.Expire` | src/shard/sharded_database.cpp:151-156 | runs on the home shard |
| `ShardedDatabases.ShardedDatabase.TtlSeconds` | src/shard/sharded_database.cpp:158-163 | runs on the home shard |
| `ShardedDatabases.ShardedDatabase.Increment` | src/shard/sharded_database.cpp:165-170 | runs on the home shard |
| `ShardedDatabases.ShardedDatabase.Checkpoint` | src/shard/sharded_database.cpp:91-98 | copies the store of exactly the shards with a group |
| `ShardedDatabases.ShardedDatabase.Rollback` | src/shard/sharded_database.cpp:100-109 | after it every shard is as it was |
| `ShardedDatabases.ShardedDatabase.ApplyAll` | src/shard/sharded_database.cpp:112-121 | applies groups in order, stopping at a refusal with other shards untouched |
| `ShardedDatabases.ShardedDatabase.MSet` | src/shard/sharded_database.cpp:83-127 | grouping, checkpoints, application and rollback give all groups or the old state |
| `ShardedDatabases.ShardedDatabase.Snapshot` | src/shard/sharded_database.cpp:178-194 | the flattened snapshots of all shards, each shard left as its own snapshot leaves it |
| `ShardedDatabases.ShardedDatabase.Stats` | src/shard/sharded_database.cpp:196-213 | sums of keys and bytes, the bytes within the ceiling |
| `OneStore.AtHomeRefines` | src/shard/sharded_database.cpp:70-81 | a one-key operation on its home shard is that operation on the whole live map |
| `OneStore.MSetDbRefines` | src/shard/sharded_database.cpp:83-127 | a batch whose groups fit is one update of the whole live map |
| `OneStore.PerformRefines` | src/shard/sharded_database.cpp:70-170 | every operation refines the operation on one live map |
| `OneStore.KeysAtHome` | src/shard/sharded_database.cpp:172-174 | in every run a key lives only in the shard its hash selects, and the bytes stay within the ceiling |
| `OneStore.RepliesAsOneStore` | src/shard/sharded_database.cpp:70-170 | without memory pressure, whatever its workers sweep, the database replies as one store |
| `OneStore.NewDatabaseRepliesAsOneStore` | src/shard/sharded_database.cpp:57-170 | the same from a new database and a new store, whatever their budgets, policies and hash orders |
| `Transaction.StepKeeps` | src/shard/sharded_database.cpp:35-127 | every step of clients, writer and workers keeps the invariant relating each shard to the batch's start |
| `Transaction.InitSound` | src/shard/sharded_database.cpp:57-68 | it holds at the start |
| `Transaction.AcceptedGroup` | src/storage/kv_store.cpp:66-117 | an accepted group is visible whatever expired or was swept since the batch began |
| `Transaction.RunApply` | src/shard/sharded_database.cpp:112-125 | a shard running its group, with success, refusal or exception |
| `Transaction.RunRestore` | src/shard/sharded_database.cpp:100-109 | a shard running its restore shows the view it had at the start |
| `Transaction.CheckpointThrows` | src/shard/sharded_database.cpp:96-97 | a checkpoint that throws ends the batch with every shard as it was |
| `Atomicity.DuringInv` | src/shard/sharded_database.cpp:83-127 | until it ends the batch holds the lock and every shard is related to its state at the start |
| `Atomicity.RefusedBatchChangesNothing` | src/shard/sharded_database.cpp:100-125 | a refused or throwing batch leaves every shard's live view unchanged at every later time |
| `Atomicity.AcceptedBatchIsIn` | src/shard/sharded_database.cpp:111-126 | an accepted batch leaves listed keys with their last value and no TTL, other visible keys as they were, and without eviction all of them |
| `Atomicity.NoClientBetween` | src/shard/sharded_database.cpp:85 | while a batch holds the lock no worker runs a client's task |
| `Atomicity.NoBatchDuringClient` | src/shard/sharded_database.cpp:71-72 | while a client holds the shared lock no batch is in progress |
| `Atomicity.BatchCanMove` | src/shard/sharded_database.cpp:93-126 | a batch is never stuck |
| `Atomicity.KeysStayHome` | src/shard/sharded_database.cpp:172-174 | in every interleaving keys stay in their shards |
| `Atomicity.StatsWithinCeiling` | src/shard/sharded_database.cpp:196-213 | a readout taking each shard at its own moment never exceeds the ceiling |
| `Completion.BatchCompletes` | src/shard/sharded_database.cpp:83-127 | from any state in which a batch may begin some continuation ends it, with the result and stores of the sequential batch write |
| `Undisturbed.UndisturbedIsSequential` | src/shard/sharded_database.cpp:83-127 | in whatever order the writer and the workers take their steps, an undisturbed batch that is done has the result and stores of the sequential batch write |
| `Linear.InterleavingIsARun` | src/shard/sharded_database.cpp:35-81 | between batches every interleaving of clients, workers and sweeps, under any policy and whatever the workers' clocks, gives the replies and stores of the sequential database run in the order of execution |
| `Concurrent.AcceptedTied` | src/shard/sharded_database.cpp:83-127 | a successful batch, with sweeps between its shard updates, ends, under any policy, as one batch write on the live map when its groups fit |
| `Concurrent.RefusedTied` | src/shard/sharded_database.cpp:100-125 | any other batch ends without a trace in the live map |
| `Concurrent.ConcurrentRepliesAsOneStore` | src/shard/sharded_database.cpp:35-170 | without memory pressure, under any policy and whatever clock readings the workers take, every interleaving of clients, batches and sweeps gives to clients' tasks and successful batches the replies of one store to the same operations in the order they took effect |
| `Concurrent.NoEvictionGroupsFit` | src/storage/kv_store.cpp:89-91 | under no eviction an accepted group always fits, so batches meet its premise on their own |
| `Concurrent.NewAreTied` | src/shard/sharded_database.cpp:57-68 | a new database of any policy and a new store satisfy the premise of `ConcurrentRepliesAsOneStore` |
| `Executor.UppercaseInPlace` | src/command/command_executor.cpp:16-23 | the loop changes exactly the lower-case letters |
| `Executor.UppercaseIs` | src/command/command_executor.cpp:16-23 | a text is matched with a name exactly when it is the name with some capital letters written small |
| `Executor.Find` | src/command/command_executor.cpp:99-150 | finds the command of a name, and none only if no command has it |
| `Executor.TtlAmount` | src/command/command_executor.cpp:158-163 | an accepted amount is a positive 64-bit count of milliseconds |
| `Executor.ParseSetLoop` | src/command/command_executor.cpp:152-176 | the option loop computes the specified request or rejection |
| `Executor.SetAcceptsGrammar` | src/command/command_executor.cpp:154-174 | SET accepts exactly at most one condition and at most one TTL in either order, a positive number of seconds or of milliseconds |
| `Executor.PairUpLoop` | src/command/command_executor.cpp:200-204 | the loop pairs the arguments at odd positions, as keys, with those after them |
| `Executor.Execute` | src/command/command_executor.cpp:61-95 | every command keeps routing, budgets and accounting |
| `CommandExecutors.CommandExecutor.Set` | src/command/command_executor.cpp:152-176 | parses, then writes and replies as specified |
| `CommandExecutors.CommandExecutor.MGet` | src/command/command_executor.cpp:188-196 | the loop reads key by key |
| `CommandExecutors.CommandExecutor.MSet` | src/command/command_executor.cpp:198-206 | refuses an even argument count, else writes the pairs |
| `CommandExecutors.CommandExecutor.Expire` | src/command/command_executor.cpp:120-128 | range check, then expiry |
| `CommandExecutors.CommandExecutor.Count` | src/command/command_executor.cpp:138-149 | increments and decrements with their error replies |
| `CommandExecutors.CommandExecutor.Execute` | src/command/command_executor.cpp:61-95 | lookup, arity, guard and handler give the specified state and reply, and the log grows by the command exactly when it must; a throwing log callback leaves the effect without log entry and reply |
| `CommandLaws.NotACommand` | src/command/command_executor.cpp:71-76 | an empty or unknown command is an error and leaves the database alone |
| `CommandLaws.GuardLaw` | src/command/command_executor.cpp:82-88 | while persistence is unavailable every writing command is refused and leaves the database alone |
| `CommandLaws.PingLaw` | src/command/command_executor.cpp:100-103 | PING answers PONG or its argument |
| `CommandLaws.EchoLaw` | src/command/command_executor.cpp:104-106 | ECHO answers its argument |
| `CommandLaws.GetLaw` | src/command/command_executor.cpp:107-110 | GET answers the value a client finds, or null, and changes nothing a client can find |
| `CommandLaws.MGetLaw` | src/command/command_executor.cpp:188-196 | MGET answers position by position what a client finds |
| `CommandLaws.ExistsLaw` | src/command/command_executor.cpp:183-186 | EXISTS counts the positions whose key a client finds |
| `CommandLaws.TtlLaw` | src/command/command_executor.cpp:129-131 | TTL answers the whole seconds left, -1 without a deadline, -2 for a key not found |
| `CommandLaws.DelLaw` | src/command/command_executor.cpp:178-181 | DEL removes every key it lists and no other, and answers how many of them a client would have found |
| `CommandLaws.ExpireLaw` | src/command/command_executor.cpp:120-128 | EXPIRE gives a key that is found a deadline that many seconds from now, or removes it, and refuses what is no number of seconds within range |
| `CommandLaws.SetLaw` | src/command/command_executor.cpp:152-176 | SET respects NX and XX, answers an error and changes nothing without room, and otherwise leaves its key with its value until its TTL from now, sparing other keys unless the policy evicts |
| `CommandLaws.SetRejectedLaw` | src/command/command_executor.cpp:154-174 | SET with any other option list is an error and changes nothing |
| `CommandLaws.MSetLaw` | src/command/command_executor.cpp:198-206 | MSET writes all its pairs or none: each key it names shows the argument after its last occurrence, without a TTL |
| `CommandLaws.CounterLaw` | src/command/command_executor.cpp:138-149 | INCR and DECR count by one from the number a client finds, carrying the lifetime in whole milliseconds; anything else is an error and changes nothing |
| `Twins.KeyExact` | src/storage/kv_store.cpp:27-193 | without TTLs an operation that fits does to the contents what it does to a map |
| `Twins.KeyRefusal` | src/storage/kv_store.cpp:51-56 | without eviction an operation that does not fit changes nothing and reports no memory |
| `Twins.KeyIneffective` | src/storage/kv_store.cpp:27-193 | under any policy, without TTLs, an operation whose reply says that it had no effect leaves the contents as they were |
| `Twins.TwinStep` | src/storage/kv_store.cpp:27-193 | stores with the same contents reply alike and keep the same contents, whatever their policies, hash order, stamps and clocks, when the operation fits or neither evicts |
| `Twins.TwinMSet` | src/storage/kv_store.cpp:66-117 | the same for batches |
| `Recovery.UnloggedLeavesContents` | src/command/command_executor.cpp:82-94 | a command that is not logged leaves every key and value as it was |
| `Recovery.LoggedRepeats` | src/command/command_executor.cpp:89-93 | a logged command does the same, with the same reply, to a database of the same contents |
| `Recovery.LogRebuilds` | src/command/command_executor.cpp:61-95 | replaying just the logged commands of a run, at other times and with other sweeps, rebuilds the same contents with no error reply, and each of them would be logged again; under any policy, for runs without TTLs whose logged commands fit |
| `Recovery.NoEvictionRunFits` | src/storage/kv_store.cpp:51-56 | under no eviction every run without TTLs meets that premise |
| `Recovery.FileRebuilds` | src/main.cpp:64-73 | the same with the commands read back from the log file |
| `Restart.RestartedContents` | src/main.cpp:64-73 | a server that may itself have recovered from an older log crashes, keeping any prefix not shorter than the last sync: the restarted one replays without error to the contents the run had at or after every acknowledged command, and its truncated file is the log of what it replayed |
| `Restart.ManyRestarts` | src/main.cpp:64-89 | over any number of lives and crashes every restart is clean and loses nothing acknowledged in the life before it, nor anything older that was safe on disk |
| `Recovery.EmptyTwins` | src/shard/sharded_database.cpp:57-68 | empty databases of the same shape start with the same contents |
| `SnapshotLoad.Save` | src/persist/snapshot.cpp:67-75 | the loop writes the encoded SET commands of the entries, with a TTL of at least one millisecond |
| `SnapshotLoad.SavedIsSet` | src/persist/snapshot.cpp:67-75 | a saved command parses as an unconditional SET of the entry with its saved TTL |
| `SnapshotLoad.LoadRestores` | src/command/command_executor.cpp:152-176 | loading entries that fit, in any order with sweeps between, answers OK throughout and shows exactly the loaded entries |
| `SnapshotRoundTrip.ShardSnapshot` | src/storage/kv_store.cpp:222-237 | a shard's snapshot names each live key once with its value and remaining TTL |
| `SnapshotRoundTrip.SnapshotDescribes` | src/shard/sharded_database.cpp:178-194 | so does the flattened snapshot |
| `SnapshotRoundTrip.SnapshotFits` | src/shard/sharded_database.cpp:178-194 | a snapshot fits the budgets of a database of the same shape |
| `SnapshotRoundTrip.BytesPermutation` | src/persist/snapshot.cpp:67-75 | that does not depend on the entry order |
| `SnapshotRoundTrip.SnapshotRestores` | src/main.cpp:74-78 | executing the saved commands in any order on an empty database of the same shape never fails or evicts and restores exactly the keys live at the snapshot |
| `SnapshotRoundTrip.RestoredCell` | src/persist/snapshot.cpp:69-73 | a restored key has its value and, if it had one, a TTL of the whole milliseconds left, at least one, from its load time |
| `SnapshotRoundTrip.SavedFileReadsBack` | src/persist/snapshot.cpp:67-75 | the snapshot file reads back as its commands |
| `SnapshotRoundTrip.SnapshotFileRestores` | src/main.cpp:74-78 | the same from the bytes of the snapshot file, through the parser, to the restored database |

## Left out

- Bytes are Dafny characters: the code only compares bytes with constants, so nothing depends on their range.
- Sizes and byte sums are unbounded naturals. The sums that could wrap are of strings held in memory at once; the two overflow checks (src/storage/kv_store.cpp:84 and 88) are covered by the comparison with the ceiling. The 64-bit access counter is assumed not to wrap.
- Deadlines are unbounded integers: `now + ttl` is assumed not to overflow the clock.
- Hash functions, hash-map iteration order and the pseudo-random generator are arbitrary functions; erasing and copying a map are taken to keep its iteration order.
- Clock readings are parameters. An operation of the sequential database reads the clock once, except for the second reading of an increment; the machine in `Transaction` lets every task have its own reading.
- OneStore.RepliesAsOneStore: assumes no memory pressure on the sharded and on the single store, since budgets per shard and for the whole run out at different moments.
- Recovery.LogRebuilds: covers runs without TTLs and without memory pressure, since eviction and expiry are not logged; sequential runs, since execution and log append are not under one lock, and runs in which no append throws, since such a command takes effect unlogged.
- CommandExecutors.CommandExecutor.MGet: reads key by key; nothing is claimed about MGET being one snapshot under concurrency.
- Dispatcher.RepliesInOrder: assumes that reply callbacks do not throw.
- Stream.ChunkingIndependence: stops at the first protocol error, after which input is still read.
- The snapshot and clear tasks of the database, which also take the lock exclusively, are modelled only sequentially.
- Transaction.StepKeeps: a restore task, or the posting of one, never throws. In the source an exception out of the rollback runs the rollback again on checkpoints already moved from (src/shard/sharded_database.cpp:117-125); what that leaves is not modelled.
- Atomicity.RefusedBatchChangesNothing: covers a throwing checkpoint and a throwing group, and not a throwing restore, for the same reason.
- Linear.InterleavingIsARun: states exact stores and so stops where a batch begins; sweeps between the shard updates of a batch keep it from being exactly one step of a sequential run. With batches, replies and live views are the subject of `Concurrent`.
- Concurrent.ConcurrentRepliesAsOneStore: assumes no memory pressure: clients' tasks and accepted groups fit their shards, and the operations fit the one store; with pressure a batch may evict keys it does not list (`Atomicity.AcceptedBatchIsIn`). What a refused or throwing batch tells its own client is not part of the comparison, since one store has no such operation.
- SessionPath.RepliesFollowRequests: speaks of clients without protocol errors, whose reply may overtake others (`Delivery.LoopSendOvertakes`). What each command is answered is a parameter, and nothing is said once the connection is down.
- Stream.StaysOpenIff: is about streams without protocol errors; after an error the bytes left over depend on the splitting.
- The machines of `AofWriter`, `Dispatcher`, `Connection` and `Transaction` are values stepped by events, not objects under locks; condition variables are replaced by steps that are possible when their condition holds.
- Sockets, epoll, event-loop wakeups, files, directories, fsync and rename are not modelled beyond counts taken, bytes kept and a synced length.
- Configuration parsing, metrics, the admin server and logging would only add easy members.
