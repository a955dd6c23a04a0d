# Verified models of a Redis client

A Dafny model of the parts of a Redis client library that keep state, with proofs of what they
promise. Bytes are integers 0..255 unless a comment says otherwise; values the decoders make of
digits stay integers.

**Concurrency.** `SpscQueue` is the lock-free queue of one producer and one consumer: every load and
store of the source is one atomic step of a state machine with a program counter per thread, so a
statement about every schedule is one about every interleaving. `Semaphore` is the lightweight
semaphore, `BlockingQueue` the two together.

**Replies.** `StringSearch` is the substring search as it is. `RespMachine` is the resumable RESP2
parser as a stack machine; `RespChunking` proves that cuts in the stream do not matter outside the
texts of simple strings; `RespRoundTrip` that printed replies come back, `RespCuts` from which
pieces they do, and that commands do from any. `RespParser` is the parser in the source's own form,
recursive functions with loops over a builder stack, proved equal to the machine. `ReplyBuilder`
lifts replies to values.

**Connections.** `ClientConn` is the pipelined client with automatic reconnect, as a machine over
sends, commits, replies, failures and connects and as a class; `SubscriberConn` takes pushed messages
out of the stream.

**Dumped objects.** `Lzf` is the decompressor against the meaning of its tokens, `Ziplist` the walker
of compact lists. `RdbMachine` is the resumable decoder of DUMP payloads, `RdbRoundTrip` what becomes
of payloads as Redis writes them, `RdbParser` the decoder in the source's form with its feeding loop.

**Memory.** `BipBuf` is the contiguous byte queue, `Pool` the pool allocator and the growable array.

**Cache.** `CacheProxy` is the write-behind cache: its server-side scripts as transitions over the
cache, its changes and the registry.

`dafny verify dfyconfig.toml` checks the project.

Where code and comments disagree the model follows the code: `bip_buf_force_reserve` is described as
growing when there is too little space (src/base/bip_buf.h:45), yet refuses when there is none at all;
`fast_strstr` is described as finding the first occurrence (src/base/bip_buf.c:23), which it does only
under the condition stated.

## Model

| member | source | states |
|---|---|---|
| `SpscQueue.Fifo` | src/base/concurrent/readerwriterqueue.h:245-567 | In every interleaving of one producer and one consumer the elements handed out are a prefix of those put in, no assert of the source fails and no thread follows a wild pointer. |
| `SpscQueue.RingHolds` | src/base/concurrent/readerwriterqueue.h:55-73 | What was put in and not handed out lies in the blocks from front to tail, in order; blocks strictly between are full, spare ones empty. |
| `SpscQueue.DequeueFailsOnlyWhenEmpty` | src/base/concurrent/readerwriterqueue.h:245-336 | try_dequeue returns false only if the queue was empty at some instant while that call was under way. |
| `SpscQueue.EnqueueFailsOnlyWhenFull` | src/base/concurrent/readerwriterqueue.h:473-567 | A queue built for maxSize refuses an element, or allocates, only if it held maxSize or more elements at some instant while that call was under way, for one block and for many. |
| `SpscQueue.EnqueueCall` | src/base/concurrent/readerwriterqueue.h:209-242 | A call of enqueue or try_enqueue puts in its own argument or nothing; enqueue never fails for want of room, only if the allocator refused the block it asked for; try_enqueue never allocates; either is over after twelve steps of its own, whatever the consumer does. |
| `SpscQueue.DequeueCall` | src/base/concurrent/readerwriterqueue.h:245-380 | try_dequeue takes the one element it hands out, or nothing; peek takes nothing; either is over after fourteen steps of its own, whatever the producer does. |
| `SpscQueue.PeekSeesFront` | src/base/concurrent/readerwriterqueue.h:344-380 | peek sees the element that the next successful try_dequeue hands out. |
| `SpscQueue.NoSlotRace` | src/base/concurrent/readerwriterqueue.h:473-567 | The slot about to be written is never the one about to be read. |
| `SpscQueue.StepKeeps` | src/base/concurrent/readerwriterqueue.h:245-567 | Each atomic load or store of either thread keeps the ring invariant. |
| `SpscQueue.ProduceKeeps` | src/base/concurrent/readerwriterqueue.h:473-567 | The producer's seventeen kinds of step keep it. |
| `SpscQueue.ConsumeKeeps` | src/base/concurrent/readerwriterqueue.h:245-380 | The consumer's steps keep it. |
| `SpscQueue.RunKeeps` | src/base/concurrent/readerwriterqueue.h:245-567 | So does every schedule. |
| `SpscQueue.NewInv` | src/base/concurrent/readerwriterqueue.h:80-137 | A new queue satisfies the invariant. |
| `SpscQueue.CountCovers` | src/base/concurrent/readerwriterqueue.h:92-100 | The number of blocks the constructor computes covers maxSize wherever the spare space happens to be. |
| `SpscQueue.MaskIsWrap` | src/base/concurrent/readerwriterqueue.h:270-285 | Masking an index with the block size less one is a wrap-around. |
| `SpscQueue.SizesArePowers` | src/base/concurrent/readerwriterqueue.h:92-130 | Every block of every reachable queue has a power of two of slots, as masking needs. |
| `SpscQueue.FullChain` | src/base/concurrent/readerwriterqueue.h:502-558 | A full chain of blocks holds at least the promised number of elements. |
| `SpscQueue.NoSpare` | src/base/concurrent/readerwriterqueue.h:531-558 | If no spare block follows the tail, maxSize elements were in the queue during the call. |
| `SpscQueue.NotEmptyNext` | src/base/concurrent/readerwriterqueue.h:285-330 | When the front block is exhausted and not the tail, the next block holds an element: the assert there cannot fail. |
| `SpscQueue.PeakInstant` | src/base/concurrent/readerwriterqueue.h:473-567 | The recorded peak was reached at an instant since the call began. |
| `SpscQueue.EmptyInstant` | src/base/concurrent/readerwriterqueue.h:245-336 | The recorded emptiness was real at an instant since the call began. |
| `SpscQueue.ReaderWriterQueue.constructor` | src/base/concurrent/readerwriterqueue.h:80-137 | A new queue is one empty block, or a ring of the computed number of them, of the computed size. |
| `SpscQueue.ReaderWriterQueue.MakeRing` | src/base/concurrent/readerwriterqueue.h:101-119 | The block loop links the blocks into a ring of empty blocks of that size and number. |
| `SpscQueue.ReaderWriterQueue.Play` | src/base/concurrent/readerwriterqueue.h:245-567 | Both threads run in place under any schedule; FIFO and safety hold at its end. |
| `Semaphore.StepKeeps` | src/base/concurrent/atomicops.h:570-649 | Each step of wait, timeout and signal keeps the count at -1 or more and accounts for every permit. |
| `Semaphore.SignalAdds` | src/base/concurrent/atomicops.h:638-648 | signal(n) adds n permits and wakes the waiter exactly if the count was below zero. |
| `Semaphore.NeverOvergrants` | src/base/concurrent/atomicops.h:570-649 | Over any run of allowed steps permits granted never exceed the initial plus the signalled ones, timeouts racing signals included. |
| `Semaphore.ZeroSignalOvergrants` | src/base/concurrent/atomicops.h:640-649 | signal(0), which the source's assert admits, gives away a permit that does not exist wherever it finds the count below zero: a waiter asleep in the kernel, or one that timed out and is taking its place back. |
| `Semaphore.AllowedIsExact` | src/base/concurrent/atomicops.h:570-649 | The condition on signals is exact: an action is allowed if and only if no schedule of allowed actions behind it grants more permits than there are. |
| `Semaphore.WaitCall` | src/base/concurrent/atomicops.h:570-636 | wait() comes back with one permit; tryWait() and wait(timeout) with one or with none, and with none only if there was none at the moment they gave up, the last after a timeout in the kernel. |
| `Semaphore.WaitEnds` | src/base/concurrent/atomicops.h:570-649 | No wake-up is lost: a waiter for which there is a permit has it after four steps of its own at most, once the signaller that saw it has posted. |
| `Semaphore.TimeoutGivesUp` | src/base/concurrent/atomicops.h:600-609 | A timed waiter without a permit can give up, which puts the count back; one without a timeout cannot. |
| `Semaphore.SpinsTenThousand` | src/base/concurrent/atomicops.h:572-590 | A waiter looks ten thousand times more before it takes its place. |
| `Semaphore.WaiterBlocks` | src/base/concurrent/atomicops.h:570-617 | A waiter that finds no permit goes to sleep in the kernel after its spins. |
| `BlockingQueue.DequeueAlwaysSucceeds` | src/base/concurrent/readerwriterqueue.h:747-790 | In every run the dequeue behind a granted permit finds an element. |
| `BlockingQueue.StepKeeps` | src/base/concurrent/readerwriterqueue.h:697-830 | Every step of queue and semaphore together keeps: permits never exceed elements. |
| `BlockingQueue.Waiting` | src/base/concurrent/readerwriterqueue.h:763-795 | A consumer that waits leaves the queue alone. |
| `BlockingQueue.Consuming` | src/base/concurrent/readerwriterqueue.h:747-790 | A consumer that took a permit is owed an element until it has it. |
| `BlockingQueue.WaitDequeueTakes` | src/base/concurrent/readerwriterqueue.h:747-790 | A free consumer on a queue with a permit hands out the oldest element in three steps of the wait and fourteen of the dequeue, alone. |
| `BlockingQueue.CallsBegin` | src/base/concurrent/readerwriterqueue.h:697-830 | Each call begins the call of the part it stands for, with its own element, leave to allocate, or kind of wait. |
| `BlockingQueue.StoredOwesSignal` | src/base/concurrent/readerwriterqueue.h:697-745 | An element put in is followed by a signal before the next call. |
| `BlockingQueue.SignalAddsPermit` | src/base/concurrent/readerwriterqueue.h:697-745 | That signal adds one permit. |
| `StringSearch.FastStrStr` | src/base/bip_buf.c:27-85 | The search as written returns Find, with its rolling unsigned sum. |
| `StringSearch.Slide` | src/base/bip_buf.c:62-82 | The sliding window finds the first near miss behind the first candidate. |
| `StringSearch.FindIsFirstOccurrence` | src/base/bip_buf.c:22-85 | It is the first occurrence exactly if the first candidate is one, or neither an occurrence nor a near miss follows it. |
| `StringSearch.FindMisses` | src/base/bip_buf.c:22-85 | A carriage return inside a line hides the end of the line. |
| `StringSearch.MissTest` | src/base/bip_buf.c:62-82 | The test of the second loop accepts windows that agree but for the last byte, short by the needle's first. |
| `StringSearch.WindowSum` | src/base/bip_buf.c:42-60 | What the two sums differ by. |
| `RespMachine.StepDecreases` | src/base/reply_parser/reply_builder.h:15-23 | Every turn of the builder loops takes input or comes closer to needing some: the loops end. |
| `RespMachine.StepKeepsShape` | src/base/reply_parser/reply_builder.c:3-34 | The stack stays a main builder with builders above it, each asked for by the one below; a bulk string never holds more than it waits for. |
| `RespChunking.ChunksDoNotMatter` | src/base/reply_parser/reply_parser.c:94-121 | Any stream parsed without meeting a simple or error string may be cut into any pieces: same replies, same bytes left, same builders, or the same error. |
| `RespChunking.CutAnywhere` | src/base/reply_parser/r_build_array.c:99-186 | For any input a cut makes no difference, unless at it a part of the text of a simple string, and not the whole, is taken. |
| `RespChunking.CutsDoNotMatter` | src/base/reply_parser/reply_parser.c:94-121 | Any stream, simple strings and malformed input included, may be cut into any pieces as long as every cut is of that kind. |
| `RespChunking.SimpleResumes` | src/base/reply_parser/r_build_simple_string.c:37-107 | A simple string resumed behind its whole text, also between CR and LF, ends as if it had not been interrupted. |
| `RespChunking.RunMore` | src/base/reply_parser/reply_parser.c:94-121 | With more bytes the parser first comes to the very state in which it had to stop. |
| `RespChunking.BulkResumes` | src/base/reply_parser/r_build_bulk_string.c:57-107 | A bulk string resumed at any byte, its trailer included, ends as if it had not been interrupted. |
| `RespChunking.LineEndStays` | src/base/bip_buf.c:203-208 | A line end once found is found at the same place in any longer input. |
| `RespChunking.AppendCounts` | src/base/reply_parser/r_build_simple_string.c:72-95 | Whatever the copying loop does to the bytes of a simple string, their number is right. |
| `RespChunking.TraceEver` | src/base/reply_parser/r_build_simple_string.c:37-107 | A simple string leaves a trace in every later state, and so does a byte of one that was counted and never written. |
| `RespChunking.GapStays` | src/base/reply_parser/r_build_simple_string.c:72-95 | Copying a second part of a text leaves such a byte, and none is ever filled. |
| `RespRoundTrip.StreamRuns` | src/base/reply_parser/r_build_reply.c:104-133 | Any replies printed in RESP2 and delivered at once come back, all of them and nothing else, with nothing left over. |
| `RespRoundTrip.ReplyRuns` | src/base/reply_parser/reply_parser.c:94-121 | A printed reply at the start of the input is handed out and exactly its bytes are used up. |
| `RespRoundTrip.ContentRuns` | src/base/reply_parser/r_build_reply.c:74-102 | Content of every type, nested to the depth the stack allows, becomes the reply it was printed from. |
| `RespRoundTrip.ElemsRun` | src/base/reply_parser/r_build_array.c:99-151 | So do the elements of an array, one by one. |
| `RespRoundTrip.IntValueOfDec` | src/base/reply_parser/reply_build_helper.c:66-101 | Reading back a printed number gives it, from -2^63 to 2^63 - 1. |
| `RespRoundTrip.DepthIsExact` | src/base/reply_parser/reply_parser.c:37-37 | Printed replies come back exactly if none needs more than fifteen builders: the main one, one for each array around, one for a text. |
| `RespRoundTrip.TrailerChecked` | src/base/reply_parser/r_build_bulk_string.c:82-95 | A bulk string is handed on exactly if CR and LF follow its bytes; anything else there is an error. |
| `RespRoundTrip.LeadingChecked` | src/base/reply_parser/r_build_reply.c:24-72 | A leading byte is an error exactly if it is none of the five. |
| `RespRoundTrip.LengthChecked` | src/base/reply_parser/r_build_bulk_string.c:22-55 | Lengths are cut to 32 bits; a bulk string whose length and three wrap is an error. |
| `RespRoundTrip.NullRuns` | src/base/reply_parser/r_build_array.c:14-49 | Any negative length means null. |
| `RespRoundTrip.PrintInjective` | src/RedisCommandBuilder.h:22-31 | Two different streams never print the same bytes. |
| `RespRoundTrip.BuildCommand` | src/RedisCommandBuilder.h:22-31 | The loop prints the command as an array of bulk strings. |
| `RespRoundTrip.Build` | src/RedisCommandBuilder.h:17-20 | It is appended to all commands and counted. |
| `RespRoundTrip.BuildAll` | src/RedisCommandBuilder.h:17-20 | The count is the number of commands printed. |
| `RespCuts.StreamInPieces` | src/base/reply_parser/r_build_simple_string.c:37-107 | Any replies printed in RESP2 and cut into any pieces come back, all of them and nothing else, with nothing left over, if and only if at no cut two bytes or more of the text of a simple or error string have arrived, and not all of it. |
| `RespCuts.CutExactly` | src/base/reply_parser/r_build_simple_string.c:72-95 | A simple string in two parts has the right length and framing; its text is right exactly if the first part held at most one byte of it or all of it, a cut between CR and LF included; otherwise it is the second part over the first, its last byte unwritten. |
| `RespCuts.LongTextRuns` | src/base/reply_parser/r_build_simple_string.c:72-95 | A simple string of any length at once has the right length, its buffers each filled from its first byte. |
| `RespCuts.StreamCut` | src/base/reply_parser/reply_builder.h:15-23 | Wherever a stream of printed replies is cut the parser waits for more, in the middle of a text exactly if the position says so. |
| `RespCuts.ContentCut` | src/base/reply_parser/r_build_reply.c:74-102 | So does content of every type, nested to the depth the stack allows. |
| `RespCuts.FeedWhole` | src/base/reply_parser/reply_parser.c:94-121 | As long as no cut spoils a text the parser is after every piece where it would be without the cuts. |
| `RespCuts.GapComes` | src/base/reply_parser/r_build_simple_string.c:72-95 | Once a part of a text is taken and another arrives the reply stays wrong, whatever follows in whatever pieces. |
| `RespCuts.TextFreeInPieces` | src/base/reply_parser/r_build_array.c:99-186 | Integers, bulk strings, nulls and arrays of them come back in any pieces. |
| `RespCuts.CommandsInPieces` | src/RedisCommandBuilder.h:17-31 | Commands arriving in any pieces parse to one array per command with its pieces, whatever bytes they hold. |
| `RespParser.ReplyParser.ParseOnce` | src/base/reply_parser/reply_parser.c:94-121 | The recursive parser, on its fields, ends in the state and with the replies of the machine. |
| `RespParser.ReplyParser.Receive` | src/io/KjReplyBuilder.cpp:37-53 | Bytes received are parsed as the machine parses them. |
| `RespParser.ReplyParser.BuildReply` | src/base/reply_parser/r_build_reply.c:104-133 | The main builder's loop does what the machine does until its reply is done. |
| `RespParser.ReplyParser.BuildArray` | src/base/reply_parser/r_build_array.c:153-186 | The array builder's loop likewise, to any depth. |
| `RespParser.ReplyParser.ArrayElement` | src/base/reply_parser/r_build_array.c:99-151 | One element, with the index counted and the next state chosen. |
| `RespParser.ReplyParser.ArrayStoreLen` | src/base/reply_parser/r_build_array.c:14-49 | Length line of an array: elements, empty or null. |
| `RespParser.ReplyParser.BuildBulkString` | src/base/reply_parser/r_build_bulk_string.c:109-139 | The bulk string builder's loop. |
| `RespParser.ReplyParser.BulkStoreLen` | src/base/reply_parser/r_build_bulk_string.c:22-55 | Length line of a bulk string. |
| `RespParser.ReplyParser.BulkPlain` | src/base/reply_parser/r_build_bulk_string.c:57-107 | Partial payload and trailer. |
| `RespParser.ReplyParser.BuildSimpleString` | src/base/reply_parser/r_build_simple_string.c:109-139 | The simple string builder's loop. |
| `RespParser.ReplyParser.SimplePlain` | src/base/reply_parser/r_build_simple_string.c:37-107 | Line or part of it, a trailing carriage return held back. |
| `RespParser.ReplyParser.CopyPieces` | src/base/reply_parser/r_build_simple_string.c:72-95 | The copying loop, which always starts at the first byte of buffer and input. |
| `RespParser.ReplyParser.ReadInteger` | src/base/reply_parser/reply_build_helper.c:66-101 | The digit loop: all of the line or nothing. |
| `RespParser.ReplyParser.BuildInteger` | src/base/reply_parser/r_build_integer.c:3-16 | Takes the line it has read. |
| `RespParser.ReplyParser.BuildContent` | src/base/reply_parser/r_build_reply.c:74-102 | The switch over content types. |
| `RespParser.ReplyParser.ReadType` | src/base/reply_parser/r_build_reply.c:24-72 | The leading byte, for replies and elements. |
| `RespParser.ReplyParser.Alloc` | src/base/reply_parser/reply_builder.c:22-34 | The builder of a depth is found or pushed. |
| `RespParser.RunToSplit` | src/base/reply_parser/reply_builder.h:15-23 | Builders above a depth are finished first: the recursion of the source is the stack of the machine. |
| `ReplyBuilder.WireToValues` | src/io/KjReplyBuilder.cpp:37-174 | From bytes in pieces to the values for the client, if texts arrive whole: exact if and only if no null array stands in the outermost place. |
| `ReplyBuilder.LongTextExactly` | src/base/reply_parser/r_build_simple_string.c:72-95 | A simple string of any length at once has the right bytes exactly if from the 4096th on they repeat those before. |
| `ReplyBuilder.FlatMore` | src/base/reply_parser/reply_build_helper.c:33-49 | The bytes of a chain are those of its buffers one after the other. |
| `ReplyBuilder.PushedIsMeaning` | src/io/KjReplyBuilder.cpp:148-174 | The value pushed is what the reply means, except that an outermost null array becomes an empty array. |
| `ReplyBuilder.AllPushedAreMeanings` | src/io/KjReplyBuilder.cpp:148-174 | The same for a stream. |
| `ReplyBuilder.ValueIsMeaning` | src/io/KjReplyBuilder.cpp:59-116 | Inside arrays nulls of both kinds are kept. |
| `ReplyBuilder.KjReplyBuilder.SetReply` | src/io/KjReplyBuilder.cpp:59-116 | Fills a value from a reply. |
| `ReplyBuilder.KjReplyBuilder.SetArrayReply` | src/io/KjReplyBuilder.cpp:122-142 | The loop over an array's elements. |
| `ReplyBuilder.KjReplyBuilder.AsString` | src/base/reply_parser/reply_build_helper.c:33-49 | The loop over the chain of buffers. |
| `ReplyBuilder.KjReplyBuilder.PushReply` | src/io/KjReplyBuilder.cpp:148-174 | Appends the value to the queue. |
| `ReplyBuilder.KjReplyBuilder.PopReply` | src/io/KjReplyBuilder.cpp:180-187 | Takes the oldest one. |
| `ClientConn.NoneLost` | src/io/KjRedisClientConn.cpp:92-447 | Over any run of sends, commits, replies, failures and reconnects the user's pipelines completed, followed by those queued, are the ones sent, in order. |
| `ClientConn.DisposedOnce` | src/io/KjRedisClientConn.cpp:187-196 | Over any run the dispose callbacks called are those of the pipelines completed, each once and in order, exactly if none of the calls throws; each that throws is one call too many, its pipeline staying queued. |
| `ClientConn.WrittenInOrder` | src/io/KjRedisClientConn.cpp:387-399 | What is written on a connection is a beginning of what is due on it, each once, in order; all of it after a commit that does not throw. |
| `ClientConn.DueAtConnect` | src/io/KjRedisClientConn.cpp:105-117 | Due on a new connection are all init pipelines, then the user's sent and not completed. |
| `ClientConn.CallbackGetsOwnReply` | src/io/KjRedisClientConn.cpp:152-198 | The k-th callback of a connection is called with the last reply to its own pipeline exactly if no pipeline up to it was half answered when the connection was made. |
| `ClientConn.HalfAnsweredIsEarly` | src/io/KjRedisClientConn.cpp:438-442 | Half answered, disconnected and connected again, a pipeline is completed by the first reply of the second round. |
| `ClientConn.HalfIsReached` | src/io/KjRedisClientConn.cpp:152-198 | The state that starts from is reached from a new client. |
| `ClientConn.InFlightIsAccepted` | src/io/KjRedisClientConn.cpp:163-184 | A reply for a committed front pipeline is never taken for one to a discarded pipeline. |
| `ClientConn.CountedExactly` | src/io/KjRedisClientConn.cpp:154-184 | A reply is counted exactly if it is no error and the front pipeline is committed; any other ends the reading and changes nothing else. |
| `ClientConn.OneReply` | src/io/KjRedisClientConn.cpp:182-197 | What a counted reply changes: before the last one the count alone; at the last one the callbacks, the reply's first; one that throws leaves the pipeline queued and ends the reading. |
| `ClientConn.ErrorEnds` | src/io/KjRedisClientConn.cpp:154-160 | The first error of an arrival leaves queue, count and log as the replies before it left them and ends the reading; the rest is not looked at. |
| `ClientConn.ReadingMeansNoError` | src/io/KjRedisClientConn.cpp:154-160 | If the connection reads on after an arrival there was no error in it. |
| `ClientConn.ErrorsAreNoReplies` | src/io/KjRedisClientConn.cpp:154-160 | In no run is an error counted as a reply or handed to a callback. |
| `ClientConn.FailStops` | src/io/KjRedisClientConn.cpp:429-446 | After a failure nothing is open, read or counted as committed; the pipelines wait as they were. |
| `ClientConn.ConnectStarts` | src/io/KjRedisClientConn.cpp:92-127 | A new connection has all init pipelines, then the user's, all to be sent again with the replies counted before; the count of commits stays. |
| `ClientConn.CommitWrites` | src/io/KjRedisClientConn.cpp:384-410 | A commit writes as many pipelines as the stream takes, in order; without a stream none, taking them for written; before the first connection it does nothing. |
| `ClientConn.AnswersComplete` | src/io/KjRedisClientConn.cpp:152-198 | Once everything is written, as many good replies as are owed complete every queued pipeline in order. |
| `ClientConn.NeedIsBuilt` | src/io/KjRedisClientConn.cpp:182-197 | The replies pipelines wait for are the commands they hold exactly if none of them is half done. |
| `ClientConn.DoKeeps` | src/io/KjRedisClientConn.cpp:92-447 | Every step keeps all four invariants. |
| `ClientConn.RunKeeps` | src/io/KjRedisClientConn.cpp:92-447 | Every run does. |
| `ClientConn.SendKeeps` | src/io/KjRedisClientConn.hpp:49-53 | Sending keeps them. |
| `ClientConn.CommitKeeps` | src/io/KjRedisClientConn.cpp:384-410 | So does committing, also when a write throws half way or the stream is gone. |
| `ClientConn.ReceiveKeeps` | src/io/KjRedisClientConn.cpp:142-199 | So does receiving any replies. |
| `ClientConn.FailKeeps` | src/io/KjRedisClientConn.cpp:429-446 | So does a failure: states go back, counts of replies do not. |
| `ClientConn.ConnectKeeps` | src/io/KjRedisClientConn.cpp:92-127 | So does connecting. |
| `ClientConn.KjRedisClientConn.constructor` | src/io/KjRedisClientConn.cpp:72-79 | A new client. |
| `ClientConn.KjRedisClientConn.Send` | src/io/KjRedisClientConn.hpp:49-53 | Appends the pipeline to the queue. |
| `ClientConn.KjRedisClientConn.Commit` | src/io/KjRedisClientConn.cpp:254-268 | Nothing is done for an empty queue. |
| `ClientConn.KjRedisClientConn.CommitLoop` | src/io/KjRedisClientConn.cpp:384-410 | The loop writes and counts every pipeline that is to be sent, until a write throws; without a stream the writes are lost and still counted. |
| `ClientConn.KjRedisClientConn.OnClientReceive` | src/io/KjRedisClientConn.cpp:142-199 | The loop over available replies, ended by an exception. |
| `ClientConn.KjRedisClientConn.OnReply` | src/io/KjRedisClientConn.cpp:152-198 | One reply: the checks in their order, the count, the callbacks, the pop. |
| `ClientConn.KjRedisClientConn.TaskFailed` | src/io/KjRedisClientConn.cpp:429-446 | Stream closed, states queueing, count zero. |
| `ClientConn.KjRedisClientConn.OnClientConnect` | src/io/KjRedisClientConn.cpp:92-127 | Init pipelines, then the surviving queue, all to be sent again, and a commit. |
| `SubscriberConn.PushesDoNotMatter` | src/io/KjRedisSubscriberConn.cpp:150-246 | Wherever pushed messages are strewn in, pipelines fare as if they were not there, and the messages are delivered in order. |
| `SubscriberConn.PushIsPush` | src/io/KjRedisSubscriberConn.cpp:170-206 | What counts as a pushed message, in one condition. |
| `SubscriberConn.PMessageArrives` | src/io/KjRedisSubscriberConn.cpp:175-190 | The printed array pmessage, pattern, channel, message, in any pieces, is one message with that pattern, channel and text, and leaves the pipelines alone. |
| `SubscriberConn.MessageArrives` | src/io/KjRedisSubscriberConn.cpp:192-205 | Likewise message, channel, message. |
| `SubscriberConn.RepliesPass` | src/io/KjRedisSubscriberConn.cpp:208-243 | Any other reply goes to the pipelines, an array emptied. |
| `SubscriberConn.KjRedisSubscriberConn.OnClientReceive` | src/io/KjRedisSubscriberConn.cpp:150-246 | The loop over replies. |
| `SubscriberConn.KjRedisSubscriberConn.OnReply` | src/io/KjRedisSubscriberConn.cpp:161-243 | One reply: a message, or else a reply whose array was emptied on the way. |
| `Lzf.LzfDecompress` | src/base/rdb_parser/lzf_d.c:55-149 | On nonempty input it ends, writes only into the output and returns the length of the decoded text with the text in place, or 0. |
| `Lzf.DecodeCodes` | src/base/rdb_parser/lzf_d.c:65-146 | Decoding any encoded token list is what the tokens say, too long texts and references before the text included. |
| `Lzf.DecodedIsCode` | src/base/rdb_parser/lzf_d.c:65-146 | Whatever decodes without error is the text of a token list. |
| `Lzf.CopyBackIs` | src/base/rdb_parser/lzf_d.c:124-141 | A back reference sets out[k] to out[k - dist] for each byte, overlapping or not, and that alone fixes the result. |
| `Lzf.CopyReference` | src/base/rdb_parser/lzf_d.c:128-141 | The copying loop does that in place. |
| `Lzf.CopyLiterals` | src/base/rdb_parser/lzf_d.c:85-92 | The loop of a literal run. |
| `Lzf.LiteralRun` | src/base/rdb_parser/lzf_d.c:69-93 | A literal run with its checks in their order. |
| `Lzf.BackReference` | src/base/rdb_parser/lzf_d.c:94-142 | A back reference with its checks in their order. |
| `Lzf.ReadReference` | src/base/rdb_parser/lzf_d.c:96-116 | Length and distance of a back reference, of two or three bytes. |
| `Lzf.ExpandFits` | src/base/rdb_parser/lzf_d.c:73-122 | A decoded text fits into the output and extends what was there. |
| `Lzf.ExpandCap` | src/base/rdb_parser/lzf_d.c:73-122 | Room beyond its length does not change a text. |
| `Ziplist.ZiplistBack` | src/base/rdb_parser/ziplist.c:483-510 | Any list of strings and integers, in any forms that fit them, is walked back to the same items in order. |
| `Ziplist.HashBack` | src/base/rdb_parser/ziplist.c:513-549 | Keys keep their values. |
| `Ziplist.GetBack` | src/base/rdb_parser/ziplist.c:458-480 | Any entry, with either form of the previous length, gives its item and its size. |
| `Ziplist.IntBack` | src/base/rdb_parser/ziplist.c:399-429 | Every integer form, 24 bits and immediates included, is read back as the integer written. |
| `Ziplist.Shift24` | src/base/rdb_parser/ziplist.c:414-418 | Shifting up and down again extends the sign of 24 bits. |
| `Ziplist.StringBack` | src/base/rdb_parser/ziplist.c:326-347 | Strings with 6, 14 and 32 bit lengths. |
| `Ziplist.SignedBack` | src/base/rdb_parser/ziplist.c:399-429 | Low bytes of a number in range give it back when read as signed. |
| `Ziplist.ZiplistGet` | src/base/rdb_parser/ziplist.c:458-480 | Item and size of the entry at a place. |
| `Ziplist.LoadList` | src/base/rdb_parser/ziplist.c:483-510 | The loop over a list, with its count. |
| `Ziplist.LoadHash` | src/base/rdb_parser/ziplist.c:513-549 | The loop over a hash, with its count. |
| `Ziplist.FlattenInjective` | src/base/rdb_parser/ziplist.c:513-549 | Pairs are determined by the walk. |
| `RdbMachine.ChunksDoNotMatter` | src/base/rdb_parser/rdb_parser.c:162-175 | Any input, malformed or not, may be cut into any pieces: same objects, same bytes left, same builders, same error. |
| `RdbMachine.RunResumes` | src/base/rdb_parser/rdb_parser.c:162-219 | Waiting for input in between makes no difference, and less than five bytes ever wait. |
| `RdbMachine.DataResumes` | src/base/rdb_parser/build_string_value.c:80-104 | Strings and compressed strings resume at any byte. |
| `RdbMachine.StoreLenTakes` | src/base/rdb_parser/build_helper.c:95-152 | A length takes at least one byte and is refused only when less than five are there. |
| `RdbMachine.StepDecreases` | src/base/rdb_parser/rdb_object_builder.h:16-24 | Every turn takes input or comes closer to needing some. |
| `RdbMachine.StepKeepsShape` | src/base/rdb_parser/rdb_object_builder.c:3-34 | Each builder on the stack was asked for by the one below. |
| `RdbMachine.AtMostFour` | src/base/rdb_parser/rdb_parser.c:51-51 | The stack never holds more than four builders. |
| `RdbRoundTrip.DumpParses` | src/base/rdb_parser/rdb_parser.c:177-219 | A new decoder given a whole payload calls its callback once, with its object, if and only if it is not an empty list or hash. |
| `RdbRoundTrip.DumpInPieces` | src/base/rdb_parser/rdb_parser.c:162-175 | So it does in any pieces, and nothing is left over. |
| `RdbRoundTrip.DumpRuns` | src/base/rdb_parser/build_dumped_data.c:34-75 | Strings, lists, sets, hashes, sorted sets and ziplists come out as the object they were written from, if and only if they are not empty lists, sets, hashes or sorted sets. |
| `RdbRoundTrip.ZiplistElements` | src/base/rdb_parser/build_zl_list_value.c:5-22 | The object of a ziplist payload entry by entry: strings as their bytes, numbers as those numbers, in order; in a hash in turn as keys and values. |
| `RdbRoundTrip.TypesChecked` | src/base/rdb_parser/build_object_detail_kv_val.c:3-43 | A type without a decoder is an error. |
| `RdbRoundTrip.EncodingChecked` | src/base/rdb_parser/build_string_value.c:48-78 | So is an encoding of a string other than the three integers and compression. |
| `RdbRoundTrip.CompressedChecked` | src/base/rdb_parser/build_lzf_string_value.c:60-90 | Compressed bytes that do not decompress into the length given are an error; others are their text, and behind it bytes nobody wrote if it is shorter. |
| `RdbRoundTrip.OddHashLeaves` | src/base/rdb_parser/ziplist.c:513-549 | A ziplist hash without its last value is read beyond its end. |
| `RdbRoundTrip.StrRuns` | src/base/rdb_parser/build_string_value.c:106-139 | Every string form: plain with each length form, integers, compressed. |
| `RdbRoundTrip.CompressedRuns` | src/base/rdb_parser/build_lzf_string_value.c:92-130 | A compressed string is its text. |
| `RdbRoundTrip.ListRuns` | src/base/rdb_parser/build_list_or_set_value.c:32-70 | All elements, in order. |
| `RdbRoundTrip.HashRuns` | src/base/rdb_parser/build_hash_or_zset_value.c:34-98 | All pairs, in order. |
| `RdbRoundTrip.DecodedIsMeaning` | src/base/rdb_parser/build_helper.c:154-190 | An integer string is decoded right exactly if it is not a negative one in 8 bits. |
| `RdbRoundTrip.HangsExactlyIfEmpty` | src/base/rdb_parser/build_list_or_set_value.c:32-70 | For all four counted types, every length form and whatever bytes follow: the decoder goes round forever without handing anything out if and only if the length is 0. |
| `RdbRoundTrip.BusyNeverHangs` | src/base/rdb_parser/build_hash_or_zset_value.c:34-98 | A builder that expects something never goes round in one place. |
| `RdbMachine.ForeverIsForever` | src/base/rdb_parser/build_hash_or_zset_value.c:94-98 | Where the machine stops with Forever any number of turns of the source's loop leaves builders and input as they are. |
| `RdbRoundTrip.LenBack` | src/base/rdb_parser/build_helper.c:95-152 | Each length form is read back. |
| `RdbParser.RdbDecoder.ParseDumpedData` | src/base/rdb_parser/rdb_parser.c:177-219 | The feeding loop ends, each piece being longer than nothing, and leaves what parsing the whole payload at once leaves. |
| `RdbParser.RdbDecoder.ParseOnce` | src/base/rdb_parser/rdb_parser.c:162-175 | The loop over payloads ends as the machine ends. |
| `RdbParser.RdbDecoder.BuildDumped` | src/base/rdb_parser/build_dumped_data.c:34-75 | Type, value, callback. |
| `RdbParser.RdbDecoder.BuildString` | src/base/rdb_parser/build_string_value.c:106-139 | The string builder does what the machine does until it is done. |
| `RdbParser.RdbDecoder.ReadData` | src/base/rdb_parser/build_string_value.c:80-104 | Takes what is there, up to what is wanted. |
| `RdbParser.RdbDecoder.ReadEncoded` | src/base/rdb_parser/build_string_value.c:48-78 | Integer encodings, compressed strings, others refused. |
| `RdbParser.RdbDecoder.BuildLzf` | src/base/rdb_parser/build_lzf_string_value.c:92-130 | The compressed string builder. |
| `RdbParser.RdbDecoder.BuildList` | src/base/rdb_parser/build_list_or_set_value.c:72-102 | The list builder. |
| `RdbParser.RdbDecoder.ListElement` | src/base/rdb_parser/build_list_or_set_value.c:32-70 | One element. |
| `RdbParser.RdbDecoder.BuildHash` | src/base/rdb_parser/build_hash_or_zset_value.c:100-133 | The hash builder. |
| `RdbParser.RdbDecoder.HashElement` | src/base/rdb_parser/build_hash_or_zset_value.c:34-98 | One key or value. |
| `RdbParser.RdbDecoder.ReadLength` | src/base/rdb_parser/build_helper.c:95-152 | The length at the start of a builder. |
| `RdbParser.RdbDecoder.LoadObject` | src/base/rdb_parser/build_zl_list_value.c:5-22 | Objects of the ziplist types are loaded item by item. |
| `RdbParser.RdbDecoder.BuildContent` | src/base/rdb_parser/build_object_detail_kv_val.c:3-43 | The switch over types. |
| `RdbParser.RunToSplit` | src/base/rdb_parser/rdb_object_builder.h:16-24 | Builders above a depth are finished first. |
| `BipBuf.BipBuf.Append` | src/base/bip_buf.c:255-331 | Reserve, write and commit append the bytes, growing or wrapping as needed; it fails only when the buffer is exactly full. |
| `BipBuf.BipBuf.Reserve` | src/base/bip_buf.c:213-249 | All free space is reserved, unless a reservation is pending or there is none; contents stay. |
| `BipBuf.BipBuf.ForceReserve` | src/base/bip_buf.c:254-311 | Exactly when it fails, the capacity it grows to, and that contents stay. |
| `BipBuf.BipBuf.Commit` | src/base/bip_buf.c:316-331 | Appends what was written, clipped to the reservation. |
| `BipBuf.BipBuf.Decommit` | src/base/bip_buf.c:336-343 | Drops from the front, at most what is there. |
| `BipBuf.BipBuf.Write` | src/base/bip_buf.c:213-249 | Writing into the reservation touches no committed byte. |
| `BipBuf.BipBuf.Settle` | src/base/bip_buf.c:232-243 | Moving the committed bytes to the front keeps them. |
| `BipBuf.WrapIsDisjoint` | src/base/bip_buf.c:232-243 | When that happens source and destination do not overlap. |
| `BipBuf.FilledIsNextPower` | src/base/bip_buf.c:11-20 | The bit trick gives the least power of two that is not below its argument, and 0 beyond 2^31. |
| `BipBuf.NextPowerOfTwo` | src/base/bip_buf.c:11-20 | That power of two as a number. |
| `Pool.NxPool.PallocSmall` | src/base/nx_buf.c:148-175 | The region is cut from the first block from the current one on that has room, all before it having none, else from a new block; no other block changes; it lies inside its block, behind the header, sharing no byte with any other region. |
| `Pool.NxPool.PallocBlock` | src/base/nx_buf.c:177-210 | The first region of a new block. |
| `Pool.NxPool.CountFailures` | src/base/nx_buf.c:201-205 | Skipping blocks moves no region; every block tried but the last counts one more failure, and the search begins behind the last one that had failed more than four times. |
| `Pool.NxPool.PallocLarge` | src/base/nx_buf.c:213-249 | A block of its own, remembered so that it can be freed: in the first free place among the five newest of the list, else in front; no other entry is lost. |
| `Pool.NxPool.Palloc` | src/base/nx_buf.c:122-145 | Small exactly up to the pool's bound, else large. |
| `Pool.NxPool.Pfree` | src/base/nx_buf.c:277-292 | Succeeds exactly for large regions in the list. |
| `Pool.NxPool.Reset` | src/base/nx_buf.c:96-119 | All blocks empty again. |
| `Pool.NxPool.constructor` | src/base/nx_buf.c:40-64 | A new pool has one block, empty behind its header, and has handed out nothing; it is sound exactly if its size is a multiple of the alignment. |
| `Pool.RoomTestIsRight` | src/base/nx_buf.c:158-168 | The test for room keeps aligned regions that are not empty inside the block exactly for blocks of an aligned size. |
| `Pool.OutsideIsReached` | src/base/nx_buf.c:122-168 | In a pool of any other size single bytes fill the block, and the next aligned allocation of any size lies behind it. |
| `Pool.NxArray.Push` | src/base/nx_array.c:39-83 | Old elements keep their bytes and no other region changes, grown in place or moved; the array stays sound exactly if it was made for an element or can grow in place. |
| `Pool.NxArray.PushN` | src/base/nx_array.c:86-133 | The same for many elements. |
| `Pool.NxArray.Move` | src/base/nx_array.c:64-74 | Copying to a new region. |
| `Pool.NxArray.Pop` | src/base/nx_array.c:136-148 | Returns the place behind the top element, outside the array if it is in full use. |
| `Pool.NxArray.constructor` | src/base/nx_array.c:4-19 | A new array is empty and owns a region of its own for n elements. |
| `Pool.CopyKeepsOthers` | src/base/nx_array.c:70-73 | Copying into a new region changes no other region. |
| `CacheProxy.RunKeeps` | src/base/RedisCacheProxy.cpp:45-56 | Over any run on any caches: dirty and state hashes have equal fields, a cache is registered exactly while it has changes, replaying them on the last looted contents gives the cache, and on the reader's copy gives what was put and removed. |
| `CacheProxy.DoKeeps` | src/base/RedisCacheProxy.cpp:45-56 | Every script keeps that. |
| `CacheProxy.AllowedIsExact` | src/base/RedisCacheProxy.cpp:45-56 | A step keeps that if and only if a put is not marked as a removal and a fetched value agrees with the pending changes. |
| `CacheProxy.PutPuts` | src/base/RedisCacheProxy.cpp:47-48 | After a put, replaying the pending changes on the last looted contents gives the old contents with the value, and on the reader's copy what was put and removed with the value; the field is marked, the cache registered, no other touched. |
| `CacheProxy.LootedIsLogical` | src/base/RedisCacheProxy.cpp:46-52 | After a loot the reader has everything, and a cache is cleared only if he already had. |
| `CacheProxy.LootLeavesNothing` | src/base/RedisCacheProxy.cpp:53-53 | Looted changes are gone from the server: no cache is registered, none has a pending field, and the caches are as they were. |
| `CacheProxy.LootTakesPending` | src/base/RedisCacheProxy.cpp:53-53 | What is looted of every registered cache are its pending fields and how they were left, and nothing of the others. |
| `CacheProxy.LootedOnce` | src/base/RedisCacheProxy.cpp:46-53 | A second loot with no put or removal in between finds nothing, and until then every clear removes its cache. |
| `CacheProxy.ClearRemoves` | src/base/RedisCacheProxy.cpp:46-46 | Clear removes a cache without changes, its hashes and its registration, and no other; one with changes stays. |
| `CacheProxy.RemoveRemoves` | src/base/RedisCacheProxy.cpp:49-49 | Remove takes the field out of the cache, keeps its last value pending, marked as deleted, and registers the cache; with a missing field nothing happens. |
| `CacheProxy.FetchAgrees` | src/base/RedisCacheProxy.cpp:143-149 | A plain write of a fetched value agrees with the pending changes exactly if its field is clean or was left with this very value. |
| `CacheProxy.ReplayPut` | src/base/RedisCacheProxy.cpp:47-48 | Replaying a put after the rest. |
| `CacheProxy.ReplayRemove` | src/base/RedisCacheProxy.cpp:49-49 | Replaying a removal after the rest. |
| `CacheProxy.CacheServer.AddToHashTable` | src/base/RedisCacheProxy.cpp:47-47 | The Add script does that, marking the field as added. |
| `CacheProxy.CacheServer.UpdateToHashTable` | src/base/RedisCacheProxy.cpp:48-48 | The Update script does, marking it as modified. |
| `CacheProxy.CacheServer.RemoveFromHashTable` | src/base/RedisCacheProxy.cpp:49-49 | The Remove script keeps the caches in order; a missing field is an error that changes nothing. |
| `CacheProxy.CacheServer.Clear` | src/base/RedisCacheProxy.cpp:46-46 | The Clear script is refused exactly while there are changes, and discards only what the reader has. |
| `CacheProxy.CacheServer.LootDirtyEntry` | src/base/RedisCacheProxy.cpp:53-53 | The Loot script's loop takes the changes of every registered cache and no others; the reader then has everything. |
| `CacheProxy.CacheServer.SetToHashTable` | src/base/RedisCacheProxy.cpp:143-149 | A plain HSET keeps the caches in order if and only if the value agrees with the pending changes. |

## Left out

- SpscQueue: weak-memory effects; the fences are taken to make the modelled steps sequentially consistent. Move, destruction, `size_approx` and allocation failure in the constructor are not modelled. The bit trick of `ceilToPow2` is modelled by its result, the least power of two.
- Semaphore: the kernel semaphore is a counter; the timeout of a wait is a choice of the schedule.
- RespMachine: the reply under construction is kept with its builder instead of in the pool; a builder beyond the fifteen that leave the stack array sound, and a bulk length that overflows 32-bit arithmetic, end a run (`TooDeep`, `TooBig`), where the source goes on with memory it does not own.
- RespParser.ReplyParser.ParseOnce: the callback always accepts, as the one in use does; one that rejects a reply ends the parser for good. The parser's input is a sequence; `BipBuf` is the buffer behind it.
- RespCuts.StreamInPieces: texts of simple and error strings hold no carriage return and fit one buffer of 4096 bytes; of longer ones only the delivery at once is covered (`ReplyBuilder.LongTextExactly`).
- ReplyBuilder.WireToValues: for texts that arrive whole; a text whose counted bytes and stored bytes differ, possible beyond 2^32 bytes only, is not modelled.
- ClientConn: sockets, timers and the order of promises are reduced to the steps named; the number of writes before an exception and whether the reply callback or the dispose callback throws are inputs of a step. A write that throws counts as not written. Bytes behind a malformed reply are not modelled.
- ClientConn.KjRedisClientConn.OnClientReceive: its precondition, and that of `OnClientConnect`, say when the event can occur; in a run an event that cannot occur changes nothing.
- ClientConn.CallbackGetsOwnReply: for pipelines of at least one command; the server is taken to answer each written command once, in order.
- SubscriberConn: the queue code is a copy of the client's and is modelled by it; callbacks for messages do not throw.
- Lzf.LzfDecompress: for nonempty input; on empty input the source reads before its first check.
- Ziplist: integers are not printed in decimal; a walk past the end of the bytes is `None`.
- RdbMachine: zipmaps, integer sets, whole files and checksums. Errors end a run where the source repeats the call forever, and so does a turn that changes nothing (`Forever`). An empty compressed string is `Outside`.
- RdbParser.RdbDecoder.ParseDumpedData: it returns the error where the source, on any error but missing input, repeats the call forever; so do `ParseOnce` and `BuildDumped`. The input buffer is reduced to its capacity of 4096 bytes; the callback always accepts.
- BipBuf.BipBuf.ForceReserve: a buffer that has to grow stays within 2^31; beyond it the source's 32-bit size wraps to 0 and it copies into nothing; so for `Append`. That the bit trick on 32 bits is the power of two on integers is proved by its defining properties on each side, not by an equation between them.
- Pool.NxPool.constructor: at least the size of a pool's header is asked for, below which the source's sizes wrap; the allocations of pools whose size is no multiple of the alignment are modelled no further than `Pool.OutsideIsReached`.
- Pool: sizes are those of a 64-bit build with 8-byte long; allocation failure, cleanup handlers and aligned allocation by `nx_pmemalign` are not modelled. A freed large region stays in the list of regions handed out.
- CacheProxy: key names are taken to be distinct for distinct caches; reading scripts are not modelled.
- Connection plumbing, work queues, command wrappers, list and ranking proxies, logging, formatting of numbers: input and output, or thin wrappers.
