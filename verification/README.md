# panda: verified models of the logger, the wire protocol and the worker pool

A Dafny project beside the C++ sources of panda, a message gateway. It models the parts whose
correctness depends on more than one function or more than one thread, and proves what they promise.
`dafny verify dfyconfig.toml` checks all of it.

## What is modelled

**The loggers (`util/nanolog.hpp`).** `QueueBuffer` is the guaranteed logger's lock-free queue: any
number of producers, one consumer, buffer generations of an arbitrary positive size. It is a transition
system in which one step is one access to shared memory; atomics are sequentially consistent, and
failed busy-waits are steps that change nothing. `QueueSafety` proves an inductive invariant,
`QueueTheorems` what follows for every run, `QueueProgress` that pushes cannot wait for ever on nothing,
`QueueCalls` what a call of `try_pop` does while producers push, `QueueDrain` the loop that empties the queue
at shutdown. `RingBuffer`, `RingTheorems`, `RingCalls` and `RingDrain` do the same for the lossy ring, with its
32-bit indices. `LogLine` and `LogBuffer` model the self-describing log line: the
bytes arguments are stored as, the buffer that moves from the stack to the heap and grows, and the
recursive printer.

**The wire protocol (`net/`, `src/application.cpp`, `src/protocol/proto.cpp`).** `Bits`, `Crc16`,
`CrcTable` and `CrcDetection` are the frame check: bit-by-bit polynomial division by
x^16 + x^12 + x^5 + 1 (section 2 of ITU-T Recommendation V.41), the table loop that computes it, and what
it detects. `Codec` is the format of fields, `MsgBuffer` the cursor buffer they are written to and read
from, `Protocol` the frames and the methods that build and take them apart in place. `Framing` says what a
byte stream means, as a pure split by the length word; `Connection` is the read chain of a server
connection, with its pool of buffers (`ObjectPool`) and the read tasks it posts; `Service` runs it on any
stream, cut into chunks in any way, with errors in between and workers taking tasks at any moment and in
any order, and ends with the result from a list of requests to what the workers understand. `WireBytes` says in
plain bytes what frames and commands look like.

**The worker pool (`util/queue.h`, `util/threadpool.cpp`).** `BlockingQueue` is the bounded queue with its
mutex and two condition variables as a transition system: waiting releases the mutex in the same step, a
notification wakes a thread that sleeps at that moment or is lost, and sleepers may wake up for no reason.
`BlockingTheorems` and `BlockingAdds` are what its users can rely on. `ThreadPool` puts one such queue under each
worker loop and adds the shutdown; `PoolTasks` follows the tasks from `add_task` to the worker that runs them, and
`PoolProgress` shows that they do get run.

Three findings about the code, all proved:

* The layout `handle_write_msg` produces is not one this repository's own receive path takes: the length
  leaves out the magic, so a response with a body of less than four bytes is refused and any other is cut
  four bytes short (`Framing.ResponseIsNotAFrame`). Its check value covers four bytes less than the
  payload (`Protocol.FrameResponse`), and the cut frame passes the check just if a word of its own body
  happens to be the check value of the payload before it (`Framing.CutResponseChecked`).
* The lossy ring indexes its slots with a 32-bit counter modulo its size. When the size does not divide
  2^32, the slots jump as the counter wraps, and a line can be lost although the reader was never more
  than a ring's length behind (`RingTheorems.WrapLoses`, `RingTheorems.LosslessExactly`). Sizes are
  4096 slots per megabyte asked for, so this concerns every number of megabytes that is not a power of
  two.
* A `std::string` with a NUL in it is not logged faithfully. One argument is printed correctly exactly
  when it has no NUL (`LogLine.ArgRoundTrip`, `LogLine.LastStringExact`); in the middle of a line the
  damage can go unnoticed by chance (`LogLine.NulUnnoticed`).

## Model

| member | source | states |
|---|---|---|
| QueueSafety.NextKeeps | util/nanolog.hpp:503-599 | every step of every producer and of the consumer keeps the invariant |
| QueueSafety.RunKeeps | util/nanolog.hpp:529-599 | the invariant holds in every state of every interleaving |
| QueueTheorems.PoppedInTicketOrder | util/nanolog.hpp:503-583 | the lines popped are a prefix of the lines with a ticket, by generation and ticket; every ticket is some producer's, and the lines with a ticket are, producer by producer and in push order, all lines pushed but the one still without: none dropped, invented or reordered |
| QueueTheorems.SlotsWrittenOnce | util/nanolog.hpp:503-519 | a slot goes from raw to the line of its own ticket to moved-from and never back; tickets and popped lines are never taken back |
| QueueTheorems.OrderGrows | util/nanolog.hpp:542-557 | the ticket order only grows at its end |
| QueueTheorems.EarlierPushPoppedFirst | util/nanolog.hpp:542-583 | first come, first served across producers: if a push had returned before another began, its line is before the other's in the ticket order, and each is popped at its place |
| QueueTheorems.TicketAndBufferAgree | util/nanolog.hpp:542-557 | although ticket and buffer pointer are read in separate steps, a producer writes into the generation its ticket was issued for, into a slot that is still raw |
| QueueTheorems.SealedAtMostOnce | util/nanolog.hpp:503-508 | two steps that see the count reach the size in one generation are the same step of the same producer |
| QueueTheorems.SealedOncePerGeneration | util/nanolog.hpp:503-508 | each completed generation was completed in exactly one step of exactly one producer, and every slot was flagged at that moment |
| QueueTheorems.TicketCounterBounded | util/nanolog.hpp:542-557 | the ticket counter exceeds the size by at most the number of producers, so it does not wrap, and only while somebody spins |
| QueueProgress.MoveDecreases | util/nanolog.hpp:542-557 | every producer step that changes the state, that is, all but a failed wait, brings the measure down |
| QueueProgress.PushesFinish | util/nanolog.hpp:542-593 | without new pushes producers make a bounded number of moves, under every scheduler |
| QueueProgress.NoDeadlock | util/nanolog.hpp:552-556 | while a push is in flight some producer can move, or the reader holds the lock and can |
| QueueCalls.FlaggedIsTaken | util/nanolog.hpp:510-519 | whatever the producers are doing, a reader at its test takes the line of the next ticket if that slot is flagged, and ends its call with nothing if it is not |
| QueueCalls.CallPopsOrFindsNothing | util/nanolog.hpp:559-583 | a call, with any steps of producers in between, pops the line of the next ticket and no other, or nothing; and then at some moment of the call that ticket's slot was not flagged |
| QueueCalls.FlaggedCallPops | util/nanolog.hpp:559-583 | a call that begins when the next ticket's slot is flagged pops its line |
| QueueCalls.UnflaggedIsInFlight | util/nanolog.hpp:503-508 | a slot that has a ticket and no flag is one its producer still works on, so the line of a push that has returned can be popped |
| QueueCalls.ReaderGoesOn | util/nanolog.hpp:559-599 | every step of the reader brings its call nearer to the end, unless a producer holds the lock it waits for, and that producer can go on |
| QueueDrain.TryPop | util/nanolog.hpp:559-583 | with no push in flight a call pops the next line, or fails exactly when every line with a ticket was popped |
| QueueDrain.FindBuffer | util/nanolog.hpp:559-567 | the start of the call finds a buffer to read |
| QueueDrain.LookUpFront | util/nanolog.hpp:595-599 | the lookup under the lock finds a buffer |
| QueueDrain.RetireBuffer | util/nanolog.hpp:571-578 | a buffer read to its end leaves the front of the queue, and nothing is popped |
| QueueDrain.Drain | util/nanolog.hpp:748-752 | the final loop ends, and then every line ever pushed, and no other, was written exactly once, in ticket order |
| RingBuffer.RunKeeps | util/nanolog.hpp:437-458 | the ring's invariant holds in every state of every interleaving |
| RingTheorems.TicketConservation | util/nanolog.hpp:437-458 | each ticket's line is in exactly one place, once: still being pushed, resident, popped, or overwritten |
| RingTheorems.Conservation | util/nanolog.hpp:437-458 | each line passed to push waits for its ticket or has one, and then its line is in exactly one place, once; a line whose push has returned is resident, popped, or overwritten |
| RingTheorems.TicketWasPushed | util/nanolog.hpp:437-444 | every ticket is some producer's, for the very line of the push it belongs to |
| RingTheorems.LinesIntact | util/nanolog.hpp:446-458 | every line handed out is the line of the ticket it was popped for |
| RingTheorems.LosslessWhileClose | util/nanolog.hpp:437-458 | while tickets run at most a ring's length ahead and wrapping does no harm, nothing is overwritten and lines come out in ticket order |
| RingTheorems.WrapLoses | util/nanolog.hpp:437-458 | if the size does not divide 2^32 there is a run that stays within a ring's length and loses a line when the counter wraps |
| RingTheorems.LosslessExactly | util/nanolog.hpp:437-458 | staying within a ring's length is safe for every run if and only if the size divides 2^32 |
| RingTheorems.BoundIsTight | util/nanolog.hpp:437-444 | for every size there is a run one ticket further ahead that loses the first line |
| RingCalls.RunKeepsLocks | util/nanolog.hpp:437-458 | a slot's lock is only ever held by a thread inside its critical section at that slot |
| RingCalls.PushGoesOn | util/nanolog.hpp:437-444 | a push in flight gets on with every step, or waits for the lock of its ticket's slot, whose owner gets on |
| RingCalls.CallGoesOn | util/nanolog.hpp:446-458 | the same for the reader |
| RingCalls.WrittenIsTaken | util/nanolog.hpp:450-458 | whatever the producers are doing, a reader with the lock of the slot of its read index hands out the slot's line if it is written, and nothing if it is not |
| RingCalls.CallTakesOrMisses | util/nanolog.hpp:446-458 | a call, with any steps of producers in between, hands out the line found in the slot of the read index, or nothing, having found the slot not written |
| RingCalls.WrittenCallTakes | util/nanolog.hpp:446-458 | a call that begins when that slot is written hands out a line |
| RingDrain.TryPop | util/nanolog.hpp:446-458 | with no push in flight and nothing lost, a call succeeds if and only if a ticket has not been read |
| RingDrain.Drain | util/nanolog.hpp:748-752 | the final loop ends, and then every ticket's line was handed out, in ticket order |
| LogLine.ArgRoundTrip | util/nanolog.hpp:241-281 | what is stored for an argument prints as it should and is used up exactly, if and only if it is not a string with a NUL in it |
| LogLine.LineRoundTrip | util/nanolog.hpp:305-364 | printing what any NUL-free arguments stored gives their renderings, in order |
| LogLine.LastStringExact | util/nanolog.hpp:355-364 | a last string prints as it should if and only if it has no NUL in it |
| LogLine.NulUnnoticed | util/nanolog.hpp:193-197 | a line with a NUL in a string whose output is right by chance |
| LogLine.LineLayout | util/nanolog.hpp:133-156 | the pieces around the arguments: time, level name, thread, file, function and line, the end of the line, and a flush from level 4 on |
| LogLine.HeaderPieces | util/nanolog.hpp:121-142 | the fixed part reads back as it was written |
| LogBuffer.NanoLogLine.constructor | util/nanolog.hpp:117-127 | a new line holds its header and no arguments |
| LogBuffer.NanoLogLine.Write | util/nanolog.hpp:241-246 | appends the object's bytes and stays within the buffer |
| LogBuffer.NanoLogLine.ResizeIfNeeded | util/nanolog.hpp:283-304 | makes room, keeps the contents; the new size is the code's |
| LogBuffer.NanoLogLine.EncodeTagged | util/nanolog.hpp:248-254 | appends the tag and the object, growing if necessary |
| LogBuffer.NanoLogLine.EncodeCstr | util/nanolog.hpp:270-281 | appends tag, string and NUL; nothing for an empty string |
| LogBuffer.NanoLogLine.Put | util/nanolog.hpp:158-219 | the content is the header and the stored form of all arguments so far, whatever promotions and regrowths happened |
| LogBuffer.NanoLogLine.Stringify | util/nanolog.hpp:133-156 | prints heading, arguments and ending; with NUL-free arguments exactly the line as it should be |
| LogBuffer.NanoLogLine.ReadHeader | util/nanolog.hpp:135-142 | recovers the header |
| LogBuffer.PrintCstr | util/nanolog.hpp:356-364 | prints up to the NUL and stops behind it |
| LogBuffer.PrintOne | util/nanolog.hpp:305-354 | prints the argument at a position and stops behind it |
| LogBuffer.Print | util/nanolog.hpp:305-339 | prints everything between two positions |
| Crc16.CrcIsRemainder | src/protocol/proto.cpp:79-119 | the register after a message is the remainder of the message times x^16 |
| CrcTable.TableIsDivision | src/protocol/proto.cpp:80-113 | every table entry is the remainder of its index |
| CrcTable.LookupIsUpdate | src/protocol/proto.cpp:116-117 | one table lookup is eight division steps |
| CrcTable.ComputeCrc | src/protocol/proto.cpp:114-118 | the loop computes the check value of every byte string |
| CrcDetection.CrcLinear | src/protocol/proto.cpp:114-118 | the check value of the exclusive or of two messages is the exclusive or of theirs |
| CrcDetection.ResidueZero | src/protocol/proto.cpp:114-118 | a message followed by a word has check value zero if and only if the word is the message's check value |
| CrcDetection.RemainderLinear | src/protocol/proto.cpp:114-118 | the remainder of a sum is the sum of the remainders |
| CrcDetection.BurstDetected | src/protocol/proto.cpp:114-118 | a change confined to sixteen bits in a row, at any position, turns check value zero into another |
| Codec.FieldRoundTrip | net/msgbuffer.cpp:52-72 | a field reads back, with its length, if and only if it is not a string with a NUL in it |
| Codec.CodecRoundTrip | net/msgbuffer.cpp:52-110 | reading under the schema that was written returns the fields and leaves what follows, if and only if no string has a NUL in it |
| MsgBuffer.MsgBuffer.constructor | net/msgbuffer.h:19-21 | a new buffer is in the cleared state |
| MsgBuffer.MsgBuffer.Clear | net/msgbuffer.h:71-76 | the cleared state: cursors, length and indicator reset, 1024 zero bytes |
| MsgBuffer.MsgBuffer.Commit | net/msgbuffer.h:51-53 | the n bytes behind the write cursor become readable after the old ones |
| MsgBuffer.MsgBuffer.Consume | net/msgbuffer.h:55-57 | the first n readable bytes are gone |
| MsgBuffer.MsgBuffer.Vomit | net/msgbuffer.h:59-64 | the n bytes before the read cursor are readable again; nothing if there are fewer |
| MsgBuffer.MsgBuffer.Seek | net/msgbuffer.h:66-69 | both cursors move over a gap of n bytes; an empty buffer stays empty |
| MsgBuffer.MsgBuffer.Adjust | net/msgbuffer.cpp:30-50 | the room asked for is there, every byte is where it was, and the size is the code's |
| MsgBuffer.MsgBuffer.Patch | net/msgbuffer.cpp:124-139 | the bytes at the offset are replaced and no others |
| MsgBuffer.MsgBuffer.Append | net/msgbuffer.cpp:21-28 | the readable bytes are the old ones and then the data, growing if necessary |
| MsgBuffer.MsgBuffer.Put | net/msgbuffer.cpp:52-72 | the readable bytes are the old ones and then the encoded field |
| MsgBuffer.MsgBuffer.PutAll | src/protocol/proto.cpp:20-73 | a body written field by field is the encoding of the field list |
| MsgBuffer.MsgBuffer.Receive | net/connection.cpp:123 | the bytes the socket stored behind the write cursor become readable |
| MsgBuffer.MsgBuffer.Fetch | net/msgbuffer.h:125-131 | the handler sees nothing if and only if the offset or length check fails; bytes within the readable ones are seen as they are |
| MsgBuffer.MsgBuffer.Peek32 | net/msgbuffer.cpp:120-122 | the big-endian word at the read cursor, which stays |
| MsgBuffer.MsgBuffer.Terminator | net/msgbuffer.cpp:105-106 | the distance to the first NUL |
| MsgBuffer.MsgBuffer.Get | net/msgbuffer.cpp:81-110 | the field at the read cursor, and the cursor moves by its encoded length |
| MsgBuffer.MsgBuffer.GetAll | src/protocol/proto.cpp:34-40 | a body read field by field is the decoded list, and the rest stays readable |
| Protocol.SealRequest | net/client.cpp:174-178 | magic in front and the check value of everything from offset 8 behind |
| Protocol.BuildKeepalive | net/client.cpp:167-180 | leaves exactly the request frame of the keepalive command |
| Protocol.FillHead | src/protocol/proto.cpp:15-18 | the first eight readable bytes are replaced and no others |
| Protocol.Makeup | src/protocol/proto.cpp:146-184 | leaving a gap, writing the body and patching the head gives the bytes of writing head and body in turn, for every body |
| Protocol.HeadThenBody | src/protocol/proto.cpp:7-9 | these bytes are the length word, the command word and the encoded body |
| Protocol.MakeupHeadOnly | src/protocol/proto.h:241-244 | the keepalive response is its head |
| Protocol.MakeupResponse | src/protocol/proto.h:208-244 | every response is made up as BE(8 + body length), as a 32-bit word, command and body |
| Protocol.LengthArgument | src/application.cpp:104 | the check value's length argument, 32-bit wrap and conversion to `int` included |
| Protocol.SealResponse | src/application.cpp:98-107 | magic, length without the magic, payload, and the check value of length - 8 bytes from offset 8 |
| Protocol.FrameResponse | src/application.cpp:84-109 | on a cleared buffer the whole path leaves exactly the response layout, for every body; without a response the buffer is marked invalid |
| Protocol.ParseCheck | src/application.cpp:11-31 | accepts if and only if the stored and the computed check values agree; then the length word is replaced and the magic gone, else nothing changes |
| Protocol.AcceptedIffResidueZero | src/application.cpp:11-25 | a frame is accepted if and only if the check value of bytes 8 to the end is zero |
| Protocol.BurstRejected | src/application.cpp:11-25 | an accepted frame changed within sixteen bits in a row, anywhere from offset 8 on, is rejected |
| Protocol.CorruptionRejected | src/application.cpp:11-25 | an accepted frame changed in one or two adjacent bytes from offset 8 on is rejected |
| Protocol.HandleReadMsg | src/application.cpp:33-82 | the message is what the frame says, or none if the check fails or the command is unknown |
| Protocol.RequestComesBack | src/application.cpp:33-60 | a request's frame passes the check and yields its command, its fields, length 8 + body, and leaves the two check bytes |
| Framing.SplitAppend | net/connection.cpp:108-166 | splitting can be resumed from the bytes left over; after a bad header nothing more follows |
| Framing.SplitConserves | net/connection.cpp:108-166 | frames and leftover bytes are the stream, or its start if a bad header stopped the split |
| Framing.SplitShape | net/connection.cpp:217-228 | every frame is as long as its length word says and within 14 bytes and 2 MiB, 32-bit wrap included; something is always missing from what is left over |
| Framing.SplitOfFrames | net/connection.cpp:108-166 | a stream of frames is split into just these |
| Framing.ReadStep | net/connection.cpp:139-164 | a read of at most the missing bytes ends a frame exactly, ends at a bad header, or leaves fewer bytes missing |
| Framing.RequestIsFrame | net/connection.cpp:217-219 | a request of legal size is a frame |
| Framing.ResponseIsNotAFrame | src/application.cpp:100-105 | what this program's receiver makes of its own responses |
| Framing.CutResponseChecked | src/application.cpp:11-31 | a response cut short by the split passes the check if and only if the word four bytes before the end of its body is the check value of the payload before it |
| WireBytes.BigEndian | net/msgbuffer.cpp:52-72 | integers are written highest byte first |
| WireBytes.HeaderAccepted | net/connection.cpp:200-228 | a header is accepted if and only if it begins with F7 BA A1 C9 and announces 14 to 2097152 bytes |
| WireBytes.RequestLimit | net/connection.cpp:217-219 | a request is a frame if and only if it has at most 2097152 bytes |
| WireBytes.KeepaliveBytes | net/client.cpp:167-180 | the fourteen bytes of the keepalive request |
| WireBytes.BindCarries | src/application.cpp:42-48 | a checked frame of command 1 whose body is a NUL-terminated text yields just that text |
| WireBytes.KeepaliveCarriesNothing | src/application.cpp:49-54 | a checked frame of command 2 yields no fields |
| WireBytes.DeliverCarries | src/protocol/proto.cpp:34-40 | a checked frame of command 3 whose body is the nineteen fields of a deliver request in order yields these |
| WireBytes.OthersCarryNothing | src/application.cpp:72-76 | a frame of any other command yields no message |
| WireBytes.LegalRequests | src/application.cpp:33-82 | the requests the end-to-end result is about are binds, keepalives and delivers with NUL-free strings of at most 2 MiB |
| ObjectPool.ObjectPool.constructor | net/objectpool.h:15-21 | as many cleared, distinct buffers as asked for, none lent |
| ObjectPool.ObjectPool.Use | net/objectpool.h:34-44 | a cleared buffer that nobody else holds, the oldest free one if there is any |
| ObjectPool.ObjectPool.Recycle | net/connection.h:92-95 | a lent buffer is cleared and goes to the end of the list |
| Connection.PackageCheck | net/connection.cpp:200-228 | the verdict on the bytes received since the last frame; the cursors are back where they were and the length field is set once the header is complete |
| Connection.Connection.constructor | net/server.cpp:103-112 | an accepted connection asks for a header |
| Connection.Connection.AsyncRead | net/connection.cpp:51-65 | a buffer is in use and has room for what is asked for, which is what is missing |
| Connection.Connection.HandleRead | net/connection.cpp:108-166 | frames handed over and bytes buffered stay those of the pure split; the chain ends exactly at a bad header or a lasting error |
| Connection.Connection.Dispatch | net/connection.cpp:126-149 | the four verdicts: close, hand over, or ask for just the bytes missing |
| Connection.Connection.HandOver | net/server.cpp:114-125 | the buffer moves into a task that holds the frame, and is no longer the connection's |
| Connection.Connection.HandleTask | src/application.cpp:33-82 | a worker may take any waiting task; its outcome is that of the task's frame, and its buffer goes to the end of the free list if the check passed and stays out of it otherwise |
| Connection.Connection.RunTask | src/application.cpp:33-82 | the same for the task alone: what becomes of its buffer, and what does not change in the pool |
| Connection.Connection.Refuse | src/application.cpp:84-92 | a frame that is no message makes the worker post a pooled buffer marked invalid |
| Connection.Connection.CloseOnRefusal | net/connection.cpp:70-75 | the strand gives the invalid buffer back and closes the socket |
| Service.ReadStep | net/connection.cpp:108-166 | a read brings bytes while the chain is alive; the chain ends at a bad header, at a lasting error, or, if the strand has closed the socket, after at most one more read |
| Service.Run | net/connection.cpp:108-166 | for every stream and schedule the frames handed over are the first of the split; with enough reads, no lasting error and no close over a refused frame, frames, leftover and closing are those of the split, so the same for every chunking; each frame is dealt with once or waits; a refused frame closes the connection or is about to |
| Service.RequestsSplit | net/connection.cpp:108-166 | legal requests on the wire are split into just their frames |
| Service.RequestUnderstood | src/application.cpp:11-60 | a legal request's frame is accepted and says what was sent |
| Service.ServeRequests | net/connection.cpp:108-166 | end to end: all requests arrive in order, the connection stays open, and every request is understood once, as sent |
| BlockingQueue.MoveKeepsInv | util/queue.h:31-62 | every move of every thread keeps the invariant |
| BlockingQueue.RunKeeps | util/queue.h:31-101 | the invariant holds after every run |
| BlockingTheorems.NothingLost | util/queue.h:31-62 | what was taken and then the queue is what was accepted, within the bound; no lost wake-up for takers or adders before a stop |
| BlockingAdds.AddsInOrder | util/queue.h:31-45 | what a thread passed to add is, in call order: its items among those accepted, those refused, none unless the queue is stopped, and the one it still holds |
| BlockingAdds.NoItemDropped | util/queue.h:31-45 | before a stop every item is accepted as often as it was passed to add, but for the adds that have not returned |
| BlockingAdds.RefusedSawFlag | util/queue.h:39-41 | only an add that saw the flag under the mutex leaves its item behind |
| BlockingAdds.AddAlone | util/queue.h:31-45 | an add nobody interferes with pushes its item, sleeps if there is no room, and returns without if the queue is stopped |
| BlockingAdds.TakeAlone | util/queue.h:48-63 | a dequeue nobody interferes with takes the first item, sleeps if there is none, and returns without if the queue is stopped |
| BlockingTheorems.StuckForAReason | util/queue.h:31-62 | if no thread can go on, those that sleep do so because the queue is empty or full, and not stopped |
| BlockingTheorems.StopIsFinal | util/queue.h:94-101 | after a stop nothing is accepted or taken and nobody goes to sleep |
| BlockingTheorems.StopReleases | util/queue.h:94-101 | after a stop and without new calls at most five moves per thread change anything, and when no thread can go on every call has returned |
| ThreadPool.HappenKeeps | util/threadpool.cpp:31-73 | every event in the pool keeps its invariant |
| ThreadPool.TasksInOrder | util/threadpool.cpp:61-73 | worker i has run, in order and once each, the first of the tasks accepted on queue i; at most one taken task is not yet run, none once it has left its loop; the queue keeps its bound |
| PoolTasks.AcceptedAreSubmitted | util/threadpool.cpp:19-44 | the tasks accepted on queue i are, thread by thread and in call order, those given to add_task for queue i, but for those refused after the shutdown has reached the queue and the call that has not returned |
| PoolTasks.WorkersStay | util/threadpool.cpp:64-71 | no worker leaves its loop while the pool is running |
| PoolTasks.EverythingIsRun | util/threadpool.cpp:61-73 | unless a shutdown was begun, when no thread can go on every worker waits on an empty queue and has run every accepted task, and every task given to add_task was accepted |
| PoolProgress.TasksGetRun | util/threadpool.cpp:61-73 | without new tasks the threads can change anything only a bounded number of times, under every scheduler, and then every accepted task has been run |
| ThreadPool.OwnPop | util/queue.h:48-63 | a dequeue returns just the item it popped, which was the first in the queue, or none |
| ThreadPool.StoppedQueueIsFrozen | util/threadpool.cpp:50-53 | nothing is accepted on or taken from a stopped queue, whatever happens in the pool |
| ThreadPool.ShutdownCompletes | util/threadpool.cpp:50-59 | when no thread can go on, a shutdown that was begun has joined every worker |
| ThreadPool.ShutdownTerminates | util/threadpool.cpp:50-73 | once the running flag is cleared and no task is submitted, the events that change anything are bounded in number, and when no thread can go on every worker has been joined |

## Left out

- HandleReadMsg: requires that a body which passes the check can be read under its schema, because the
  readers do not stop at the end of the readable bytes; what they do with other bodies is not modelled.
- Stringify: requires that walking over the stored bytes does not run past their end, for the same reason;
  it does not if no string has a NUL in it.
- HandleTask: requires of its frame what `HandleReadMsg` requires.
- RunTask: the same.
- Run: requires it of every frame in the stream, if the schedule has workers take tasks; the read chain alone is
  modelled for every stream.
- HandOver: the waiting tasks of a connection take every frame. `add_task` (`net/server.cpp:121`) may block the
  strand while the worker's queue is full, and drops the task once the queue is stopped (`util/queue.h:35-41`).
- FrameResponse: the branch for a failing `makeup` is not modelled, because none of the `makeup` functions
  fails.
- Init: the initial state of `QueueBuffer` has fewer than 2^32 producers and slots together, so that the 32-bit
  ticket counter cannot wrap while every producer overshoots.
- Weak memory orders and freeing of log buffers: atomics are sequentially consistent, and a retired buffer is
  one no longer in the queue.
- The queues and the pool of threads are state machines over values, because a step of one thread falls
  between two steps of another; objects and their aliasing are modelled for `MsgBuffer`, `ObjectPool`,
  `Connection` and `NanoLogLine`, whose calls do not interleave (strand, lock, or one owner).
- The text of numbers, timestamps and thread ids in a log line: these are output pieces with their value.
- `FileWriter` and log file rolling: input and output.
- `MsgBuffer::append(const MsgBuffer&)` and `Queue::dequeue(std::list<T>&)`: not called.
- `Connection::async_write` and `handle_write`: several writes may be outstanding at once, so the code
  establishes no order of partial writes.
- The client's receive chain: every completed write starts another read.
- TasksGetRun: bounds the steps of workers and of threads inside `add_task`; a sleeper that wakes up for no reason
  and goes back to sleep may do so any number of times.
- ShutdownTerminates: bounds what happens after the running flag is cleared; before that a worker whose queue
  is already stopped goes round its loop as often as the scheduler lets it.
- What the workers do after decoding a message, and the audit request that is sent without magic and check value:
  `Makeup` gives the bytes of the latter.
- The vendored asio library, the database layer, timers, signals and statistics: library code, foreign calls
  or easy members.
