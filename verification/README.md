# libjyq: the client multiplexer, the 9P codec, chunked I/O and the small state cores

libjyq speaks 9P2000 (section 5 of the Plan 9 Programmer's Manual). This project models
its concurrent client, its codec and framing, its chunked file and directory I/O, the fid
allocator and the timer list, and proves what they keep. `dafny verify dfyconfig.toml`
checks everything.

## The parts

**The multiplexer, twice.** `MuxHeap` is the code of rpc.cc on the heap: the growing slot
table and the circular doubly linked wait queue, as classes. `MuxModel` is the same code as
a step relation over any number of threads: taking and releasing `_lk`, `_wlock` and
`_rlock`, sleeping, notifying, spurious wake-ups, sending, receiving, a server that answers in
any order, a server that answers wrongly, failed packs and failed receives, throws of sendmsg and
recvmsg, the death of a call's Rpc, through which the weak `muxer` pointer lapses, and `mountfd`'s
change of tag bounds. Both
use the one slot table of `TagTable` and the one queue of `WaitQueue`, and `MuxRefines` proves
that the heap code refines the step relation: where the heap mirrors a state, each operation
leaves it mirroring the state after the step, and throws exactly when the step does; and
`MuxRefines.Follow` drives the heap code along any run from a new client on. `MuxSafety` holds
the invariant, kept by every step of every interleaving; `MuxReplies` says who gets which reply,
with and without failed receives; `MuxWake` says when a wake-up is lost, what follows from it, and
that nothing deadlocks before; `MuxLive` says that every call returns. `MuxExamples` has runs that
show what failed packs, failed receives and throws lead to, and how a new call rescues a sleeper.
A call that leaves without a reply throws "unexpected eof" to its caller; here it is done with no
result. All counters start at zero, as `mountfd` needs them to.

**The codec.** `Wire` has the message kinds, their encoding and an independent parser;
`WireProofs` relates the two. `Layout` says in plain numbers which alternative a type number
selects and at which byte each field of each kind stands; encoding and parser are both measured
against it. `Message` is the cursor of Msg.h over a byte array, with each
`packUnpack` as a method that works in both directions: while packing, the buffer is what it
was before except for the encoding so far, and once the cursor has passed the end nothing is
modified. `RoundTrip` packs and unpacks on the real buffer. `Transport` and `Stream` put
frames on a byte stream under every schedule of short counts and interruptions, and say what
failures do to one.

**Chunked I/O.** `Directory` is the paging loop of the server. `FileIO` and `FileWrite` are
`_pread` and `_pwrite` against any server at all: each exchange is recorded, and what a server
may answer is a condition on the record. `Fid` is the open file with its 32-bit offset, and
the iounit clamp; `Mount` is the version exchange that settles the message size. `Listing` joins
both ends: the loop of `xls` against the paging server.

**State cores.** `FidPool` is `getFid`/`putfid`; `Timers` and `TimerList` are the timers, as
values and as a linked list with re-entering callbacks.

## What the code does not do

Each of these is stated with its exact condition, most also with an input:

- A call that fails to pack while it is the elected muxer leaves everyone asleep with no muxer, if
  anyone sleeps by the time its Rpc dies; whoever falls asleep between its release of `_lk` and that
  moment counts. A call out of which sendmsg or recvmsg throws stays queued and in its slot: sleepers
  are left without a muxer that can go on when it is the muxer, when it is elected later, and when a
  call falls asleep behind it (`MuxWake.StrandingExactly`).
- If every other call has ended or sleeps by then, no call goes on until a new one begins or one
  wakes spuriously (`MuxWake.NobodyWakes`, `MuxExamples.FailedPackStrandsSleeper`); after a failed
  pack a new call finds no muxer, takes over and can hand the sleeper its answer
  (`MuxExamples.NewCallWakesSleeper`). After a throw in the
  muxer nobody ever receives again, whatever begins or wakes (`MuxWake.NobodyReceivesAgain`,
  `MuxExamples.ThrownReceiveStrandsSleeper`).
- After a failed receive the muxer gives up its tag. Every message still goes to the call it answers
  if and only if none comes for a call that gave up before (`MuxReplies.MisdeliversExactly`), and no
  such message is left to come if and only if whoever gave up had lost its own answer
  (`MuxReplies.AbandonsExactly`). Otherwise the tag can be reused first, and its next owner returns
  the other call's reply (`MuxExamples.FailedReceiveMisdelivers`).
- A TWalk comes back whole only when all its names are empty: the loop that unpacks
  `std::string` names does not move past their bytes, against Msg.h:82-88 (`WireProofs.WalkBack`,
  `RoundTrip.PackThenUnpack`).
- Strings are cut to their length modulo 2^16 (`WireProofs.TruncExactly`), and `Stat::size` is the
  record's length modulo 2^16, so the paging loop stays inside its buffer for every read if and only
  if every packed record is shorter than 65536 bytes (`Directory.FitsExactly`).
- The documentation of pu64 and pstring says that nothing is modified when the cursor would
  pass the end; the low half or the length word is, when it alone fits, when packing and when
  unpacking a pu64 (`Message.Msg.PU64`, `Message.Msg.PString`).
- `nexttimer` looks at the latest deadline first. Where the clock does not go back and no callback
  sets a timer due after the next reading, it triggers the elapsed timers if and only if all timers
  have elapsed or none has (`Timers.FiresTheElapsedExactly`). With any clock and any callbacks, it
  leaves an elapsed timer waiting if and only if some round leaves a head that is not due at the next
  reading in front of one (`Timers.WaitsExactly`); a callback that sets its timer again does so
  (`Timers.RearmedBlocks`). Where timers are left, it returns the time until the next one if and only
  if the first and last deadlines left agree (`Timers.NextTimeExactly`); `Timers.ElapsedButWaiting`
  is a list for which neither promise is kept.
- `Fcall::packUnpack` throws for an empty message and for a type without storage, but it is reached
  through `Msg::packUnpack`, which is `noexcept` (Msg.h:185, 201): where the models of `pack` and
  `unpack` throw, the process ends (`Message.FcallBox.PackUnpack` has the exact condition).
- Data with a NUL goes out as the bytes up to it and then whatever was in the message buffer
  (`FileWrite.ChunkExactly`).
- The size of a request is a signed 32-bit minimum. The requests of a read stay within the iounit if
  and only if the lower 32 bits of its count are below 2^31 (`FileIO.WithinUnitExactly`), and full
  answers can complete it if and only if nothing is asked for, or the count is below 2^32 and the
  iounit is not 0 or the count at least 2^31 (`FileIO.CompletesExactly`); otherwise it goes on asking.
  A write can be completed if and only if the iounit is not 0 or there is nothing to write
  (`FileWrite.WriteCompletesExactly`).
- `CFid::read` cuts its result to an int: the result and the stored offset follow the data if and
  only if it is shorter than 2^31 and ends below 2^32 (`Fid.CFid.Read`). So a listing brings some
  entry again if and only if the packed directory has 2^32 bytes or more
  (`Listing.StartsAgainExactly`).
- `mountfd` checks its own request in place of the reply: whatever size and version the server answers
  with, the message size is 8192 (`Mount.MountFd`). All writes of an iounit then reach a server with
  buffers of the size it answered with if and only if the iounit leaves 24 bytes of that
  (`Mount.WritesReachServer`).
- A read that fails with an error other than EINTR makes `readn` read one byte more than asked, so
  `recvmsg` stops at the end of its frame if and only if none did (`Transport.Connection.ReadN`,
  `Transport.Connection.RecvMsg`).

## Model

| member | source | states |
|---|---|---|
| MuxSafety.StepKeeps | rpc.cc:17-200 | every step of any thread or of the server that does not throw keeps the whole invariant: table count, slots and calls matched one to one, queue, lock owners, muxer |
| MuxSafety.RunKeeps | rpc.cc:17-200 | so the invariant holds in every state of every interleaving |
| MuxSafety.OneReceiver | rpc.cc:159-190 | at most one call is in the receive loop at any time, and it is the muxer |
| MuxSafety.LiveTags | rpc.cc:46-107 | tags of live calls are distinct, below 256 from the mount on, exactly 0xFFFF before it, and survive the cut to 16 bits |
| MuxSafety.WaitsForTagExactly | rpc.cc:55-72 | in any run gettag waits if and only if all the slots there can be are taken, 256 of them, or one before the mount |
| MuxSafety.TableExact | rpc.cc:46-107 | _nwait counts the occupied slots, _freetag is an index, and the table is empty or a power of two of at most 256 slots |
| MuxSafety.QueueExact | rpc.cc:108-158 | a call is linked exactly while it is tagged and unanswered |
| MuxSafety.OnlyBadRepliesThrow | rpc.cc:89-107 | besides the throws of sendmsg and recvmsg, which are steps of their own, a step throws or follows a null link if and only if the server sent a stray reply or answered a call whose pack failed: the throws of gettag and puttag and the muxer check are unreachable |
| MuxSafety.ThrowsExactly | rpc.cc:128-144 | the same for one step from any state that satisfies the invariant |
| MuxReplies.StepReplies | rpc.cc:108-200 | against a server that answers only what it was asked, every step that does not hand a message to a call that gave up keeps the replies right: each message in flight is known, once, owed to its own call or lost, and nothing throws |
| MuxReplies.RightExactly | rpc.cc:128-144 | a dispatched message goes to the call whose request it answers if and only if that call has not given up |
| MuxReplies.GoneExactly | rpc.cc:181-198 | in any run a call has given up if and only if it passed the buck before |
| MuxReplies.LostExactly | rpc.cc:22-27 | a message is lost if and only if a failed receive consumed it |
| MuxReplies.MisdeliversExactly | rpc.cc:128-198 | over any run against such a server, with any failed receives: every message goes to the call it answers, without a throw, if and only if none comes for a call that gave up before |
| MuxReplies.AbandonsExactly | rpc.cc:181-198 | nothing still to come is for a call that gave up, in any state of the run, if and only if whoever gave up had lost its own answer; and then every message goes right |
| MuxReplies.OwedOnward | rpc.cc:181-198 | from any state where all that is to come is owed, no continuation misdelivers until a call gives up before its own answer |
| MuxReplies.ReturnsOwnOrNothing | rpc.cc:159-200 | in a run without such a message muxrpc returns the answer to its own request, or nothing if it gave up |
| MuxReplies.ReturnsOwnReply | rpc.cc:159-200 | every muxrpc that returns, returns the answer to its own request under the tag it sent |
| MuxReplies.HandedToExactlyOne | rpc.cc:128-144 | received messages are handed over once each, in order of arrival, each to the one call whose request it answers; nothing throws |
| MuxReplies.NoReplyLost | rpc.cc:128-144 | the answer to a waiting call is owed by the server or in flight, not both, and once |
| MuxWake.NoLostWakeup | rpc.cc:33-45 | until somebody is stranded, a call asleep in muxrpc is queued and unanswered, and another live call, not unwound by a throw, is the muxer, awake and bound for the receive loop, unless its pack has failed |
| MuxWake.StrandingExactly | rpc.cc:116-180 | a step loses a wake-up if and only if somebody sleeps by then and the muxer's Rpc dies after a failed pack, or the muxer is unwound by a throw of sendmsg or recvmsg, or a call is elected that was; or a call goes to sleep behind such a muxer |
| MuxWake.NobodyWakes | rpc.cc:159-171 | once every call has ended, was unwound or sleeps, no call goes on, whatever the server does, until a new call begins or one wakes spuriously |
| MuxWake.NobodyReceivesAgain | rpc.cc:168-190 | once the muxer is unwound by a throw nothing is received or handed over any more, in any continuation: no call gets a reply it did not have |
| MuxWake.NoLostTagWakeup | rpc.cc:55-72 | while a call sleeps for a tag, there are no more free slots than notified calls that have not run yet, in every run |
| MuxWake.NoDeadlock | rpc.cc:46-200 | while nobody is stranded, as long as a call is unfinished some thread can step, or the server owes an answer; but for calls unwound by a throw, and calls that wait for a tag while unwound calls have them all |
| MuxLive.StepSpends | rpc.cc:46-200 | every step of a thread or answer of the server uses up part of a finite budget; new calls, spurious wake-ups, rogue messages, failed receives and mounting are not counted |
| MuxLive.EveryCallReturns | rpc.cc:159-200 | so every way of going on in which nobody is stranded, failed packs and throws included, stops after a bounded number of steps, and then every call has returned its own reply, failed to pack, was unwound by a throw, or waits for a tag while unwound calls have them all |
| MuxExamples.FailedPackStrandsSleeper | rpc.cc:116-171 | a run without a throw that ends with a sleeper the server owes an answer, no muxer alive and no thread able to go on: by NobodyWakes nobody wakes it until a new call begins or it wakes spuriously |
| MuxExamples.NewCallWakesSleeper | rpc.cc:170-190 | from there a new call takes over and hands the sleeper its answer, without any spurious wake-up |
| MuxExamples.ThrownReceiveStrandsSleeper | transport.cc:49-51 | a run in which recvmsg throws in the muxer while another call sleeps: by NobodyReceivesAgain that call never gets its answer |
| MuxExamples.FailedReceiveMisdelivers | rpc.cc:181-198 | a run against a server that only answers what it was asked, in which a call returns another call's answer after a failed receive |
| TagTable.FullIffCounted | rpc.cc:54-56 | no slot is free if and only if the count equals the length |
| TagTable.ScanFindsSlot | rpc.cc:74-89 | the scan from _freetag and around finds a free slot whenever the count is below the length |
| TagTable.ScanFirst | rpc.cc:74-89 | and that slot is the first free one from _freetag on and around the end |
| TagTable.GrowKeepsValid | rpc.cc:57-72 | doubling keeps every slot and the table valid, and the next slot taken is the first new one |
| TagTable.TakeKeepsValid | rpc.cc:49-53 | taking a free slot changes that slot only and keeps the table valid |
| TagTable.ReleaseKeepsValid | rpc.cc:94-107 | releasing a taken slot changes that slot only, keeps the table valid, and the slot is the next one taken |
| TagTable.TableBounded | rpc.cc:57-69 | the table never outgrows the next power of two after the span of tags |
| MuxHeap.Client.MakeRoom | rpc.cc:57-72 | the loop test of gettag: it fails exactly when the table is full and cannot grow, and otherwise leaves a free slot |
| MuxHeap.Client.TakeSlot | rpc.cc:74-90 | the scan of gettag: it takes the slot the scan finds and sets the tag |
| MuxHeap.Client.GetTag | rpc.cc:46-92 | one pass of gettag waits exactly when the table is full and cannot grow; otherwise it takes the slot the scan finds and sets the tag |
| MuxHeap.Client.TestMux | rpc.cc:170-180 | sleeps exactly while another live call is the muxer and there is no reply, leaves with a reply, and otherwise is the muxer; the muxer check never fails |
| MuxHeap.Client.Mount | client.cc:306-307 | the bounds after the version reply keep every invariant of the table |
| MuxHeap.Client.PutTag | rpc.cc:94-107 | releases exactly the caller's own slot and notifies once, or throws and changes nothing |
| MuxHeap.Client.Enqueue | rpc.cc:145-151 | four pointer writes prepend to the queue and keep the ring |
| MuxHeap.Client.Dequeue | rpc.cc:153-158 | unlinking removes the call from the queue, clears its links and keeps the ring |
| MuxHeap.Client.LinkedMeansQueued | types.h:191-228 | a call's links are set if and only if it is queued |
| MuxHeap.Client.ElectMuxer | rpc.cc:33-45 | the first queued call that is not asynchronous becomes the muxer and alone is notified; none if there is none |
| MuxHeap.ElectsNewest | rpc.cc:33-45 | as nothing sets the asynchronous flag, the call elected is the newest one queued |
| MuxHeap.ElectsFirst | rpc.cc:33-45 | in general it is the call that has only asynchronous ones in front of it |
| MuxHeap.Client.Dispatch | rpc.cc:128-144 | hands the message to the queued owner of the tag, removes it from the queue and notifies it alone, or throws and changes nothing |
| MuxHeap.Client.constructor | client.cc:577-580 | an empty table and a ring of the sentinel alone |
| MuxRefines.Start | client.cc:577-580 | a new client mirrors the initial state of the step relation |
| MuxRefines.Begin | rpc.cc:159-163 | a new call on the heap is the step that begins one |
| MuxRefines.TestTags | rpc.cc:57-72 | the loop test of gettag on the heap is the test step, asleep on _tagrend exactly when it is |
| MuxRefines.TakeTag | rpc.cc:74-90 | the scan of gettag on the heap is the scan step, with the same tag |
| MuxRefines.PutTag | rpc.cc:94-107 | puttag on the heap is the step's, after a failed pack or on the way out, whichever sleeper is woken, and throws exactly when it does |
| MuxRefines.Enqueue | rpc.cc:145-151 | the four pointer writes are the enqueue step |
| MuxRefines.Dequeue | rpc.cc:153-158 | the pointer writes of dequeue are the dequeue step after a failed pack or receive, and follow a null link exactly when it does |
| MuxRefines.Lapse | rpc.cc:162-166 | the death of a call's Rpc is the lapse step |
| MuxRefines.TestMux | rpc.cc:170-180 | the test and take of the muxer role on the heap is the test step, with the same outcome |
| MuxRefines.Mount | client.cc:306-307 | the change of the tag bounds is the mount step |
| MuxRefines.Elect | rpc.cc:33-45 | the walk along the ring is the election step |
| MuxRefines.Dispatch | rpc.cc:128-144 | dispatchandqlock on the heap is the dispatch step, and throws exactly when it does |
| MuxRefines.Step | rpc.cc:17-200 | every step of the relation from a mirrored state is an operation of the heap code, which throws exactly when the step does |
| MuxRefines.Follow | rpc.cc:17-200 | the heap code follows any run from a new client on: it throws if and only if the run does, and otherwise ends mirroring the last state with a node for every call |
| MuxRefines.ScanNamed | rpc.cc:74-88 | the slot the scan finds does not depend on what the slots point to |
| WaitQueue.WithoutMembers | rpc.cc:153-158 | removal takes out that call and no other |
| WaitQueue.WithoutAt | rpc.cc:153-158 | and leaves the others in their order |
| Message.Msg.PUint | Msg.h:242-305 | little-endian bytes in both directions; past the end only the cursor moves |
| Message.Msg.PU64 | convert.cc:53-59 | two halves in both directions; the low one alone is written, or read, when only it fits |
| Message.Msg.PString | convert.cc:102-119 | a 16-bit length and that many bytes, in both directions; exactly what a partial overrun writes |
| Message.Msg.PData | convert.cc:135-145 | room of the announced size, filled up to the string's length, old bytes behind it |
| Message.Msg.PQids | Msg.h:161-172 | count and qids; a count above 16 puts the cursor past the end |
| Message.Msg.PStrings | Msg.h:138-160 | the names of a walk, which unpacking does not skip |
| Message.Msg.PQid | convert.cc:182-185 | 13 bytes in both directions |
| Message.Msg.PStat | convert.cc:187-205 | a stat record in both directions; its inner length is ignored when unpacking |
| Message.Msg.PIO | message.cc:167-179 | fid and offset for TRead and TWrite only, the payload for RRead and TWrite only |
| Message.Msg.PAttach | message.cc:111-120 | the fid for TAttach only |
| Message.Msg.POpen | message.cc:127-133 | the iounit for all but RAttach |
| Message.Msg.PCreate | message.cc:157-166 | name and permissions for TCreate only |
| Message.Msg.PWalk | message.cc:135-141 | a walk in both directions, names as Msg.h has them |
| Message.Msg.PWStat | message.cc:189-196 | an outer size of any value, which unpacking ignores |
| Message.Msg.PBody | message.cc:90-196 | every kind: packing appends its encoding, unpacking is the parse of the buffer |
| Message.Msg.PackMessage | message.cc:313-333 | 0 if and only if the message is longer than the buffer or has more than 16 names or qids; otherwise the exact length, with the length word and every field in its place and every byte behind as it was |
| Message.Msg.UnpackMessage | message.cc:300-311 | for an empty Fcall and a text with a byte 4, a throw if and only if that is no known type number, where the code ends the process, and else the alternative of that number; the length if and only if a message of that kind stands whole in the text, with every field from its place, and else 0; 7 for an RClunk and 11 for a TClunk, TRemove or TStat of that length |
| Message.FcallBox.PackUnpack | message.cc:266-284 | an empty Fcall throws when packing; when unpacking it takes the alternative of the type number it peeks at, and throws if and only if that is none of 100 to 108, 110 to 122 and 124 to 126 |
| Message.FcallBox.PeekAndConstruct | message.cc:270-279 | the peek puts the cursor back, modifies nothing, and leaves the alternative of the type number seen |
| Wire.Blank | message.cc:199-256 | which alternative each type number selects, in numbers, and which have none |
| Layout.ParsesExactly | message.cc:90-196 | for any text and kind: it parses if and only if a message of that kind stands in it whole, each field at its byte, and then to such a message and to its end |
| Layout.PackedLaid | message.cc:90-196 | a packed message, of any kind, has its length in front, each field at its byte, the names of a walk one behind the other, and its end where its last field ends |
| Layout.PackedLength | message.cc:313-333 | so its length is known without packing it |
| WireProofs.ParsesBack | message.cc:90-196 | every kind but TWalk: what was packed parses, in the alternative its type selects, to what was sent with strings cut to 16-bit lengths, and ends where the packing ended |
| WireProofs.WiredExactly | message.cc:90-196 | and that is the message itself, in every field its kind carries, if and only if strings fit 16 bits and payloads have the announced size |
| WireProofs.WalkBack | Msg.h:138-160 | a TWalk's parse ends where its packing ended if and only if every name packs to nothing |
| WireProofs.TruncExactly | convert.cc:102-119 | a string survives if and only if it is shorter than 65536 bytes |
| WireProofs.QidsBack | Msg.h:161-172 | any list of qids parses back |
| WireProofs.StatBack | convert.cc:187-205 | a packed stat parses back to itself with its strings cut |
| WireProofs.StatExact | message.cc:77-89 | a packed stat is Stat::size() bytes with an inner length two less, whenever that fits 16 bits |
| RoundTrip.PackThenUnpack | message.cc:300-333 | on the real buffer, for every kind: unpack returns pack's length, and kind, tag and every carried field come back if and only if the message is one that survives |
| Transport.Connection.MRead | transport.cc:57-73 | one read into what is left of the buffer: what came, an interruption or an error, or a throw exactly when no room is left |
| Transport.Connection.ReadN | transport.cc:41-55 | the bytes in order under any short counts, interruptions and errors: count of them and one more for each read that failed, no more and no less; it throws if and only if the buffer or the stream is too short for them |
| Transport.Connection.SendMsg | transport.cc:75-89 | the whole message goes out once and in order under any short writes and interruptions; at the first write that fails, and only then, a throw after a prefix of it |
| Transport.Connection.RecvMsg | transport.cc:91-116 | it returns the frame in front of the stream and stops at its end if and only if the length word is at least 4, less than the buffer size and covered by the stream; with failed reads it stops as many bytes behind its end, if buffer and stream have them |
| Stream.ReceivesFrame | transport.cc:91-116 | a stream that starts with a frame gives that frame and leaves the rest |
| Stream.Converse | transport.cc:41-116 | any sequence of messages that survive, a TWalk without names included, packed and sent is received and unpacked as the same sequence, with nothing left over, under every schedule of short counts and interruptions on both sides |
| Directory.ReadDir | srv_util.cc:450-482 | where every record is counted, the buffer holds whole entries in order, from the first that starts at or behind the offset, within the room, and as many as fit: the next one does not |
| Directory.PageIsFull | srv_util.cc:467-477 | the same of the page that stands for any such request |
| Directory.FitsExactly | srv_util.cc:467-477 | no read at any offset with any room overruns the buffer if and only if every packed record is shorter than 65536 bytes |
| Directory.SizeOfRecord | message.cc:77-89 | Stat::size is the packed length modulo 2^16 |
| FileIO.PRead | client.cc:91-117 | asks for adjoining ranges, each of what is missing cut by the iounit as the signed minimum does, returns what came joined together, and fails exactly on a missing or too long answer |
| FileIO.AskNoMoreExactly | client.cc:97 | a request never asks for more than what is missing if and only if the iounit is below 2^31 |
| FileIO.WithinUnitExactly | client.cc:91-117 | all requests of a read stay within the iounit if and only if the lower 32 bits of the count are below 2^31 |
| FileIO.CompletesExactly | client.cc:95-115 | some record of full answers completes the read if and only if the count is 0, or below 2^32 with an iounit above 0 or a count from 2^31 on; otherwise bytes are missing after any number of full answers |
| FileIO.PReadFaithful | client.cc:91-117 | against any server that answers with a beginning of each range, what is gathered is a beginning of the file's range |
| FileIO.PReadRefines | client.cc:91-117 | against a server that answers in full, it is the one plain read: the file's bytes from the offset, up to the count |
| FileIO.ShortOnlyIfCut | client.cc:91-117 | a read is short if and only if the last answer was |
| FileWrite.PWrite | client.cc:119-144 | each chunk goes to the offset after what was accepted so far, at least one request is sent, and the result is what was accepted |
| FileWrite.WriteCompletesExactly | client.cc:124-143 | some record of full acceptances completes the write if and only if the iounit is not 0 or there is nothing to write; with an iounit of 0 no byte ever goes out |
| FileWrite.ChunkExactly | client.cc:126-130 | what goes out is the chunk, whatever lay in the buffer, if and only if the chunk has no NUL |
| FileWrite.PWriteExact | client.cc:119-144 | against any server that stores a beginning of each chunk, writing NUL-free data leaves exactly the first returned-length bytes at the offset, in one piece |
| FileWrite.WritesOnly | client.cc:119-144 | whatever a write reports, a byte of the stored file outside the accepted range stays as it was |
| FileWrite.WriteThenRead | client.cc:91-144 | reading that range back, in chunks of any size, returns the data |
| Fid.CFid.Open | client.cc:392-401 | an opened file starts at offset 0; its requests stay below the message size if and only if that is at least 24; the server's iounit is kept when it leaves that room, otherwise the largest request fills the message to one byte short; and the iounit is one read and write accept |
| Fid.CFid.Read | client.cc:510-518 | reads at the stored offset; the result is the number of bytes if and only if that is below 2^31, and the offset follows the data if and only if it also stays below 2^32 |
| Fid.CFid.Write | client.cc:550-558 | writes at the stored offset and moves it by what was accepted |
| Fid.SuccessiveReads | client.cc:510-518 | however many reads of whatever sizes, what they return joins to one contiguous range |
| Fid.XRead | jyqc.cc:198-216 | each request is for one iounit at the offset after what came before; it ends at the first that is refused or brings nothing, at least one is made, it succeeds if and only if the last was not refused, and it puts out what the others brought |
| Fid.XReadFaithful | jyqc.cc:198-216 | so it puts out a beginning of a file below 2^32 bytes, and ends without a failure or a stall only with the whole of such a file |
| Fid.XReadWhole | jyqc.cc:198-216 | and against a server that answers in full it succeeds with the whole file |
| Fid.FrameOfIO | message.cc:167-179 | 23 bytes around the payload of a TWrite, 11 around that of an RRead |
| Fid.ReserveEnough | client.cc:396-400 | a write or a read's answer of at most the clamped iounit is at most msize-1 bytes long and passes recvmsg's length test |
| Fid.ReserveExactly | client.cc:420-424 | the clamp keeps every write below the message size if and only if the message size is at least 24 |
| Directory.PageFrom | srv_util.cc:467-477 | the page at the offset where an entry starts is that entry and those after it, whole and in order, up to the first that does not fit any more |
| Listing.ParseStats | jyqc.cc:242-247 | a buffer of whole records parses to exactly those records |
| Listing.ReachesAll | srv_util.cc:472-474 | the listing reaches the end if and only if every entry fits a page |
| Listing.List | jyqc.cc:238-248 | end to end: every entry before the first larger than a page exactly once, in order and whole, its strings as pstring carries them, and then a reply of no bytes; all entries if and only if each fits; each request at the offset where the one before stopped |
| Listing.StartsAgainExactly | client.cc:510-518 | where every entry fits a page, the reads of the loop bring some entry again if and only if the packed directory has 2^32 bytes or more |
| Mount.MountFd | client.cc:282-322 | mounting succeeds if and only if both replies have the right type, and the message size is then 8192 whatever the reply to TVersion says |
| Mount.WritesReachServer | client.cc:291-310 | an opened file's iounit is then from 1 to 8168, and a server with buffers of the size it replied takes every write of at most that if and only if 24 bytes are left |
| FidPool.TakeKeeps | client.cc:24-37 | getFid hands out a fid in nobody's hands that is not the root's, and keeps the partition, if and only if one is left |
| FidPool.GiveKeeps | client.cc:39-47 | putfid keeps the partition, also when the last fid comes back |
| FidPool.RunKeepsPartition | client.cc:24-47 | over any run free and handed-out fids are disjoint, without repetition, and together exactly 2 up to _lastfid |
| FidPool.NeverSharedNorRoot | client.cc:24-47 | so no two live handles share a fid and the root's, 1, is never given out again |
| FidPool.GivenIsNext | client.cc:24-47 | a fid given back is the next one handed out, and the allocator then as it was, if and only if it was not the last one numbered or no other is free |
| FidPool.Allocator.GetFid | client.cc:24-37 | the front of the free list, or a new fid one above the last |
| FidPool.Allocator.PutFid | client.cc:39-47 | forgets the last fid, puts any other in front of the free list |
| TimerList.Server.Relink | timer.cc:64-71 | a store through the pointer to a pointer changes that one of the list's pointers and no other |
| TimerList.Server.SetTimer | timer.cc:46-72 | a timer with a new id, due at the time of the call plus the timeout where that fits 64 bits, stands before the first timer due strictly earlier; the others stay in order |
| TimerList.Server.UnsetTimer | timer.cc:88-103 | exactly the timer with that id leaves the list, the others stay in order, and it says whether there was one |
| TimerList.Server.NextTimer | timer.cc:118-141 | pops and calls timers from the head while it is due, with callbacks that set and void timers |
| Timers.RunConserves | timer.cc:46-141 | over any run every id is in exactly one place once, pending, fired or removed; none fired early; those waiting are due when asked for; the list is latest first |
| Timers.NeverBeforeTimeout | timer.cc:46-141 | in any run no timer, set by a callback or not, is called at a reading before the time it was set at plus its timeout |
| Timers.SetThenCalled | timer.cc:46-141 | the same, spelled out for a settimer between two calls |
| Timers.RemovedForGood | timer.cc:88-141 | a timer once removed is not called and not in the list in any continuation |
| Timers.UnsetForGood | timer.cc:88-141 | after an unsettimer that found its timer, that timer is never called |
| Timers.NextKeeps | timer.cc:118-141 | the same for one nexttimer with any clock and any callbacks |
| Timers.SetKeeps | timer.cc:46-72 | one timer more, with the new id and the time asked for, the others as they were; order and account are kept |
| Timers.UnsetKeeps | timer.cc:88-103 | the timer with the id, and it alone, goes from the list to the removed; order and account are kept |
| Timers.AllOrNone | timer.cc:118-141 | with quiet callbacks nexttimer fires all timers in list order or none |
| Timers.FiresTheElapsedExactly | timer.cc:105-141 | where the clock does not go back and callbacks set nothing due after the next reading, no elapsed timer is left, as documented, if and only if all had elapsed or none had |
| Timers.WaitsExactly | timer.cc:118-141 | with any clock and any callbacks an elapsed timer is left if and only if after some round the head is not due at the next reading and an elapsed timer stands behind it |
| Timers.RearmedBlocks | timer.cc:118-141 | a callback that sets its timer again leaves the other waiting though both had elapsed |
| Timers.NextTimeExactly | timer.cc:105-141 | with any clock and any callbacks, where timers are left the result is the time until the first of them, and that until the next one, as documented, if and only if the first and last deadlines left are the same |
| Timers.ElapsedButWaiting | timer.cc:105-117 | two timers for which neither holds |

## Left out

- WireProofs.WalkBack: covers the fields of a TWalk and where its parse ends; names are claimed only where the code brings them back.
- WireProofs.ParsesBack: excludes TWalk, which WalkBack covers.
- MuxSafety.StepKeeps: a throw under `_lk` ends the run; locks released by that unwinding are not followed further. After a throw of sendmsg what it had put on the stream is not followed, and after one of recvmsg neither is what it had taken off.
- MuxWake.NoLostWakeup: covers runs up to the first stranding; StrandingExactly says what that is, NobodyWakes and NobodyReceivesAgain what follows.
- MuxReplies.ReturnsOwnReply: covers servers that answer each sent tag at most once, and no failed receive; ReturnsOwnOrNothing covers failed receives up to the first late answer.
- MuxHeap.Client.constructor: the counters the C++ constructors leave unset are taken as zero; the constructor from an int never links the sentinel and is not modelled.
- MuxRefines.Follow: which thread goes next and what a message carries besides its tag are its inputs; locks, sends and receives are in the step relation only.
- Message.Msg.UnpackMessage: reports as a throw what ends the process in the code, where Msg::packUnpack is noexcept (Msg.h:185, 201). An empty Fcall takes an arbitrary type from a text too short to have one.
- Message.Msg.PackMessage: likewise for an empty message.
- MuxHeap.Client.ElectMuxer: in the step relation no call is asynchronous, since nothing sets that flag.
- Transport.Connection.SendMsg: a write that returns 0 counts as a failure.
- FileIO.PRead: requires an iounit below 2^31, without which a request can ask for more than the buffer has room for (AskNoMoreExactly), and a count that can be completed (CompletesExactly), without which it goes on asking. A negative count, which returns 0 at once, is not modelled.
- FileWrite.PWrite: counts are below 2^31, as the running total is an int; the total is unbounded here and can pass 2^31 only if a server claims to have accepted more than it was sent. The iounit is below 2^31 and is not 0 unless there is nothing to write (WriteCompletesExactly). A NUL is taken to stand behind the caller's buffer.
- Fid.CFid.Read: requires what FileIO.PRead requires of its iounit and count; for files opened through a mounted client the iounit always does (Mount.WritesReachServer).
- Fid.CFid.Write: likewise as FileWrite.PWrite.
- Fid.XRead: against a finite list of answers, after which the server is gone; the iounit is from 1 up to 2^31 - 1, as for every file opened through a mounted client (Mount.WritesReachServer).
- Listing.List: the directory does not change while it is listed, and its packed size is below 2^32; StartsAgainExactly says what happens from there on.
- Directory.ReadDir: the reply is the buffer up to the cursor; handing it over through a C string is not modelled. Looking up and freeing the server's file ids is left out.
- Timers.RunConserves: ids are unbounded; the locker is released around a callback and callbacks run to their end before the loop goes on.
- FidPool.TakeKeeps: after all 2^32-2 fids are out the counter wraps to 0, which is outside the partition.
- Mount.MountFd: the sockets, the buffers it allocates and what it returns besides the message size; the change of tag bounds is in MuxModel and MuxHeap.
- Qid: the directory type is not on the wire and not modelled.
- The char* forms of pstring, pdata and pstrings differ from the std::string forms in ownership only, or, for pstrings, are sound; they would repeat the std::string results.
- The server request engine (Req9::handle, Req9::respond), Conn::cleanup, srv_walkandclone and Pending.
- Error replies turned into exceptions by dofcall, and what callers do after an exception.
- Walking, clunking, removing and stat on the client beyond the messages they send.
- Sockets, dialing, the select loop, namespace directories, environment variables, option parsing and printing.
