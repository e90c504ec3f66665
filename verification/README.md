# A verified model of Sector/Sphere

Sector is a distributed file system, Sphere a compute engine on top of it, and UDT the transport under
both. This project models eight parts of them in Dafny and proves what those parts promise: the UDT
buffers, the data channel that many sessions share, the Sphere scheduler, the Sphere shuffle, the
metadata tree of a master, GMP messaging, the cluster hierarchy of a master, and two small algorithms
(the UDT rate controller and the wildcard matcher for file names).

The pattern is the same throughout. A *specification* on values says what each operation does to an
abstract state, and lemmas prove what that means over every input or every run. *Classes and methods*
in the form of the C++ code (rings, linked blocks, growing buffers, queues, maps and the loops over
them) are proved to do what the specification says. Network, clock, random numbers and the answers of
other machines are parameters or arbitrary events.

| files | part |
|---|---|
| `Packets`, `ReceiveSpec`, `ReceiveBuffer`, `ReceiveRuns`, `ReceiveComplete`, `ReceiveAnswers`, `ReceiveLimits`, `StreamRuns` | receiving buffer: a ring with an ack point, holes, a notch and messages read past the ack point |
| `SendSpec`, `SendBuffer`, `EndToEnd` | sending buffer: a growing cycle of blocks; and both buffers together |
| `DataChannel`, `ChannelReturns` | threads that receive frames of different sessions from one stream |
| `SchedulerSpec`, `SchedulerRuns`, `Scheduler`, `Segments` | Sphere jobs: segments, engines, retries, results |
| `Shuffle`, `ShuffleDelivery`, `ShuffleReceive` | buckets, their delivery, and the receiving loop of a shuffler |
| `ShuffleSpec`, `ShuffleRuns`; `ShuffleWire`, `ShuffleWireRuns`, `ShuffleWireSafe`, `ShuffleWireMixed` | whole jobs: first with a delivery as one step, then frame by frame |
| `Metadata`, `NodeText`, `TreeText`, `TreeRoundTrip` | merging and subtracting trees; their text form |
| `PeerHistory`, `GmpSpec`, `GmpRuns`, `GmpRetry`, `Gmp` | reliable messages and the suppression of repeated ones |
| `Topology`, `ClusterTree`, `ClusterStats`, `Clusters` | clusters, their members and their totals |
| `RateControl` | the congestion controller, over exact real numbers |
| `WildCard` | matching file names |
| `Options`, `Seqs`, `Sets`, `Sums` | optional values; facts about sequences, finite sets and sums over them |

`dafny verify dfyconfig.toml` checks everything.

## Results that differ from what the code or its comments suggest

- A comment in the message scan says that a message filling the whole ring is handed out in part. The scan
  does report it, exactly when one message fills every slot but the one that stays free
  (`ReceiveBuffer.RcvBuffer.ScanMsg`), but its end is the slot before its start, so the copying loop copies
  nothing (`ReceiveBuffer.RcvBuffer.Deliver`): a run that fills the ring is `ReceiveLimits.FullRing`. In no run
  a message of as many packets as the ring has slots is delivered (`ReceiveLimits.NoneTooLong`).
- A single packet exactly at the ack point of an otherwise empty receiving buffer is not looked at by the scan,
  even if its message may be read early: a run in which a reader gets nothing, and the message only after the
  next ack (`ReceiveLimits.QuietReader`). That is the only case of the kind (`ReceiveLimits.MissedIff`).
- Without the second search of the queue under the receive lock, a session's frames can overtake each
  other: a run of two threads that ends so (`DataChannel.SecondSearchNeeded`).
- A session's frames reach its callers in the order of sending if and only if no two threads call for one
  session (`ChannelReturns.OrderIff`): a second thread can take the next frame from the queue and return before
  the first one has released the lock.
- When a job has no engine left, read answers with an error even after every result was read; the 0 for "all
  read" is given only while an engine is left (`Scheduler.DCClient.Read`).
- The segments that a job is cut into are at most the largest unit on average, except when the share of an
  engine is that unit and a rest (`Segments.AverageFitsIff`).
- A bucket crosses the network in three frames, and engines of one job at the same slave address share that
  address's channel to a shuffler, whose own session all of them use. Their frames can mix, and then the
  data file of a bucket holds bytes that nobody emitted. The data files hold whole records at every moment of
  every run if and only if no two engines of the job are at one slave address (`ShuffleWireMixed.RecordsKeptIff`);
  one engine per node, the default, is enough.
- An unfinished job with engines left can have no move at all: when no engine runs and each idle one only
  sees unstarted segments that are elsewhere and may not move (`SchedulerRuns.CanGoOn`,
  `SchedulerRuns.FarJobStuck`). The round then gives the job up, but not only then: it looks at the engines in
  order, and does not go back to an idle one when a later engine is lost and its segment returns. A run of two
  engines and two segments ends in a round that fails a job which could go on at once
  (`Scheduler.GivenUpTooEarly`). A round that gives up is right if and only if, before it, no idle engine could
  have had an unstarted segment or one that a running engine holds for at most the third time
  (`Scheduler.GivenUpIff`).
- A slave that is inserted again while it is still listed is counted twice: the node counts stay exact if and
  only if it was not listed (`Clusters.SlaveManager.Insert`).
- Cutting a job into segments never ends if a file with records has no name or no size
  (`Segments.SegmentData`).
- A message number of 2^29 or more runs into the order and boundary bits (`SendSpec.FieldOverflows`).
- A joining and a lost slave cancel out if and only if the file table did not know the slave and every
  file was held by somebody (`Metadata.JoinAndLoss`).
- A GMP message can be queued twice when a copy comes ten seconds or more after the first
  (`GmpRuns.LateCopyQueuedTwice`).
- A comment in the rate controller says that the rate is at most halved in one congestion epoch. Because
  of rounding up, that is true for every random number exactly if five raises do not more than double the
  period (`RateControl.HalvedIff`): always from 33 on, and for whole periods exactly from 12 on
  (`RateControl.HalvedWhole`).
- In the wildcard matcher a last `*` stands for one character at least, and nothing matches a card that
  ends in two or more `*` (`WildCard.Match`): `a` does not match `a*`. A card means what it usually means if
  and only if its last character is not a `*` (`WildCard.CompleteIff`, `WildCard.FailingNames`).

## Model

| member | source | states |
|---|---|---|
| Packets.MessagesDoNotOverlap | udt/buffer.cpp:542-599 | under the framing 11 or 10 00* 01, two messages of a stream that share a packet are the same message |
| ReceiveSpec.DropValid | udt/buffer.cpp:494-533 | giving back cells before the ack point keeps the ring invariant and the framing of neighbouring packets |
| ReceiveSpec.AddValid | udt/buffer.cpp:373-388 | a packet anywhere within the free space keeps the ring invariant: one cell stays free and nothing lies beyond the furthest packet |
| ReceiveSpec.AckValid | udt/buffer.cpp:463-471 | moving the ack point within the free space keeps the ring invariant |
| ReceiveSpec.StartIsUnique | udt/buffer.cpp:600-638 | two live messages of the window that end in the same cell start in the same cell |
| ReceiveSpec.ReadMsgDeterministic | udt/buffer.cpp:494-533 | the declarative description of readMsg fixes the message, the bytes and the new buffer |
| ReceiveSpec.AckedMessageIsFirst | udt/buffer.cpp:549-599 | once bad cells are skipped, a deliverable message before the ack point is at the very front of the buffer |
| ReceiveSpec.TrackStep | udt/buffer.cpp:612-627 | the start that the scan remembers is the start of the only live message that can end in the cell it looks at |
| ReceiveSpec.ScanStep | udt/buffer.cpp:610-638 | a scan that stops has the deliverable message that ends first; one that goes on has passed none |
| ReceiveSpec.ScanEnd | udt/buffer.cpp:610-648 | a scan up to the furthest packet that found nothing has missed no deliverable message in the whole ring |
| ReceiveSpec.ReadBytesValid | udt/buffer.cpp:390-425 | reading bytes keeps the ring invariant, and every cell before the ack point still holds a packet |
| ReceiveBuffer.RcvBuffer.AddData | udt/buffer.cpp:373-388 | the ring, seen from its start, becomes the specified window; 0 exactly when the slot was free; a used slot keeps its packet; the unit count follows the occupied slots |
| ReceiveBuffer.RcvBuffer.AckData | udt/buffer.cpp:463-471 | the ack point of the window moves by len, across the wrap-around as well |
| ReceiveBuffer.RcvBuffer.ReadBuffer | udt/buffer.cpp:390-425 | the bytes returned are the first len bytes of what lies before the ack point, and exactly the others remain; freed slots are counted back |
| ReceiveBuffer.RcvBuffer.LookAhead | udt/buffer.cpp:565-585 | true exactly if live packets run from the start to the end of a message or to the ack point |
| ReceiveBuffer.RcvBuffer.SkipBad | udt/buffer.cpp:549-599 | gives back exactly the cells before the first message that is still intact |
| ReceiveBuffer.RcvBuffer.Walk | udt/buffer.cpp:600-638 | finds the deliverable message that ends first, or has looked at all cells up to the furthest packet |
| ReceiveBuffer.RcvBuffer.ScanMsg | udt/buffer.cpp:542-648 | reports the deliverable message that ends first if there is one, in slots of the ring, and whether it lies past the ack point; without one it reports something if and only if one message fills every slot but the one that stays free |
| ReceiveBuffer.RcvBuffer.Deliver | udt/buffer.cpp:501-532 | copies the payload of the reported message up to the room of the reader; past the ack point its units stay, marked as read; the report of a full ring copies nothing |
| ReceiveBuffer.RcvBuffer.ReadMsg | udt/buffer.cpp:494-533 | one call is one step of the specification: the message that ends first, cut only to len, or nothing if there is none |
| ReceiveRuns.StepSafe | udt/buffer.cpp:373-648 | every addData, ackData and readMsg keeps the log of deliveries safe |
| ReceiveRuns.RunSafe | udt/buffer.cpp:373-648 | in every run, over repeated and reordered packets and holes in the acks, each delivery is one whole sent message, no two deliveries share a packet, and ordered messages come out fully acked and in sending order |
| ReceiveRuns.LiveIsMessage | udt/buffer.cpp:600-638 | a live message of the window is a message of the sent stream, packet for packet |
| ReceiveComplete.RunExact | udt/buffer.cpp:373-648 | if acks have no gaps, a packet has left the buffer or is marked as read if and only if it belongs to a delivered message: nothing is dropped unread |
| ReceiveComplete.SkipsRead | udt/buffer.cpp:549-599 | in such runs, skipping bad cells gives back only packets that were read |
| ReceiveComplete.NothingLeft | udt/buffer.cpp:494-499 | a reader that gets nothing has been given every message that lies before the ack point |
| ReceiveAnswers.ReaderServed | udt/buffer.cpp:600-638 | if all packets of a message of the stream are in the buffer and unread, and it is acked or needs no order, a reader gets a message that ends no later, unless nothing is acked and no packet came beyond the ack point itself |
| ReceiveAnswers.NothingIff | udt/buffer.cpp:494-499 | a reader gets nothing if and only if the scan does not look at the buffer at all, or every whole unread message in it wants order and ends past the ack point |
| ReceiveAnswers.RunServes | udt/buffer.cpp:494-648 | so at every call in every run, with gaps in the acks or without |
| ReceiveAnswers.RunStays | udt/buffer.cpp:494-599 | in every run a message that is whole and unread in the buffer stays so until it is delivered |
| ReceiveAnswers.ArrivedIsServed | udt/buffer.cpp:373-648 | in every run without gaps in the acks, a message whose packets have all come in has been delivered or is in the buffer, whole and unread |
| ReceiveLimits.MissedIff | udt/buffer.cpp:542-547 | a reader gets nothing although a message could be handed out if and only if nothing is acked, no packet came beyond the ack point itself, and the packet there is an unread single one that needs no order |
| ReceiveLimits.QuietReader | udt/buffer.cpp:542-547 | a run from the start in which that happens, and in which the message is found after the next ack |
| ReceiveLimits.FullRing | udt/buffer.cpp:600-648 | for every ring of at least three slots and every message that does not end before it is full: a run that fills the ring; the scan then reports it, and the reader gets nothing |
| ReceiveLimits.NoneTooLong | udt/buffer.cpp:373-648 | in every run each message delivered has fewer packets than the ring has slots |
| StreamRuns.StepInPlace | udt/buffer.cpp:373-485 | every step of a stream reader keeps each packet at the place of its sequence number |
| StreamRuns.RunIsStream | udt/buffer.cpp:373-485 | in every run of addData, ackData and readBuffer, bytes taken and bytes still buffered are together the payload of the acked packets in sequence order |
| SendSpec.FieldReadsBack | udt/buffer.cpp:137-149 | number, order and boundary bits can be read back from the message number field if the number has at most 29 bits |
| SendSpec.FieldOverflows | udt/buffer.cpp:137-149 | for every larger number, some flag that was not set reads back as set |
| SendSpec.SplitCount | udt/buffer.cpp:122-124 | the number of pieces is the length divided by the packet size, rounded up |
| SendSpec.SplitAt | udt/buffer.cpp:131-149 | piece i holds the bytes from i times the packet size on |
| SendSpec.BlocksFramed | udt/buffer.cpp:134-149 | the blocks of a message carry its bytes and order flag, and only its first and last packet have the boundary bits |
| SendSpec.StreamFramed | udt/buffer.cpp:120-162 | the stream of all messages is well framed, ends with a message and carries all data in order |
| SendSpec.MessageIsSend | udt/buffer.cpp:120-162 | whatever reads as a message in the stream is one message of the user, whole and in its place |
| SendSpec.NumberChanges | udt/buffer.cpp:137-161 | while the numbers fit 29 bits, the message number changes exactly after the last packet of a message |
| SendSpec.EarlierNumber | udt/buffer.cpp:137-161 | no packet of an earlier message has the number of the last one |
| SendSpec.RestOfMessage | udt/buffer.cpp:228-242 | all that follow a packet under its number are the rest of its message, up to its last packet |
| SendBuffer.Splice | udt/buffer.cpp:297-325 | linking a chain into a cycle gives one longer cycle |
| SendBuffer.NewChain | udt/buffer.cpp:58-71 | the new blocks form one chain of n fresh blocks |
| SendBuffer.SndBuffer.constructor | udt/buffer.cpp:47-85 | an empty queue over one cycle of n blocks |
| SendBuffer.SndBuffer.Increase | udt/buffer.cpp:272-329 | the blocks still form one cycle with the same queue in it, longer by one physical buffer |
| SendBuffer.SndBuffer.Reserve | udt/buffer.cpp:126-128 | grows only as far as needed, and not at all if there is room |
| SendBuffer.SndBuffer.AddBuffer | udt/buffer.cpp:120-162 | the queue of packets grows by the numbered pieces of the message, with its time to live and time of sending, and nothing else changes in it |
| SendBuffer.SndBuffer.ReadData | udt/buffer.cpp:204-217 | returns the first packet of the queue that was not read, if there is one |
| SendBuffer.SndBuffer.ReadDataAt | udt/buffer.cpp:219-253 | returns the offset-th packet that is not acked; if its time to live is over, -1, its message number and the length of the rest of its message, and the packet to be read next moves behind that rest if it was in it behind the first packet |
| SendBuffer.SndBuffer.DropMessage | udt/buffer.cpp:230-243 | the walk over the blocks ends with the message, and does not run into blocks that are not in use, whatever number they still carry |
| SendBuffer.NotSpare | udt/buffer.cpp:230-243 | a block last used for an earlier message, or never, has not the number of the last packet of the queue |
| SendBuffer.SndBuffer.AckData | udt/buffer.cpp:255-265 | the first packets leave the queue; the cycle is the same, read from another block on |
| SendBuffer.Rotate | udt/buffer.cpp:257-262 | a cycle read from its block k on is a cycle with the same first, current and last block and the queue from packet k on |
| EndToEnd.MessagesArrive | udt/buffer.cpp:120-162 | sending and receiving buffer together: every message read is one of the messages sent, cut only to the room, none twice, and ordered ones in order |
| DataChannel.TakeFirst | common/datachn.cpp:287-304 | taking the first frame of a session from the queue takes the head of that session and touches no other |
| DataChannel.RunExclusive | common/datachn.cpp:307-377 | at most one thread owns the stream, and it is the holder of the receive lock |
| DataChannel.RunAligned | common/datachn.cpp:337-366 | what the owner has received and what is on the stream is always the encoding of the frames on the wire |
| DataChannel.NeverMisaligned | common/datachn.cpp:337-366 | a waiting owner never meets a part of the wrong kind |
| DataChannel.RunPrivate | common/datachn.cpp:278-377 | a caller only gets frames of its own session |
| DataChannel.SearchInOrder | common/datachn.cpp:287-304 | serving a caller from the queue keeps the order of every session |
| DataChannel.GotInOrder | common/datachn.cpp:367-376 | handing a frame to its reader, or queueing it, keeps the order of every session |
| DataChannel.StepInv | common/datachn.cpp:238-382 | every step of every thread keeps the invariant |
| DataChannel.RunIsInOrder | common/datachn.cpp:238-382 | in every interleaving, per session, the frames taken, queued, held and on the stream are those sent, in order, none lost, doubled or given to another session |
| ChannelReturns.RunReturns | common/datachn.cpp:274-382 | in every interleaving the frames that calls have returned, with those that a thread is about to return, are those taken, each once |
| ChannelReturns.NothingLost | common/datachn.cpp:274-382 | per session, frames returned, about to be returned, queued, held and on the wire are those sent, each once |
| ChannelReturns.RunServed | common/datachn.cpp:278-382 | every call that ends has returned a frame of its own session |
| ChannelReturns.Gets | common/datachn.cpp:331-370 | a thread that has received a frame of its session returns that frame by two steps of its own, one that took it from the queue by one, whatever the others do in between |
| ChannelReturns.AloneReturns | common/datachn.cpp:278-382 | in every run, a caller that runs alone while the lock is free, and for whose session there is a frame in the queue or on the wire, returns the first one |
| ChannelReturns.OrderIff | common/datachn.cpp:274-382 | for any assignment of sessions to threads: calls return the frames of every session in order, in every run, if and only if no two threads call for one session |
| DataChannel.SecondSearchNeeded | common/datachn.cpp:318-335 | with the second search left out, a run from the start, of two threads and two frames of one session, ends with the later frame taken and the earlier one still queued |
| DataChannel.DataQueue.TakeFor | common/datachn.cpp:287-304 | the loop erases exactly the first frame of the session, if there is one |
| DataChannel.DataQueue.HandOver | common/datachn.cpp:367-376 | a frame of another session joins the end of the queue; the caller's own goes to the caller and leaves the queue alone |
| SchedulerSpec.EventCounts | client/dcclient.cpp:396-450 | how each event changes the number of segments in each state and of live engines |
| SchedulerSpec.EventInv | client/dcclient.cpp:382-450 | every event keeps running engines and segments in progress one to one and the four counters equal to what they count |
| SchedulerRuns.RunInv | client/dcclient.cpp:382-486 | this holds after every run |
| SchedulerRuns.RunBounded | client/dcclient.cpp:396-450 | twice the unstarted plus started segments plus twice the live engines pays for every move of the job |
| SchedulerRuns.JobBounded | client/dcclient.cpp:396-450 | at most twice as many dispatches, completions, failures and losses as there are segments and engines |
| SchedulerRuns.CanGoOn | client/dcclient.cpp:496-637 | a job has a next move if and only if it is not stuck: an engine runs, or some idle one has an unstarted segment that is at its place or may move |
| SchedulerRuns.FarJobStuck | client/dcclient.cpp:537-561 | a job of one segment at distance 5 and one engine, without data movement, starts in a stuck state |
| SchedulerRuns.JobPatient | client/dcclient.cpp:574-625 | no segment is dispatched more than four times |
| SchedulerRuns.JobFails | client/dcclient.cpp:574-625 | after every run, a segment has failed for good if and only if four engines were lost at work on it or one reported an error |
| SchedulerRuns.ReadSparesRunning | client/dcclient.cpp:756-786 | reading a result never deletes a segment that a running engine points to |
| SchedulerRuns.RunReads | client/dcclient.cpp:756-786 | results read and segments left are together the segments of the job, each once |
| SchedulerRuns.JobDelivers | client/dcclient.cpp:729-794 | when all is finished and no result waits, each result was handed out exactly once |
| Scheduler.SelectDS | client/dcclient.cpp:518-566 | the walk picks an unstarted segment that no other unstarted one beats in distance, then in fewest copies; none only if every unstarted one that is not out of reach is elsewhere and may not move |
| SchedulerSpec.PickExists | client/dcclient.cpp:518-561 | selection finds a segment for an engine if and only if an unstarted one is at its place, or is anywhere and may move |
| Scheduler.DCClient.StartSPE | client/dcclient.cpp:651-686 | the segment is dispatched exactly if the engine is connected or answers, and accepts; only connected exactly if it answers but does not accept; nothing happens exactly if it does not answer |
| Scheduler.DCClient.DismissSPE | client/dcclient.cpp:574-625 | a lost engine is abandoned, and its segment goes back, or fails for good with the fourth loss, and then both counters rise by one |
| Scheduler.DCClient.CheckOne | client/dcclient.cpp:503-633 | one engine gives at most one legal event; a dispatch, or an attempt that failed, is of this engine and of a segment that selection picks for it, and nothing is tried exactly if selection picks none; a segment found is handed over to an engine that is reached and accepts |
| Scheduler.GivenUpTooEarly | client/dcclient.cpp:503-632 | a run from the start, and a round after it that loses the one running engine and gives up, although an idle engine looked at before could take the segment that came back |
| Scheduler.GivenUpIff | client/dcclient.cpp:503-632 | after any round that gives up, the job has no next move if and only if, in the state before it, no idle engine could have an unstarted segment or one that comes back from a lost engine |
| Scheduler.DCClient.CheckSPE | client/dcclient.cpp:496-637 | a round over all engines is a legal run, whose dispatches are all of picked segments, and keeps the invariant; the result is 0 if and only if buckets are lost with an engine, or no engine is left, or the job is unfinished, every running engine is gone and the scan finds nothing for any idle one at its turn; in that last case the job is stuck if and only if the state before the round was hopeless; afterwards every engine that ran goes on if connected and is abandoned if not, and every idle one that is reached and accepts runs a segment, unless none fits it that was unstarted before and is so still |
| Scheduler.DCClient.QuitDS | client/dcclient.cpp:437-450 | an engine that reports an error fails its segment |
| Scheduler.DCClient.ReadResult | client/dcclient.cpp:1298-1304 | marks exactly the engine's segment as done and the engine as ready |
| Scheduler.DCClient.HandleReport | client/dcclient.cpp:404-486 | a report of an engine that runs: below 0 its segment fails, from 100 on it is done, and the engine is ready and the counters up by one; else its progress can only grow; any other report changes nothing |
| Scheduler.DCClient.Read | client/dcclient.cpp:729-794 | a result exactly if a segment has one, the least of them; an error exactly if none has and the caller does not wait or no engine is left; "all read" exactly if no segment is left, the caller waits and an engine is left; else it waits; without a result nothing changes |
| Segments.CutsInOrder | client/dcclient.cpp:1071-1101 | the segments of a file are numbered on, of 1 to u records, in order and without overlap |
| Segments.AllCutsTile | client/dcclient.cpp:1068-1102 | over all files the segments are numbered from 0 and every record is in one of them |
| Segments.RecordOnce | client/dcclient.cpp:1068-1102 | every record of every file is in exactly one segment |
| Segments.FewSegments | client/dcclient.cpp:1043-1102 | for a target of n segments over F files there are fewer than 2n + F |
| Segments.TargetIs | client/dcclient.cpp:1045-1062 | the target is the least number of segments of at most the largest unit, more than there are engines; or the least number of at most the smallest unit, no more than there are engines; or one for each engine |
| Segments.AverageFitsIff | client/dcclient.cpp:1045-1062 | the segments are at most the largest unit on average if and only if the share of an engine is not that unit and a rest |
| Segments.WholeFilesAre | client/dcclient.cpp:1017-1041 | when files are processed whole: each file with name and content is one segment with all its records, in order, and nothing else is |
| Segments.SegmentData | client/dcclient.cpp:1012-1108 | the exact outcome: the tiling, no location, no index, or a loop without end when a file with records has no name or size |
| ShuffleSpec.EndsPlus | slave/serv_spe.cpp:712-716 | the index of two runs of records is the first index and the second one moved by the length of the first data |
| ShuffleSpec.RecordAt | slave/serv_spe.cpp:91-131 | index entries i and i + 1 cut record i out of the data; the first is 0 and the last the data length |
| ShuffleSpec.ReceiveGood | slave/serv_spe.cpp:695-717 | filing a delivery keeps data file and index file the concatenation of records and their index |
| ShuffleSpec.FileReads | slave/serv_spe.cpp:695-717 | the index of a bucket file is 0 and strictly increasing ends up to the data length, and cuts out each record |
| ShuffleSpec.SameOf | slave/serv_spe.cpp:995-1078 | two files with the same records of every engine have the same records |
| ShuffleSpec.DataSizeAdd | slave/serv_spe.cpp:129-130 | a record more in one bucket raises the number of bytes in all buckets by its length |
| ShuffleSpec.AddAllAt | slave/serv_spe.cpp:1336-1338 | of some rows, exactly those that are not empty and have the id b join bucket b, in order |
| Shuffle.Bucket.GrowIndex | slave/serv_spe.cpp:92-110 | the index keeps its entries in a larger buffer; the first buffer starts with 0 |
| Shuffle.Bucket.GrowData | slave/serv_spe.cpp:116-127 | the data keep their bytes in buffers that grow by units until the record fits |
| Shuffle.Bucket.Add | slave/serv_spe.cpp:87-131 | the bucket holds one record more, with data and index in step |
| Shuffle.Bucket.Clear | slave/serv_spe.cpp:133-144 | the bucket is empty and its index keeps the leading 0 |
| Shuffle.SPEResult.constructor | slave/serv_spe.cpp:57-85 | n empty buckets, and one if n is less than 1; the running total is that of no bytes |
| Shuffle.SPEResult.AddData | slave/serv_spe.cpp:87-131 | the record is added to its bucket and to no other, and its length to the running total, which stays the number of bytes in all buckets; a bad bucket id or a length of 0 or less changes nothing |
| Shuffle.SPEResult.Clear | slave/serv_spe.cpp:133-144 | all buckets are empty and the running total is 0 |
| Shuffle.SPEResult.ProcessData | slave/serv_spe.cpp:1324-1375 | what every bucket has more afterwards is, in order, the slices of the user's output that its index cuts out for exactly the rows that are not empty and have that bucket's id: that of the user, 0 without buckets, or that of the partition function on the very slice; the user saw an input index from 0, or none for a whole file; the index is as it was afterwards |
| Shuffle.EmittedAt | slave/serv_spe.cpp:1336-1368 | the same of the rows of one call, whatever bucket, for all three kinds of work |
| ShuffleDelivery.SortByLocation | slave/serv_spe.cpp:997-1016 | per shuffler, exactly its non-empty buckets, and their total size |
| ShuffleDelivery.SendBuckets | slave/serv_spe.cpp:1061-1067 | what is sent for a shuffler is three frames for each of its buckets, ascending: the number, all data, and the index without the leading 0 |
| ShuffleDelivery.SendResultToBuckets | slave/serv_spe.cpp:995-1078 | each shuffler gets at most one delivery, right in number, size and content; deliveries go to those who accept, in that order; the result is 1 exactly if all have, -1 exactly if a call fails before; no shuffler is asked again before all the others that have not accepted are |
| ShuffleDelivery.FairNext | slave/serv_spe.cpp:1018-1054 | asking the one asked longest ago keeps the turns fair |
| ShuffleReceive.Shuffler.Finish | slave/serv_spe.cpp:712-717 | the received index is moved in place behind what the file holds, and appended |
| ShuffleReceive.Shuffler.Receive | slave/serv_spe.cpp:687-722 | the loop over the announced number of buckets makes exactly the specified receive calls, one frame each, and stops where no frame is left: a frame that is no number skips its bucket, a number outside the tables or an empty index is undefined |
| ShuffleReceive.ListenIsHears | slave/serv_spe.cpp:687-722 | in the job as a whole these receive calls are as many events of the shuffler, and nothing else changes |
| ShuffleRuns.ItemsSent | slave/serv_spe.cpp:1007-1067 | a delivery carries every bucket of its shuffler whole and nothing else |
| ShuffleRuns.EventStep | slave/serv_spe.cpp:664-722 | with a delivery as one step: each event adds what it emits to the trace of an engine and bucket, and moves the rest along |
| ShuffleRuns.RunKeepsRecords | slave/serv_spe.cpp:995-1078 | with a delivery as one step: in every run of many engines and shufflers, the non-empty records that an engine emitted to a bucket are filed, on their way or still held, once each and in order |
| ShuffleRuns.AllDelivered | slave/serv_spe.cpp:1377-1397 | with a delivery as one step: when all is delivered, the file of a bucket holds exactly the non-empty records emitted to it, those of each engine in order |
| ShuffleWireRuns.PushStep | slave/serv_spe.cpp:1061-1067 | if engines have addresses of their own, a frame sent changes nothing of the job seen delivery by delivery |
| ShuffleWireRuns.HearPartStep | slave/serv_spe.cpp:687-709 | nor does the receipt of a number or of data |
| ShuffleWireRuns.HearItemStep | slave/serv_spe.cpp:711-722 | the receipt of an index is the filing of one whole bucket, the one that was announced |
| ShuffleWireSafe.FramesAreDeliveries | slave/serv_spe.cpp:664-1078 | frame by frame, every run of engines with addresses of their own stands for a run of whole deliveries with the same records |
| ShuffleWireSafe.AlwaysWhole | slave/serv_spe.cpp:687-722 | in such runs, at every moment, a data file is the concatenation of records emitted to its bucket, without a gap for any engine |
| ShuffleWireSafe.FramesDelivered | slave/serv_spe.cpp:664-1078 | once nothing is held, announced or being read, data file and index file of each bucket are exactly the records emitted to it, those of each engine in order, and their index |
| ShuffleWireMixed.MixingRuns | slave/serv_spe.cpp:1022-1067 | two engines at one address: a run after which a data file is the number of a bucket |
| ShuffleWireMixed.RecordsKeptIff | slave/serv_spe.cpp:664-1078 | all data files hold whole emitted records at every moment of every run if and only if no two engines of the job are at one slave address |
| ShuffleRuns.RowsAreEvents | slave/serv_spe.cpp:1336-1368 | adding the rows of a result is a run of emissions |
| Metadata.Merge | common/index.cpp:854-892 | the loops leave the specified tree and the specified rest of the branch |
| Metadata.MergeAt | common/index.cpp:854-892 | file by file: a branch file is absorbed exactly if nothing is in its way, or if the file there agrees and lacks replicas; then it is in the tree with its locations and gone from the branch, else untouched; old files only gain locations |
| Metadata.MergeDirs | common/index.cpp:854-892 | at every path: directories of the tree stay as they are, those of the branch come in where nothing is in the way, and the others stay in the branch |
| Metadata.Subtract | common/index.cpp:894-914 | the loops leave the specified tree |
| Metadata.SubtractAt | common/index.cpp:894-914 | file by file: the address is gone, and a file that nobody else holds is gone |
| Metadata.SubtractDirs | common/index.cpp:894-914 | at every path a directory is there after the subtraction exactly if it was before, with the same name, time, size and locations, empty or not |
| Metadata.JoinAndLoss | common/index.cpp:854-914 | merging a branch that lives at one address and subtracting that address leaves the file table as it was if and only if the address was nowhere in it and every file had a location |
| Metadata.PathsAreFiles | common/index.cpp:931-944 | the counted paths are exactly the paths at which there is a file |
| Metadata.TotalDataSize | common/index.cpp:916-929 | the recursive total is the sum of the sizes over all file paths |
| Metadata.TotalFileNum | common/index.cpp:931-944 | the recursive count is the number of file paths |
| NodeText.AtoiBack | common/snode.cpp:68-79 | reading a printed number gives the number back, negative ones too |
| NodeText.Field | common/snode.cpp:88-97 | the scan cuts off the text before the first separator |
| NodeText.Serialize | common/snode.cpp:68-79 | the text of the node, with every location once |
| NodeText.Deserialize | common/snode.cpp:81-198 | fills in the node as far as the text goes, and returns the specified code |
| NodeText.ReadText | common/snode.cpp:68-198 | reading a printed node gives it back, whatever commas, digits or spaces its name holds |
| NodeText.Accepted | common/snode.cpp:81-198 | 0 exactly for a length, a name of that length, and then an even number of commas, at least two; else -1 |
| TreeText.Descend | common/index.cpp:769-774 | the walk from the root follows the remembered names, or tells that one is missing |
| TreeText.ReadLine | common/index.cpp:730-780 | one line does what the specification says in each of its cases |
| TreeText.DeserializeTree | common/index.cpp:716-784 | the file is read line by line up to its end, with the outcomes of a missing entry and of a line that is too long |
| TreeText.SerializeTree | common/index.cpp:700-714 | the text lists every entry once, and below each directory its children one level deeper |
| TreeRoundTrip.NodeAdded | common/index.cpp:749-780 | same level, one level deeper, or back up: the node goes where it belongs |
| TreeRoundTrip.FileRead | common/index.cpp:723-730 | a file of lines that fit is read as these lines |
| TreeRoundTrip.SiblingsRead | common/index.cpp:749-780 | the lines of some siblings, read into an empty directory anywhere in a tree, build just what they describe there |
| TreeRoundTrip.BuildIs | common/index.cpp:700-714 | what the printed lines describe is the tree that was printed |
| TreeRoundTrip.RoundTrip | common/index.cpp:700-784 | a printed tree reads back as itself, or, for a slave, with every file on that slave |
| TreeRoundTrip.MovedAt | common/index.cpp:741-747 | in that tree each file has its size and time and just the one location |
| TreeRoundTrip.MovedDirs | common/index.cpp:741-747 | and every directory is there as it was |
| PeerHistory.BucketIs | gmp/prec.cpp:203-226 | a bucket holds exactly the insertions into it that no later one purged, sorted by time |
| PeerHistory.InBucketIs | gmp/prec.cpp:228-245 | a message is recognised exactly if one of its insertions was not purged |
| PeerHistory.Window | gmp/prec.cpp:203-245 | for any hash function: everything recorded in the last ten seconds is recognised, and only what was recorded |
| PeerHistory.CPeerManagement.AddRecentPR | gmp/prec.cpp:203-226 | the hashed buckets stay those of the plain log, which grows by the record |
| PeerHistory.CPeerManagement.Hit | gmp/prec.cpp:228-245 | true exactly if the bucket of the message holds it |
| Gmp.CGMP.SndHandler | gmp/gmp.cpp:578-602 | exactly the messages older than ten seconds leave the queue, and exactly those older than one second are sent again |
| Gmp.CGMP.Acknowledge | gmp/gmp.cpp:685-718 | the first message with the number leaves the queue and the peer is recorded; without one nothing changes |
| Gmp.CGMP.Take | gmp/gmp.cpp:755-813 | a repeated message changes nothing; a new one is recorded and queued, or stored as the result of its request |
| GmpRuns.HandleIds | gmp/gmp.cpp:584-602 | every message in the queue either stays or times out |
| GmpRuns.EventBook | gmp/gmp.cpp:294-325 | every step keeps each message sent in exactly one of three places: on its way to the queue, in it, gone |
| GmpRuns.EventInv | gmp/gmp.cpp:551-813 | every step keeps packets genuine, acks truthful and the record of recent messages in line with the queued ones |
| GmpRuns.RunAccounts | gmp/gmp.cpp:294-325 | after any run, over loss, repetition and reordering: each message leaves the send queue at most once, an acknowledged one was queued at its destination, and whatever is queued was sent here as it is |
| GmpRuns.QueuedOnce | gmp/gmp.cpp:755-813 | if no copy comes ten seconds or more after its message was queued, nothing is queued twice |
| GmpRuns.ArrivalQueued | gmp/gmp.cpp:755-813 | an arriving copy is queued exactly if every record of its message was purged by a later one in the same bucket |
| GmpRuns.LateCopyQueuedTwice | gmp/gmp.cpp:755-813 | for any hash that puts the two messages into one bucket, a run in which a late copy is queued a second time |
| GmpRetry.SentAgain | gmp/gmp.cpp:578-618 | a look through the send queue puts a copy of exactly those messages on the network that wait for more than a second, over UDT if for more than ten |
| GmpRetry.Acknowledged | gmp/gmp.cpp:755-813 | an acknowledgement is sent for every copy that arrives over UDP, also when its message came before, and for nothing else |
| GmpRetry.NotGivenUpEarly | gmp/gmp.cpp:578-602 | in every run from when a message enters the send queue: it is still there, or was acknowledged, or more than ten seconds have passed |
| GmpRetry.Retry | gmp/gmp.cpp:551-813 | from every state of a run in which a message waits for more than one second and at most ten: a look through the queue, the arrival of the copy and that of its acknowledgement can follow, and then the message is queued at its destination and has left the send queue |
| Topology.Topology.Lookup | common/topology.cpp:195-216 | 0 and the path of the range with the least number that holds the address; -1 and 0/0/... exactly if none does |
| Topology.Topology.PathIs | common/topology.cpp:195-216 | the path that the cluster totals use for an address is that of its first range too, and 0/0/... without one |
| Topology.Match | common/topology.cpp:218-233 | the length of the common prefix; all of the first path exactly if it is a prefix of the second |
| ClusterTree.GrownExact | master/slavemgmt.cpp:75-115 | building the clusters of a path gives or keeps a tree of full depth that is exact for no slaves |
| ClusterTree.WalkExact | master/slavemgmt.cpp:136-150 | counting a slave in or out along its path keeps every node count and every leaf set exact |
| ClusterTree.WalkTwice | master/slavemgmt.cpp:131-151 | a slave that is listed already, counted in again anywhere, leaves a tree that is not exact |
| ClusterTree.ExactAt | master/slavemgmt.cpp:122-217 | in an exact tree the cluster at any path has as many nodes as slaves whose path extends it, and leaves list them |
| ClusterStats.UpdateClusterIo | master/slavemgmt.cpp:781-798 | adds, address by address, the traffic with addresses outside the cluster, and keeps the total in step |
| ClusterStats.MergedTotals | master/slavemgmt.cpp:781-798 | adding the traffic of other slaves gives the traffic of both, counted only outside |
| ClusterStats.TotalOfFlows | master/slavemgmt.cpp:781-798 | the total over addresses is the sum over all connections of the slaves with outside addresses |
| Clusters.UpdateClusterStat | master/slavemgmt.cpp:741-779 | keeps the tree exact and leaves every cluster with the totals of the slaves in it |
| Clusters.FlatTotals | master/slavemgmt.cpp:734-779 | at every path: disk and file totals are sums over the slaves whose path extends it, and I/O totals the sums of their traffic with addresses outside |
| Clusters.SlaveManager.constructor | master/slavemgmt.cpp:62-120 | an exact tree that has a cluster for every path that lookup can give |
| Clusters.SlaveManager.Insert | master/slavemgmt.cpp:122-162 | the slave is added along the path of its address, and the tree stays exact if and only if its id was not listed |
| Clusters.SlaveManager.Remove | master/slavemgmt.cpp:164-217 | the slave is gone and the tree stays exact; -1 if it was not there |
| Clusters.SlaveManager.UpdateStat | master/slavemgmt.cpp:734-739 | all totals are right, and members and clusters are as before |
| RateControl.AckAddsInc | udt/ccc.cpp:216-240 | an acknowledgement that raises the rate, with no cap, adds exactly inc packets per interval |
| RateControl.AckSane | udt/ccc.cpp:186-252 | outside slow start and without a cap, an acknowledgement never raises the period |
| RateControl.RateAfterSlowStart | udt/ccc.cpp:257-303 | however slow start ends: the period is one second over the receiving rate, or one window goes out per round trip and interval if that rate is 0 |
| RateControl.Window | udt/ccc.cpp:192-209 | an acknowledgement that counts: in slow start the window grows by the packets acknowledged and slow start ends exactly when it exceeds its limit; later it is what arrives in a round trip and an interval, and 16 packets |
| RateControl.SlowStartRun | udt/ccc.cpp:186-213 | while slow start lasts there are only acknowledgements, the period stays, and the window is its first value and the packets of all acknowledgements that counted, at most one per interval |
| RateControl.RateCapped | udt/ccc.cpp:240-252 | an acknowledgement never leaves the rate above the cap of the user |
| RateControl.EpochBound | udt/ccc.cpp:255-292 | in one epoch from period p, under any mix of callbacks: at most five raises, and a period below 1.125^5 p + 6.42, so at most 2p if p is 33 or more |
| RateControl.LossesRaise | udt/ccc.cpp:286-291 | five raises do happen: losses without acknowledgements between them reach the bound |
| RateControl.EpochOfLosses | udt/ccc.cpp:269-291 | the period after n further losses: it was raised once for each loss, from the second to the fifth, whose number the random threshold divides |
| RateControl.ThresholdBetween | udt/ccc.cpp:274-284 | the average lies between the old one and the losses of the last epoch, and the threshold between 1 and the average |
| RateControl.HalvedIff | udt/ccc.cpp:255-292 | over all random numbers and callbacks, the rate is at most halved in an epoch if and only if five raises do not more than double its first period |
| RateControl.WorstCase | udt/ccc.cpp:268-291 | the bound is reached: with the random number 0, four further losses make five raises |
| RateControl.HalvedWhole | udt/ccc.cpp:255-292 | for a first period of whole microseconds, over all random numbers: if and only if it is at least 12 |
| RateControl.SaneKept | udt/ccc.cpp:186-312 | period, window and random threshold stay positive under every callback |
| RateControl.CUDTCC.OnACK | udt/ccc.cpp:186-252 | the fields change as specified: window, slow start, and the rate up to the cap |
| RateControl.CUDTCC.OnLossReport | udt/ccc.cpp:255-292 | the fields change as specified, for a new epoch and within one |
| RateControl.CUDTCC.OnTimeOut | udt/ccc.cpp:294-312 | a timeout ends slow start and changes nothing else |
| WildCard.Match | common/conf.cpp:371-413 | terminates, and is true exactly for the meaning below |
| WildCard.Sound | common/conf.cpp:371-413 | whatever matches does so in the usual sense; what matches in the usual sense only, has a card that ends in several stars, or in one that would stand for nothing |
| WildCard.ShortestFails | common/conf.cpp:406-412 | for every card that ends in a star, the shortest name that it usually matches is not matched |
| WildCard.CompleteIff | common/conf.cpp:371-413 | a card matches exactly the names it usually matches if and only if its last character is not a star |
| WildCard.FailingNames | common/conf.cpp:371-413 | a does not match a*, and nothing matches a** |
| WildCard.PlainMeaning | common/conf.cpp:371-413 | without wildcards a card matches itself only |
| WildCard.MeaningStars | common/conf.cpp:379-391 | a card that begins with stars matches if its rest matches from some place on |
| WildCard.MeaningHead | common/conf.cpp:393-404 | a card that begins with another character matches if that one fits and the rest does |
| WildCard.IsWildCard | common/conf.cpp:360-369 | true exactly if there is a star or a question mark |

## Left out

- SendBuffer.SndBuffer.ReadDataAt: the walk over an expired message presumes that fewer than 2^29 messages were
  sent, as larger numbers run into the flags; a block that was never used carries the number 0, which the C++
  constructor sets for all blocks but the last one and increase for none.
- SendBuffer.SndBuffer.constructor: the bytes of a block are a value of the block; that the blocks point into
  slices of one physical buffer is not modelled.
- SendBuffer.SndBuffer.Increase: the same for the physical buffer that it adds and the list of those buffers.
- UDT buffers: addBufferFromFile, readBufferToFile, dropMsg, latency, locks, and a stream of 2^29 messages or
  more.
- UDT buffers: callers acknowledge only packets that were sent or slots that are filled, as the transport
  does; units come from a pool of the caller.
- DataChannel: recvfile (which releases the receive lock before it queues a frame of another session),
  sendfile, encryption, connecting and removing channels; an error of the transport ends a run.
- Scheduler: preparing input and output, loading operators, checking buckets over the network, what follows
  the run loop, progress in fractions, waiting; distances do not change during a job; the retry count, which
  segmentData leaves uninitialised, starts at 0; the regions under one lock are one step.
- Segments: file lookup in the master and user-chosen locations.
- Shuffle: delivery to a local file, deliveries that fail on the way, sorting and reducing, 32-bit lengths and
  the size reports of the shuffler. Shuffler ids are dense. A channel keeps the order of the frames that are
  sent on it, which is what `DataChannel.RunIsInOrder` says of one session; the bytes of a frame that is read
  as another kind are arbitrary, except that a bucket number has four.
- Shuffle: what a shuffler does after it has written outside its tables is undefined; it stops there.
- Shuffle: the rows of a result are cut out before they are added; the C++ loop does both at once.
- Metadata: trees are values that go in and come out, so sharing and update in place of nested maps are not
  modelled; map keys equal node names, files have no children, checksums, scan, list and path helpers, and
  Index2 are not part of this model.
- TreeText: text behind the end of a string that the reader would look at is taken to be empty; numbers have
  no width. The round trip is for names without newlines, addresses without commas, lines of fewer than
  4095 characters and fewer than 1024 levels.
- Gmp: the UDT path only as a copy that may arrive once a message times out; flow control, RTT probes, the
  peer list and its eviction, wrap-around of message numbers, and rpc on top. A process and its restart are
  two processes; looking up a message and recording it is one step.
- Clusters: clusters are values and the loops down a path are recursive; all topology paths have the same
  length, addresses parse. Choosing nodes, bad slaves, storage paths, serialization
  and disk totals between two updates are not part of this model.
- RateControl: exact reals instead of doubles, the power of ten as a parameter, sequence number comparison as
  a parameter, no overflow of counters; a clock that goes back counts as late, as the unsigned difference makes it.
- WildCard.Match: says nothing about strings with NUL characters inside.
- Sockets, threads, clocks, files and shared libraries themselves; caches, routing, users, transactions and the
  tools: plumbing or easy members.
