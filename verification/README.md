# Verified model of the event-forwarding system

A Windows service reads the system event log and ships the records over TCP to a server, which
stores them in Postgres. This project models, in Dafny, the parts of that system whose correctness
is not visible in any single function, and proves what they promise.

| part | modules |
|---|---|
| Frames, and the incremental decoder that reads them from a TCP stream | `Bytes`, `Frames`, `DecoderMachine`, `DecoderRefinement`, `DecoderProperties`, `DecoderReset`, `Decoder`, `SampleCodec` |
| The way of a message from the send queue to the handler at the other end | `Receiver`, `SendQueue`, `Network` |
| The objects that are exchanged, and their protobuf form | `Messages` |
| The forwarding protocol with its resume watermark | `EventLog`, `Protocol`, `ProtocolOrder`, `ProtocolSignals`, `ProtocolStorage`, `ProtocolUnique`, `ProtocolProgress`, `ProtocolEnding`, `ProtocolLimits`, `Handlers` |
| The octets and the protocol together | `Composition` |
| Substitution of parameter strings into a message, and decimal numbers | `Substitution`, `Decimal` |
| The walk over the SMBIOS table to the machine UUID | `Smbios` |

`dafny verify dfyconfig.toml` checks the whole project.

## How the parts are modelled

**Frames.** A frame is a 40-octet header (serial size and wire size in network order, SHA-256 digest)
and a payload, raw or compressed; equality of the two sizes is the only mark of a raw one.
`Frames.Scan` is a pure parser of a whole byte stream and is the reference. The decoder is a machine
on values (`DecoderMachine`): `parseHeader` and `_read` call each other in tail position, so one
activation is one step. Run against the parser, it is shown to agree on every input but one, an empty
read just after a header that announces an empty payload. The class `Decoder.ProtobufPacketDecoder`
updates the header array, the buffer, the counters and the queue in place and is proved equal to the
machine. SHA-256, zlib and protobuf parsing are the functions of the record `Frames.Primitives`, with
the laws in `Lawful`; `SampleCodec` shows that the laws are consistent.

The library's `assert`s are taken as active: where one fails, the model's outcome is `Aborted`. An
endless recursion is the outcome `Diverges`. Both are proved exact.

**Protocol.** `Protocol.System` has the client's log, watermark, signals and cursor, the two channels,
how many messages of each channel wait decoded in the receiver's queue, the server's work queue and
last id, and the rows of the client. Its actions are the log growing, a client process starting, losing
the connection, losing queued work, a send in which reading events may fail, the reset of a signal, a
read of either side, and an insertion whose transaction may abort. A read runs only when octets arrive,
may complete any number of messages, and handles one. Insertions may run in any order. A policy says
what a run may be assumed to do, with one flag for each restriction on a step:

- `calm`: a session is told its watermark only when no insertion of an earlier one is queued;
- `ordered`, `committed`: insertions run in the order in which they were queued; none aborts;
- `subscribeSafe`: no event is logged between a send that the subscription's signal caused and the reset
  of that signal;
- `uploadSafe`: no acceptance is handled between a send that the upload signal caused and the reset of
  that signal;
- `singly`: no read of the server completes more than one message;
- `nextSafe`, `noThirty`: `EvtNext` does not fail with a status other than 30; it does not fail with 30;
- `rendered`: every event that is read can be rendered.

`ProtocolLimits` shows for each guarantee which flags it needs: it holds in all runs if and only if they
are set, with a run that breaks it for each flag, whatever the other flags are. The handshake
and the range of the watermarks hold in every run.

**Octets and protocol.** `Composition` puts the two halves together: where the messages sent on a socket
are those of a channel of the protocol, every delivery on it, cut anywhere, is a read of the protocol.
Severity, which does not survive transport, is left out of the events there. Every message that the
protocol sends, named by its operation, is carried as the protocol says, and so is every message read.

**What the specifications mean.** A function that a method is proved against is itself tied to something
that does not name it: frames to sizes and to the smaller of two forms (`Frames.SmallerFormIsSent`),
numbers to their printing (`Decimal.WtoiReads`), the substitution to the filling of the pieces of a
message (`Substitution.SubstFillsPieces`), the version of a table to its two octets and the text of a
UUID to its numbers and dashes (`Smbios`), and the steps of the protocol to laws over runs
(`ProtocolSignals`).

**Where the code differs from what it seems to promise**, the code is modelled and the difference is
proved:

- Where a stream is cut into reads does not matter, if and only if it does not end with a header that
  announces an empty payload; after such a header the decoder waits or recurses for ever, depending on the
  cut (`DecoderProperties.CutsMatterExactly`).
- `Reset` clears the stream's flags, not its contents; it is a reset if and only if the buffer is empty
  (`DecoderReset.ResetIsExact`).
- No severity survives transport: the number written is one less than the number it is read as
  (`Messages.SeverityNeverSurvives`).
- The result of the insert statement is cleared before its size is tested, so `inserted` stays 0 and
  the XML table is not written (`Handlers.Database.InsertWindowsEvents`).
- A signal that is set again before its reset is lost, and a batch that arrives together with an earlier
  one waits, decoded, for a later arrival: in both cases the two programs can come to rest with events
  unread (`ProtocolLimits.MovingIffSafe`).
- An event that cannot be rendered is passed over together with the events read after it, which leaves a
  gap (`ProtocolLimits.UnrenderedLeavesGap`) or a stall (`ProtocolLimits.UnrenderedStalls`); a failure of
  `EvtNext` stalls the sender too (`ProtocolLimits.FailedReadStalls`), unless its status is 30, which is
  taken for a full batch and can keep the two programs busy for ever (`ProtocolLimits.EndsIffNoThirty`).
- An acceptance is sent even when the transaction aborted, which leaves a gap in the rows; so does an
  insertion that overtakes another (`ProtocolLimits.ExactIffStoresAll`).
- The second pass over a message with parameters does not end if some `%` has no digit behind it
  (`Substitution.SecondPassEnds`).
- Before version 2.6 the text of the UUID starts with a dash (`Smbios.TextKeepsTheUuid`); a table
  without a system information structure is read past its end (`Smbios.NoSystemLeavesTable`).

Two places are read by their intent: the last id of a batch is that of its last event (the code
dereferences the position behind it), and an empty batch leaves the last id alone; and the test at
`ClientServiceServer/client.cpp:71`, which refuses when the database is connected, is left out.

## Model

| member | source | states |
|---|---|---|
| Frames.FrameRoundTrip | WindowsProtobufLib/protobufLib.cpp:173-207 | for every serialized message of 1 to 2^32 - 1 octets, the frame is at most 40 octets longer, its two size words are equal exactly if the payload is raw, and reading it recovers the octets and passes the digest test |
| Frames.ScanAppend | WindowsProtobufLib/protobufLib.cpp:357-456 | parsing a stream is the same as parsing a first part and then its rest together with what follows, for every cut of every stream |
| Frames.ScanStream | ProtobufLibraryTest/test.cpp:99-121 | well-formed frames in front of any octets are parsed into their objects, in order, and then the octets |
| Frames.PackIsWellFramed | WindowsProtobufLib/protobufLib.cpp:173-207 | what `toBytes` makes of a parseable message is a well-formed frame for its object |
| Frames.SmallerFormIsSent | WindowsProtobufLib/protobufLib.cpp:181-199 | for texts of every size: the frame has 40 octets more than the smaller of text and compressed text, and holds the compressed text if that is shorter, else the text; its size words are the sizes modulo 2^32 |
| Frames.PackedIsUnderstood | WindowsProtobufLib/protobufLib.cpp:413-431 | a compressed payload of any size but that of the text is understood, longer ones included |
| Frames.AlteredDigestIsFault | WindowsProtobufLib/protobufLib.cpp:426 | a well-formed frame in which only the digest is altered fails, whatever follows it |
| Frames.AlteredTextIsFault | WindowsProtobufLib/protobufLib.cpp:417 | so does one whose raw payload is replaced by one with another digest |
| DecoderMachine.OutcomeIsExact | WindowsProtobufLib/protobufLib.cpp:357-456 | the recursion of `parseHeader` and `_read` ends, after some number of activations and with the stated state or failed assertion, unless the outcome is divergence, and then no number of activations ends it |
| DecoderMachine.StepSmallerOrSpins | WindowsProtobufLib/protobufLib.cpp:359-377 | every call the two functions make of each other has less data, or the same data and a lower phase, unless the header announces an empty payload |
| DecoderRefinement.HeaderStep | WindowsProtobufLib/protobufLib.cpp:357-381 | `parseHeader` moves octets into the header without losing or reordering any, and goes on only with a complete header and its sizes |
| DecoderRefinement.FinishStep | WindowsProtobufLib/protobufLib.cpp:400-445 | completing a payload queues exactly the object the parser finds there, or fails exactly where the parser finds a fault |
| DecoderRefinement.RunIsScan | WindowsProtobufLib/protobufLib.cpp:357-456 | one call of the decoder, on any data in any valid state, does what the parser says of the pending octets and the data, and keeps the representation invariant |
| DecoderProperties.ReadAllIsScan | WindowsProtobufLib/protobufLib.cpp:388-456 | any division of any octets into reads, empty ones included, has the result of parsing the whole, except after a header that announces an empty payload |
| DecoderProperties.FramesInAnyChunks | ProtobufLibraryTest/test.cpp:79-147 | well-formed frames and an incomplete tail, in any chunks: the queue holds the frames' objects in order and the pending state is exactly the tail |
| DecoderProperties.CutsAreIndifferent | ProtobufLibraryTest/test.cpp:127-137 | two divisions of the same octets lead to the same queue and the same pending octets, or to the same failure |
| DecoderProperties.CutsMatterExactly | WindowsProtobufLib/protobufLib.cpp:388-456 | from any valid state and for any octets: no two divisions of the octets into reads can be told apart, if and only if the parser does not end with a header of wire size 0 and nothing behind it |
| DecoderProperties.CutAfterEmptyFrameHeader | WindowsProtobufLib/protobufLib.cpp:371-377 | from any valid state: octets that end with such a header are waited on if they are one read, and one more, empty read then diverges |
| DecoderProperties.HeaderAlone | WindowsProtobufLib/protobufLib.cpp:371-377 | the smallest such input: a new decoder and the header |
| DecoderProperties.TwinsBehaveAlike | WindowsProtobufLib/protobufLib.h:439-449 | valid states with the same pending octets and queue cannot be told apart by any reads and pops, whatever stale header octets and sizes they hold |
| DecoderReset.EmptyBufferResets | WindowsProtobufLib/protobufLib.h:477-496 | for every type of objects, every codec and all reads and pops: a decoder that was reset with nothing buffered behaves like a new one |
| DecoderReset.ResetIsExact | WindowsProtobufLib/protobufLib.h:477-496 | for every type of objects that has one: a decoder that was reset behaves like a new one, for every codec and all reads and pops, if and only if no unread octets are buffered |
| DecoderReset.ResetBetweenFrames | WindowsProtobufLib/protobufLib.h:477-496 | in a valid state that is: if and only if no part of a payload has arrived |
| SampleCodec.SampleIsLawful | WindowsProtobufLib/protobufLib.cpp:177-182 | the laws asked of the foreign digest, compression and parser have a model |
| SampleCodec.SampleFrames | WindowsProtobufLib/protobufLib.cpp:181-199 | two whole frames: five zeros take 41 octets, sizes 5 and 1 in network order; a text that does not shrink is sent as it is |
| Decoder.FrameBytes | WindowsProtobufLib/protobufLib.cpp:173-207 | the array that `toBytes` fills by four copies is the frame of the message; behind the header it holds the compressed text if that is shorter, else the text, and no more |
| Decoder.ProtobufPacketDecoder.constructor | WindowsProtobufLib/protobufLib.h:493-496 | a new decoder is the machine's initial state |
| Decoder.ProtobufPacketDecoder.FillHeader | WindowsProtobufLib/protobufLib.cpp:361-370 | the copying loop stores as many octets as are missing or available, and changes nothing else |
| Decoder.ProtobufPacketDecoder.ParseHeader | WindowsProtobufLib/protobufLib.cpp:357-381 | the method, in place, ends in the state of the machine's run |
| Decoder.ProtobufPacketDecoder.FinishPayload | WindowsProtobufLib/protobufLib.cpp:401-441 | the completed payload is opened and its object queued, or an assertion fails, as the machine says |
| Decoder.ProtobufPacketDecoder.ReadData | WindowsProtobufLib/protobufLib.cpp:394-456 | the method, in place, ends in the state of the machine's run; its own result is at most the first new object, and only if the call began inside that object's payload |
| Decoder.ProtobufPacketDecoder.Read | WindowsProtobufLib/protobufLib.cpp:388-392 | a read queues the objects of the frames that are now complete and leaves the rest pending, or fails where the parser finds a fault |
| Decoder.ProtobufPacketDecoder.GetProtobufMessage | WindowsProtobufLib/protobufLib.h:464-475 | takes the oldest object, if there is one, and leaves the others |
| Decoder.ProtobufPacketDecoder.Reset | WindowsProtobufLib/protobufLib.h:477-486 | the state after a reset, whose worth `ResetIsExact` measures |
| Receiver.ReadAndPop | ClientServiceServer/client.cpp:61-69 | one read and one pop on the decoder object are one callback of the model, and fail exactly where it does |
| Receiver.OnReadIsScan | ClientServiceServer/client.cpp:61-69 | a read callback decodes what the parser finds and handles the oldest object that is left, if any |
| Receiver.ServedIsScan | WindowsClientService/network.cpp:70-87 | after each of any number of reads, the handled and the queued objects together are those of the stream, in order |
| Receiver.BacklogLaw | ClientServiceServer/client.cpp:61-69 | at each point n of any sequence of reads, the number handled is the least, over k from 0 to n, of the objects completed by the first k reads plus n - k |
| SendQueue.UvHandler.WriteToNetwork | ClientServiceServer/uv.cpp:178-194 | the frame of the message goes to the end of the queue |
| SendQueue.UvHandler.FlushQueue | ClientServiceServer/uv.cpp:196-225 | the queue is emptied, and every socket gets its own frames, in order, and nothing else |
| Network.PrefixOfStream | WindowsProtobufLib/protobufLib.cpp:394-456 | every prefix of a stream of well-formed frames parses into the first of their objects and an incomplete tail |
| Network.DeliverKeeps | WindowsClientService/network.cpp:70-87 | a delivery of any size never fails, never unhandles a message, and keeps the rest of the stream intact |
| Network.DeliveryInOrder | ClientServiceServer/uv.cpp:178-225 | in every run of queueing serialized messages, flushing and deliveries on any sockets, the messages handled for a socket are a prefix of those written to it, unaltered, in order and once; what is missing is still under way; no delivery fails |
| Messages.ObjectRoundTrip | WindowsProtobufLib/protobufLib.cpp:81-100 | an object arrives if and only if it is not a refusal, with its operation, id (unless -1), earlier description, last event, need for acceptance and events in order; its system is always Windows |
| Messages.SeverityNeverSurvives | WindowsProtobufLib/protobufLib.h:318-376 | the severity that is read is never the one that was sent, and which one it is; the number that is read is one less than that of the severity that was sent |
| Messages.LevelRoundTrip | WindowsProtobufLib/protobufLib.h:318-349 | the two functions between severities and numbers are inverse on the numbers 1 to 5, and on no others |
| Messages.WireDeterminesBody | WindowsProtobufLib/protobufLib.cpp:145-163 | messages with the same wire message have the same id, description and body, refused ids and severities included |
| Messages.ReadThenWritten | WindowsProtobufLib/protobufLib.cpp:210-261 | a wire message is read exactly for the five operations with a case, and writing its object gives back all that the operation uses, but for severities and an id of -1 |
| Messages.DescriptionReads | WindowsProtobufLib/protobufLib.cpp:316-333 | read back, the numbers in the description of a log package are the first id, as a signed number, and the number of events |
| Messages.CoreMessage.BuildWire | WindowsProtobufLib/protobufLib.cpp:145-163 | the wire message of the object as it stood at the call; a log package's description is replaced only afterwards |
| Messages.BuildObj | WindowsProtobufLib/protobufLib.cpp:210-261 | the object of a wire message, or none exactly for the operations without a case |
| Messages.MessageIsWellFramed | WindowsProtobufLib/protobufLib.cpp:145-208 | a message that is sent reaches the decoder's queue as the same operation, body and description |
| Messages.CounterIsUnused | WindowsProtobufLib/protobufLib.cpp:250-251 | what is made of a wire message does not depend on the process-local counter, if and only if its id is not -1 or nothing is made of it |
| Messages.ParsedAlike | WindowsProtobufLib/protobufLib.cpp:274-283 | so a serialized message whose id is not -1 is parsed alike however far the counter has got |
| EventLog.Resume | ClientServiceServer/database.cpp:246-267 | reading again above the greatest stored id continues a stored prefix without gap or repetition |
| EventLog.MaxRidBounds | ClientServiceServer/database.cpp:246-267 | the running maximum bounds every id and is one of them |
| EventLog.FromHolds | WindowsClientService/event.cpp:223-238 | the filter keeps exactly the events with an id of at least the watermark |
| ProtocolOrder.FilterIsHarmless | WindowsClientService/event.cpp:229-232 | with any watermark between the first one and one more than the last id sent, the filter keeps of the events behind the cursor what the first watermark would keep, and only ones above those that were sent |
| ProtocolOrder.NothingLost | WindowsClientService/event.cpp:223-238 | so if what was sent is all that the first watermark keeps of what was read, it still is after a batch whose events are all rendered |
| ProtocolOrder.SendKeeps | WindowsClientService/event.cpp:275-314 | a send keeps the session's invariant, whether reading fails in it or not |
| ProtocolOrder.ServerReadsKeeps | ClientServiceServer/client.cpp:78-106 | the server's dispatch keeps it |
| ProtocolOrder.ClientReadsKeeps | WindowsClientService/event.cpp:365-386 | the client's dispatch keeps it |
| ProtocolOrder.WatermarksInRange | ClientServiceServer/client.cpp:22-52 | in every run, failing reads included, once the server has computed a session's first watermark: all RETURN and ACCEPT values under way, and one more than the server's last id, lie between that watermark and one more than the last id sent, and below 2^31; so does the client's watermark once it has it, and then what was sent are events read so far, each once, in order, none below the first watermark; before, nothing was sent |
| ProtocolOrder.HandshakeFirst | WindowsClientService/event.cpp:355-374 | in every run, batches are sent only after a watermark of at least 1 has arrived, and by then no RETURN is under way, so it is set once |
| ProtocolSignals.UploadGoesSecond | WindowsClientService/event.cpp:277-306 | in every run: if the upload signal is about to be reset while that of the subscription is set, an event was logged since the send |
| ProtocolSignals.UploadOutlastsReset | WindowsClientService/event.cpp:277-306 | from every state in which both signals are set and the upload signal is not about to be reset, whatever else happens in the session: the upload signal outlasts the next reset |
| ProtocolSignals.FirstResumes | WindowsClientService/event.cpp:365-374 | after any sequence of messages with watermarks, the sender of a new process has been resumed if and only if the first one was a RETURN |
| ProtocolSignals.FirstReturnTells | WindowsClientService/event.cpp:367-374 | of any number of RETURNs only one that comes before every other watermark has an effect |
| ProtocolSignals.LastAcceptTells | WindowsClientService/event.cpp:375-386 | after any sequence of messages with an acceptance, the watermark is that of the last acceptance and the upload signal is set |
| ProtocolSignals.LastIdIsExact | ClientServiceServer/client.cpp:80-102 | in every run the last id that the server keeps for a session is that of the last event it has received in it, or of the last one stored before, and 1 before the query |
| ProtocolSignals.AcceptanceArrives | ClientServiceServer/client.cpp:33-46 | in every run: once the client has read the acceptance that an insertion sends, its watermark is one more than that id at the time of the insertion, and its upload signal is set |
| ProtocolStorage.SendMissesNothing | WindowsClientService/event.cpp:201-249 | if every event is rendered, what a session has sent is exactly what its first watermark keeps of what it has read |
| ProtocolStorage.ExactlyOnce | ClientServiceServer/database.cpp:116-153 | in every run in which queries wait for earlier insertions, insertions neither overtake nor abort, and every event is rendered, with any sessions, losses, new events, failures of `EvtNext` and cuts of the channels, the rows are the log's events up to the greatest stored id, each once, in order |
| ProtocolStorage.SessionContinues | WindowsClientService/event.cpp:263-270 | a session that resumes above the stored events and reads the log from its start sends what follows them |
| ProtocolUnique.NeverTwice | ClientServiceServer/database.cpp:125-150 | in every calm run, aborts and any order of insertions included, no id is stored twice |
| ProtocolProgress.NeverStalled | WindowsClientService/event.cpp:275-314 | in every run that is safe for both signals, in which no read of the server completes two messages, every event is rendered and `EvtNext` does not fail but with 30: while an event is unread, a signal is set that is not about to be reset, or a full batch, its insertion or its acceptance is on its way, and the programs do not come to rest |
| ProtocolProgress.RestingIsExact | WindowsClientService/event.cpp:277-314 | in every reachable state of a session, resting is the state in which no step of the two programs is possible |
| ProtocolProgress.WakeupReads | WindowsClientService/event.cpp:213-240 | a wakeup with unread events reads some, all of them unless 30 are read; it asks for acceptance only if 30 are read, and does if they are all rendered |
| ProtocolProgress.BatchIsExact | WindowsClientService/event.cpp:201-249 | a batch holds, of the events from the cursor on, up to the thirtieth or the first that cannot be rendered, those that the watermark lets through; it asks for acceptance if it took 30 or if the status is 30; the cursor moves behind all that was delivered |
| ProtocolProgress.DrainCount | WindowsClientService/event.cpp:285-299 | with n events unread, one wakeup pending and no new ones, every schedule, however its reads are cut, that loses no acceptance, in which no reading fails, and which comes to rest, has sent n / 30 full batches that ask for acceptance and one short one that does not, and has read everything |
| ProtocolEnding.StepLeavesLess | WindowsClientService/event.cpp:277-314 | in every state, every step of the two programs leaves less to do, but for a send in which `EvtNext` fails with 30 |
| ProtocolEnding.SchedulesEnd | WindowsClientService/event.cpp:376-383 | from every state, however the programs are scheduled, their reads cut, and their readings fail otherwise, they take no more steps than there is left to do |
| ProtocolEnding.AllStoredAtRest | ClientServiceServer/database.cpp:116-153 | in every run in which nothing goes wrong, whenever the programs rest in a session, the rows are the whole log, each event once, in order |
| ProtocolEnding.LogIsStoredInTheEnd | ClientServiceServer/client.cpp:22-52 | from every state of a session that such a run reaches, steps of the programs lead to rest with the whole log stored |
| ProtocolLimits.DistinctIffCalm | ClientServiceServer/client.cpp:22-52 | no id is stored twice in any run if and only if queries wait for the insertions of earlier sessions |
| ProtocolLimits.ExactIffStoresAll | ClientServiceServer/database.cpp:147-150 | the rows have no gap in any run if and only if, moreover, no insertion overtakes another, none aborts, and every event is rendered |
| ProtocolLimits.MovingIffSafe | WindowsClientService/event.cpp:285-306 | the programs come to rest with an event unread in no run if and only if no event is logged while the subscription's signal is about to be reset, no acceptance is handled while the upload signal is about to be reset, no read of the server completes two messages, `EvtNext` does not fail with a status other than 30, and every event is rendered |
| ProtocolLimits.CompleteIffNothingFails | ClientServiceServer/client.cpp:22-52 | whenever the programs rest the whole log is stored, in every run, if and only if all these conditions and those of the row on gaps hold |
| ProtocolLimits.EndsIffNoThirty | WindowsClientService/event.cpp:213-248 | from every reachable state the programs take a bounded number of steps if and only if `EvtNext` does not fail with the status 30 |
| ProtocolLimits.StatusThirtyGoesRound | WindowsClientService/event.cpp:285-296 | the round that a status of 30 makes: an empty batch asks for acceptance, and its acceptance wakes the sender |
| ProtocolLimits.LostWakeup | WindowsClientService/event.cpp:302-303 | the run in which the subscription's signal is lost |
| ProtocolLimits.LostAcceptance | WindowsClientService/event.cpp:304-306 | the run in which an acceptance is lost: it is handled between the send and the reset of the upload signal |
| ProtocolLimits.StuckBatch | ClientServiceServer/client.cpp:61-69 | the run in which a short and a full batch arrive in one read, and the full one stays in the decoder's queue |
| ProtocolLimits.UnrenderedStalls | WindowsClientService/event.cpp:225-248 | the run in which 30 events are passed over, no acceptance is asked for, and one event stays unread |
| ProtocolLimits.FailedReadStalls | WindowsClientService/event.cpp:213-220 | for every status but 30, the run in which `EvtNext` fails with it and the event stays unread |
| ProtocolLimits.UnrenderedLeavesGap | WindowsClientService/event.cpp:225-248 | the run in which an event that cannot be rendered is passed over and the next one stored |
| ProtocolLimits.AbortLeavesGap | ClientServiceServer/database.cpp:147-150 | the run in which an aborted transaction leaves a gap |
| ProtocolLimits.OvertakingLeavesGap | ClientServiceServer/client.cpp:30-46 | the run in which an insertion that overtakes another leaves a gap |
| ProtocolLimits.LateInsertion | ClientServiceServer/client.cpp:99-103 | the run in which an insertion of a lost session runs too late and its event is stored twice |
| Handlers.EventForwardHandler.constructor | WindowsClientService/event.cpp:336-345 | watermark 0, only the subscription signal set, sender suspended |
| Handlers.EventForwardHandler.EnumerateResults | WindowsClientService/event.cpp:201-249 | what is read, what is appended and what is returned, on all four exits: a failure of EvtNext, no event, an event that cannot be rendered, and the end of the loop |
| Handlers.EventForwardHandler.Collect | WindowsClientService/event.cpp:223-238 | the loop appends what the watermark lets through, up to the first event that cannot be rendered |
| Handlers.EventForwardHandler.SendBatch | WindowsClientService/event.cpp:285-300 | the first part of an iteration is the protocol's send, whether reading fails or not; the upload signal is the one to be reset if and only if that of the subscription was clear, and neither is changed |
| Handlers.EventForwardHandler.ResetSignal | WindowsClientService/event.cpp:302-306 | the second part resets the signal that was waited for |
| Handlers.EventForwardHandler.GetProtobufPackage | WindowsClientService/event.cpp:365-386 | the method is the protocol's reading of a message by the client |
| Handlers.Database.InsertWindowsEvents | ClientServiceServer/database.cpp:116-153 | all the rows or none, none exactly if a statement or the commit fails; other clients' rows stay; nothing is counted |
| Handlers.Database.GetLastEventRecordID | ClientServiceServer/database.cpp:246-267 | the loop finds the greatest id among the client's rows, or 0 |
| Handlers.ServerClient.constructor | ClientServiceServer/clientServer.h:140-146 | a connection starts with last id 1 |
| Composition.SameMeaning | WindowsProtobufLib/protobufLib.cpp:210-261 | either side dispatches on the object that arrives as on the one that was sent |
| Composition.SendIsCarried | ClientServiceServer/uv.cpp:178-194 | a message written to a socket that carries a channel of the protocol is added to that channel |
| Composition.PlainlyForgetsSeverity | WindowsProtobufLib/protobufLib.h:318-376 | events are the same for the protocol if and only if they agree in everything but severity |
| Composition.SerializedIsPackage | WindowsProtobufLib/protobufLib.cpp:145-208 | serializing and framing a message that is not a refusal gives a package of it, as the rows below use it |
| Composition.ConnectIsCarried | WindowsClientService/network.cpp:52-63 | a CONNECT written on a new socket is what the protocol's connecting sends |
| Composition.QueryIsCarried | WindowsClientService/event.cpp:355-363 | a QUERY_LAST_EVENT is what the protocol's client answers to a CONNECT |
| Composition.BatchIsCarried | WindowsClientService/event.cpp:292-299 | an UPDATE_LOG with the events of its batch is what the protocol's send sends |
| Composition.AnswerIsCarried | ClientServiceServer/client.cpp:92-98 | a CONNECT is what the protocol's server answers to a CONNECT |
| Composition.ReturnIsCarried | ClientServiceServer/client.cpp:99-103 | a RETURN_LAST_EVENT of one more than the greatest stored id is what it answers to a query |
| Composition.AcceptIsCarried | ClientServiceServer/client.cpp:38-41 | an ACCEPT_LAST_EVENT of one more than the last id is what an insertion that was asked for acceptance sends |
| Composition.ReadByOperation | ClientServiceServer/client.cpp:78-106 | the server's answers and queued work, by the operation of the message that was handled |
| Composition.ClientReadByOperation | WindowsClientService/network.cpp:75-82 | what the client does, by the operation of the message that was handled |
| Composition.DeliveryIsRead | WindowsProtobufLib/protobufLib.cpp:388-456 | every delivery on such a socket succeeds and is a read of the protocol that completes as many messages as are decoded and handles the first message of the channel; or nothing has been decoded, and nothing is handled |
| Composition.UpDelivery | ClientServiceServer/client.cpp:61-69 | a delivery at the server is the protocol's reading by the server |
| Composition.DownDelivery | WindowsClientService/network.cpp:70-87 | a delivery at the client is the protocol's reading by the client |
| Composition.ReadFromNetwork | ClientServiceServer/client.cpp:61-112 | the read, the pop and the dispatch, on the octets of any delivery and on the decoder object: no assertion of the decoder fails, and the objects show the protocol's state after its read; a handled CONNECT, QUERY_LAST_EVENT or UPDATE_LOG, named by its operation, is answered or queued as the switch says, and no other message is handled |
| Handlers.ServerClient.Dispatch | ClientServiceServer/client.cpp:78-106 | the dispatch sets the last id, the work queue and the answers as the protocol's reading does |
| Handlers.ServerClient.RunInsertion | ClientServiceServer/client.cpp:33-46 | the work item is the protocol's insertion, with an abort exactly if the transaction fails, and leaves other clients' rows alone |
| Decimal.ValueOfDigits | ProtobufSendingTest/notify.cpp:616 | reading the printing of any number gives the number; it has no leading zero |
| Decimal.RunIsPrinted | ProtobufSendingTest/notify.cpp:616 | every run of digits is the printing of a number behind zeros |
| Decimal.WtoiReads | ProtobufSendingTest/notify.cpp:616 | so every run of digits is read as its number, or as 2^31 - 1 if that is less, whatever zeros stand in front |
| Decimal.LongRunsOverflow | ProtobufSendingTest/notify.cpp:616 | a run of more than ten digits without leading zero is read as 2^31 - 1 |
| Decimal.WtoiInstance | ProtobufSendingTest/notify.cpp:528-531 | "4096" is read as 4096 |
| Substitution.CountIsExact | ProtobufSendingTest/notify.cpp:551-554 | the counted length of the arrays is the number of parameters |
| Substitution.SubstIsAssembled | ProtobufSendingTest/notify.cpp:658-678 | the segments between the parameters with the texts between them are the one-pass recursive substitution |
| Substitution.SubstNotFound | ProtobufSendingTest/notify.cpp:629-636 | if the string of any parameter is missing, the one-pass substitution has no result either |
| Substitution.SubstFillsPieces | ProtobufSendingTest/notify.cpp:520-531 | every message in which a digit follows each percent sign consists of texts without percent sign and printed numbers between them, and the one-pass substitution is the texts with the string of each number between them |
| Substitution.QuartsInGallons | ProtobufSendingTest/notify.cpp:528-531 | the example in the comments: "8 %4096 = 2 %4097." becomes "8 quarts = 2 gallons." |
| Substitution.AssembledLength | ProtobufSendingTest/notify.cpp:644-654 | the buffer's computed size is that of the result and of the parameters that are replaced |
| Substitution.CountParameters | ProtobufSendingTest/notify.cpp:551-554 | the first pass counts the percent signs |
| Substitution.FindRound | ProtobufSendingTest/notify.cpp:611-625 | on any message, a round records the parameter that starts at the cursor, if one does, and moves the cursor behind it, or else leaves it |
| Substitution.FindParameters | ProtobufSendingTest/notify.cpp:610-625 | the second pass fills the three arrays, exactly to their length, with start, end and number of each parameter; after n rounds it stands at `Cursor(msg, n)` |
| Substitution.SecondPassEnds | ProtobufSendingTest/notify.cpp:611-625 | the rounds of the second pass reach the end of the message if and only if a digit follows every percent sign |
| Substitution.StandsStill | ProtobufSendingTest/notify.cpp:611-625 | on "100%" the second pass is at the percent sign after any number of rounds |
| Substitution.FetchTexts | ProtobufSendingTest/notify.cpp:629-639 | the strings of all parameters and their total length, or a parameter without one |
| Substitution.CopyString | ProtobufSendingTest/notify.cpp:661-671 | a bounded copy that fits appends the text and a terminator |
| Substitution.BuildMessage | ProtobufSendingTest/notify.cpp:658-678 | the bounded copies are never refused, the capacity does not underflow, and the buffer ends up with the assembled text and its terminator |
| Substitution.ApplyParameterStringsToMessage | ProtobufSendingTest/notify.cpp:532-699 | nothing is built exactly if there is no percent sign; the message is kept, with an error, exactly if a string is missing; otherwise the new buffer holds the one-pass substitution |
| Substitution.InsertStrings | ProtobufSendingTest/notify.cpp:500-503 | the i-th argument is the place of the i-th string of the block |
| Smbios.EndOfStrings | WindowsProtobufLib/utils.cpp:234-236 | the first double zero behind the formatted area is the end of the string set |
| Smbios.PassStructure | WindowsProtobufLib/utils.cpp:232-236 | a round of the walk passes exactly one structure |
| Smbios.WalkIsExact | WindowsProtobufLib/utils.cpp:222-237 | on every well-formed table the walk stops at the first system information structure, before the bound on its rounds; without one it leaves the table |
| Smbios.NoSystemLeavesTable | WindowsProtobufLib/utils.cpp:222-237 | a table of structures without system information is read past its end |
| Smbios.UuidOfFirstSystem | WindowsProtobufLib/utils.cpp:217-237 | for every well-formed table with a system information structure: the read of 16 octets at offset 8 of the first one stays inside the table exactly if the table has them; then the result is none exactly if they are all 0x00 or all 0xFF, and else their text, with the first three fields swapped if the major version is below 128 and the version 2.6 or later, and with a leading dash otherwise; and they are the structure's own if it has 24 octets |
| Smbios.TextKeepsTheUuid | WindowsProtobufLib/utils.cpp:130-169 | reading the text gives back the octets, the first three fields swapped since version 2.6; the text has 36 characters, or 37 with the leading dash before 2.6 |
| Smbios.DashesOfDashed | WindowsProtobufLib/utils.cpp:133-134 | the text has dashes at the places 8, 13, 18 and 23, and at no others |
| Smbios.SwappedNumbers | WindowsProtobufLib/utils.cpp:135-150 | the swap turns the first three numbers of the UUID, stored with the least significant octet first, into the order of printing, and leaves the other octets |
| Smbios.VersionOrder | WindowsProtobufLib/utils.cpp:226-227 | the test of the version is that of major and minor version: at least 2.6; a major version of 128 or more is a negative number and counts as old |
| Smbios.UnsetValues | WindowsProtobufLib/utils.cpp:120-122 | an unset UUID is one of two values: 16 octets 0x00 or 16 octets 0xFF |
| Smbios.TestUnset | WindowsProtobufLib/utils.cpp:110-118 | the loop, which stops early, tells exactly whether the UUID is unset |
| Smbios.DmiSystemUuid | WindowsProtobufLib/utils.cpp:109-171 | no result exactly for an unset UUID, although the loop stops early; otherwise a buffer with the whole text and a terminator |
| Smbios.FindPair | WindowsProtobufLib/utils.cpp:234-235 | the inner loop finds the first two zero octets in a row, or would read past the table exactly if there are none |
| Smbios.FindSystem | WindowsProtobufLib/utils.cpp:222-237 | the loop gets where the walk gets, on every table |
| Smbios.GetDMIUUID | WindowsProtobufLib/utils.cpp:189-241 | on any contents of the buffer: exactly when the function would read past the table; otherwise a result exactly if both calls report success, the length field is right and the walk finds a set UUID, and then its text, which starts with a dash exactly if the version octets of the buffer say so |

## Left out

- Foreign code: libuv, sockets, the Win32 event log, libpqxx, SHA-256, zlib and protobuf's wire encoding are parameters or contracts.
- Frames.FrameRoundTrip: messages of 0 or of 2^32 and more octets are outside, because an empty payload is not recognized and the size words hold 32 bits; `Frames.Truncate32` keeps the truncation in `Frame`.
- Decoder.ProtobufPacketDecoder.ReadData: a build without assertions, which would queue a null object where one fails, is not modelled; neither is running out of memory.
- Decoder.ProtobufPacketDecoder.Read: the empty read after a header that announces an empty payload is excluded; that it diverges is `CutAfterEmptyFrameHeader`.
- Composition.ReadFromNetwork: the sending of the server's answers is that of `SendQueue`; the two channels of a connection are followed one at a time.
- Network.DeliveryInOrder: it follows one socket at a time through the shared queue; failed writes and lost connections end a run.
- Messages.MessageIsWellFramed: the next process-local id is one number for all parses, whereas the library counts up; `CounterIsUnused` says for which messages that matters.
- Messages.ObjectRoundTrip: severity and operating system are stated as they come out, not as equal.
- Refusals have no case in the operation table and cannot be received; their sending is left out.
- The test of the database connection at `ClientServiceServer/client.cpp:71`, and clients that the database does not know.
- Handlers.ServerClient.RunInsertion: the transaction and the acceptance after it are one step.
- Database errors other than those of a statement or a commit.
- Several sessions of one client at the same time, and a client process that reconnects.
- Record ids of 2^31 - 1 and more; the log's ids increase.
- The XML table, severity in the rows, the cache of clients, and the map of connections.
- Timestamps, computer names, configuration, connection retry, read errors and shutdown.
- Substitution.ApplyParameterStringsToMessage: messages in which a digit does not follow every percent sign are excluded, since the second pass does not end on them (`SecondPassEnds`); out-of-memory branches are not modelled.
- Smbios.GetDMIUUID: what the source finds where it reads past the table is not modelled; the result `outside` stands for it.
- The machine id that is computed from the UUID and the product id.
