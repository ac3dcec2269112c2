# A verified model of an iSCSI target

The repository is an iSCSI target (RFC 3720) written in C. One process serves one connection with two threads: a
receiver thread that turns TCP chunks into PDUs, dispatches them and appends responses to a buffer, and a transmitter
thread that sends what the buffer holds. This project models that code in Dafny and proves what it keeps over whole
runs.

The model has two layers.

* **Values.** `Model.Step` is the dispatcher as a function from a state and a request to the next state: connection,
  session, transfer entry, device and every byte appended to the response stream. `Runs.Run` iterates it. The theorems
  about writes, reads, tags, numbering and sessions are about these runs. `Transmit` is the interleaving model of the
  two threads, `Reassembly` the stream of chunks.
* **Objects.** `Buffer`, `Parameter`, `TransferEntry`, `Target`, `Session` and `Connection` are classes with the
  fields and the byte arrays of the C structures. The handlers change them in place: responses are filled field by
  field in a reserved region of the buffer, login text is scanned with every `=` overwritten by NUL and put back, the
  buffer is shifted to the front. Each handler is proved to do exactly what its function in `Model` says, up to
  `Server.Process` for `Step` and `ReceiverThread.ReceiveAll` for a whole run, so the theorems hold of the objects.

The theorems about runs hold from a fresh process on: `FreshProcess` derives what they ask of their first state, and
`ConcreteLogin` and `Counterexamples` build the runs of a fresh process, byte by byte, in which promises fail.

| file | content |
|---|---|
| Bytes, Pdu | C integers, big-endian codecs, header fields, framing, encoding and parsing of responses |
| Buffer, Decimal, Lookup, Parameter | the bounded byte queue, decimal conversion, the key automaton, the parameter object |
| Negotiation, GeneratedText, LoginEndToEnd, NegotiatedValues | the text scan, the printed answer, an operational login from both sides, each parameter's value |
| Model, Runs | the state machine and its runs |
| R2tPlan, Transfers, EndToEndWrite, WriteCompletes, StaleEntry, ImmediateData, Reordering, Tags, Origins | the write path, and where executions come from |
| ReadPath, Numbering, Misframing | Data-In, the response stream and where it breaks |
| Reporting, OtherAnswers, LoginAnswers | what the initiator reads in answer to each request, field by field |
| SessionSafety, UnsetSessions, LastLogin, Discovery, NumberingGate | sessions, their kind and parameters, and the numbering gate |
| Transmit, Reassembly, Room, InitiatorView | the two threads on the response buffer, the receive buffer |
| FreshProcess, ConcreteLogin, Counterexamples | the theorems from a fresh process, and concrete failing runs |
| Objects, Fields, Responses, CopiedReplies, Handlers, LoginHandler, Server, ReceiverThread | the handlers on the objects |

`dafny verify dfyconfig.toml` checks everything.

## Where the code does something unexpected

The model follows the code; these are results about it. Where a promise fails there is an input for which it does and
a theorem that says when it holds.

* ImmediateData=Yes is announced, and not a byte of immediate data is ever copied. A write with R2Ts shows the device
  what the transfer entry held before in its place, possibly an earlier write (`StaleEntry.DeviceSeesStaleFront`), and
  the initiator's bytes from there on (`EndToEndWrite.WriteReachesTheDevice`). A write that brings all of its data runs
  at once on the device buffer as it is (`ImmediateData.WholeWriteRuns`). So the device gets the transfer exactly when
  the write may run and the immediate data was there already, in the entry or in the device buffer
  (`ImmediateData.DeliveredIff`); and whatever the data exactly when the command carries none of it and all its R2Ts
  may be outstanding (`ImmediateData.AlwaysDeliveredIff`). Two bytes 7, 9 with the 7 immediate arrive as 0, 9
  (`Counterexamples.ImmediateByteIsLost`), a single immediate 7 as 0 (`Counterexamples.WholeWriteIsLost`).
* A write whose R2Ts may not all be outstanding at once never runs: the counters that would trigger more R2Ts are
  never set (`EndToEndWrite.WriteRunsIff`). Eleven bytes asked for one by one are never written
  (`Counterexamples.ElevenBytesStarve`).
* The transfer entry is not removed, so a repeated last Data-Out runs the command again
  (`EndToEndWrite.EveryLastAnswerFires`, `Counterexamples.EveryWriteCanFireTwice`, `Counterexamples.OneByteTwice`).
* The entry answers to tag 0 before any write: a Data-Out with tag 0, offset 0 and no data then runs sixteen zero bytes
  as a command nobody gave (`Counterexamples.StrayDataOutRuns`). Every execution belongs to a SCSI command of the run
  exactly if that does not happen before the first write with R2Ts (`Origins.ExecutionsAreOrderedIff`).
* Every Login starts again from the defaults, so the parameters are those of the completing one alone
  (`LastLogin.ParametersAreTheLastLogins`). Keys of earlier Logins count exactly when it repeats those that moved
  something (`LastLogin.EarlierKeysCountIff`, `Counterexamples.SecondLoginForgets`).
* A read reports GOOD whatever the device answered, and one the device did not execute returns the old buffer. What is
  reported is what happened exactly for successes with status 0 (`ReadPath.ReadIsHonestIff`,
  `Counterexamples.FailedReadLooksGood`).
* A Login without TargetName is refused with its session attached already (request/login.c:103-120), and only an
  unattached connection is set up (request/login.c:281): the next completing Login, even without keys, enters
  full-feature phase. This and nothing else enters it without a set-up (`UnsetSessions.EnteredWithoutSetUpIff`,
  `Counterexamples.UnsetSessionEnters`).
* A receive buffer that fills up stays full, since the thread that waits for room is the one that empties it. Chunks of
  at most 48 bytes never get there (`Room.SmallChunksHaveRoom`); chunks of five header-only PDUs do at the 21846th
  (`Room.FiveAtATimeBlock`).
* One call handles one PDU, so two PDUs that end in one chunk leave the receiver behind: exactly the splits in which
  no chunk completes two frames keep up (`Reassembly.KeepsUp`), all chunks of up to 48 bytes do, and 49 do not
  (`Reassembly.FortyNineBytesFallBehind`).
* Responses that keep the request's data length (refused and partial Logins, the Text echo), and NOP-Ins with data that
  needs padding, are not whole PDUs (`Numbering.CopiedReplyIsFramedIff`, `Numbering.NopReplyIsFramedIff`). They are
  held back until enough follows, and then the beginning of the next response is read as their end
  (`Misframing.RefusalSwallows`, `Misframing.EchoSwallows`): a refusal of a Login with 36 bytes of text is never sent
  on its own and takes the first 36 bytes of the next answer (`Counterexamples.RefusalIsHeldBack`,
  `Counterexamples.RefusalSwallowsAnswer`), and the echo of one byte is not sent either (`Counterexamples.EchoIsHeldBack`).
* `string_to_int` reads '-' as the digit -3 and `int_to_string` prints a negative number as the empty string, so
  answering is a fixed point exactly when no printed number is negative (`GeneratedText.GeneratingIsFixedPoint`);
  MaxConnections=-5 negotiates -25 (`Counterexamples.NegativeNumberIsNoFixedPoint`).
* A Logout response carries no task tag and ends nothing: the session stays in full-feature phase
  (`OtherAnswers.LogoutIsAnswered`). A Text request is taken as continued by bit 1 of byte 2 (request/text.c:17), which
  RFC 3720 reserves, and Text responses carry the request's numbers (`OtherAnswers.TextIsAnswered`).
* A final Login that asks for any transition but to full-feature phase is answered with status 0x0200 and its session
  goes on (`LoginAnswers.FinalLoginIsAnswered`).
* `valid_command_numbering` lets every PDU pass that carries a CmdSN and gates the others, against its own comment
  (iscsi_server.c:19). None of them is ignored exactly when they all show one value (`NumberingGate.NoneIgnoredIff`). The immediate getter reads the top bit of byte 0 (iscsi_pdu.h:39-41), not the I bit.
  Booleans are printed "YES" and "NO" and read as "Yes" (iscsi_connection_parameter.c:38, 69).
* A final Login in stage 2 yields -1, which the receiver thread reads as SOCKET_TERMINATE (request/login.c:250,
  main.c:114-116): the connection closes.

## Model

| member | source | states |
|---|---|---|
| Bytes.Int32RoundTrip | iscsi_byte.h:15-27 | reading back four bytes written by `iscsi_byte_int2byte` gives the value wrapped to a C int |
| Bytes.Nat24RoundTrip | iscsi_pdu.h:113-117 | a data segment length below 2^24 is read back as written |
| Bytes.WithBit | iscsi_byte.h:10-13 | of the eight bits, the one named gets the wanted value and the others keep theirs |
| Bytes.DivideRoundUpIsCeiling | iscsi_utility.c:3-5 | the quotient is the ceiling |
| Pdus.FramesRebuild | iscsi_pdu.h:51-73 | the frames of any byte stream and its incomplete rest are the stream |
| Pdus.FramesOfFlatten | iscsi_pdu.c:17-19 | whole frames in front of a stream come out unchanged and do not disturb the framing of the rest |
| Pdus.EncodeDecode | iscsi_pdu.h:100-130 | every field of a response can be read back from its bytes, which are one whole frame |
| Pdus.ParseEncodeAll | iscsi_pdu.h:55-73 | parsing a printed list of responses gives the list back, and nothing is left over |
| Buffers.Buffer.constructor | iscsi_buffer.c:9-12 | a new buffer of the full size, empty |
| Buffers.Buffer.Flush | iscsi_buffer.c:55-67 | the first n bytes leave, the rest moves to the front in order, and the stream of all bytes ever appended is unchanged |
| Buffers.Buffer.AcquireLockForLength | iscsi_buffer.c:20-35 | NULL for a length that can never fit; otherwise a cleared region behind the contents, which lose only what the other thread drains |
| Buffers.Buffer.ReleaseLock | iscsi_buffer.c:37-41 | the reserved bytes join the contents and the stream |
| Buffers.Buffer.Receive | iscsi_buffer.c:43-53 | the chunk is appended, or refused when it is longer than the buffer |
| Decimals.StringToInt | iscsi_utility.c:15-21 | the loop computes the wrapped decimal value of the C string |
| Decimals.IntToString | iscsi_utility.c:23-43 | both passes leave the NUL-terminated digits in the 20-byte buffer, the empty string for a negative number |
| Decimals.PrintParse | iscsi_utility.c:15-43 | for 0 <= n <= INT_MAX printing gives canonical digits that are read back as n |
| Decimals.ParsePrint | iscsi_utility.c:15-43 | a canonical digit string in range is printed again exactly as read |
| Lookup.ParameterGet | iscsi_connection_parameter.c:150-175 | the automaton returns the position after the first '=' of the first segment whose text before it is a prefix of the key, else NULL |
| Lookup.FindInWire | iscsi_connection_parameter.c:134-175 | on a printed list the lookup stops at the value of the first pair whose key is a prefix of the wanted one, and fails exactly if there is none |
| Lookup.EveryKeyIsFound | iscsi_connection_parameter.c:150-179 | with prefix-free keys and plain values every key finds its own first value |
| Negotiation.KeysPrefixFree | iscsi_connection_parameter.c:7-17 | none of the eleven names starts another |
| Negotiation.ScanWithinLimits | iscsi_connection_parameter.c:61-95 | whatever the text, every parameter stays within the target's own limit |
| Negotiation.ScanIsFold | iscsi_connection_parameter.c:121-131 | on the wire image of a list of pairs the scan is the left fold of the update over the pairs |
| GeneratedText.GeneratingIsFixedPoint | iscsi_connection_parameter.c:97-109 | generating the answer leaves the eleven parameters alone exactly when no printed number is negative |
| GeneratedText.AnswerRereads | iscsi_connection_parameter.c:97-132 | the answer, negotiated afresh, gives the ten printed parameters exactly under the same condition |
| Counterexamples.NegativeNumberIsNoFixedPoint | iscsi_utility.c:15-43 | MaxConnections=-5 negotiates -25, which prints as nothing: generating changes the parameters, and the answer is read as others |
| GeneratedText.AnswerKeysFound | iscsi_connection_parameter.c:97-109 | each of the ten generated keys is found in the answer, with its own value |
| GeneratedText.NumbersAreNotNegative | iscsi_utility.c:15-21 | digit strings that fit an int meet the condition |
| GeneratedText.NegotiationIsStable | iscsi_connection_parameter.c:61-132 | scan, limits, fixed point and re-reading together, for every list of pairs that sets no negative number |
| NegotiatedValues.NumberNegotiated | iscsi_connection_parameter.c:61-95 | each of the seven numbers of a list of pairs is the last one offered under its name, up to the target's limit or down to its minimum, or the default |
| NegotiatedValues.FlagNegotiated | iscsi_connection_parameter.c:66-83 | each of the four flags is on, whatever the text |
| NegotiatedValues.LoginTells | request/login.c:219-237 | from the Login to its response: the target keeps these values, and the response's text has each of the ten as digits, or as YES |
| ParameterObject.KeyEqual | iscsi_connection_parameter.c:27-35 | true exactly if the text at the pointer starts with the property |
| ParameterObject.UpdateInformation | iscsi_connection_parameter.c:61-95 | on C strings in memory, the update of all eleven fields |
| ParameterObject.Parameter.Write | iscsi_connection_parameter.c:55-59 | the C string is appended to the text |
| ParameterObject.Parameter.Update | iscsi_connection_parameter.c:142-148 | key, '=', value and NUL are appended and the fields updated by the pair |
| ParameterObject.Parameter.Generate | iscsi_connection_parameter.c:97-109 | the text is the wire image of the ten pairs of the old parameters, the fields their fold |
| ParameterObject.Parameter.Create | iscsi_connection_parameter.c:111-132 | the text is stored, the fields are its scan from the defaults, and the request bytes are exactly as received |
| ParameterObject.Parameter.ScanText | iscsi_connection_parameter.c:121-131 | the in-place loop computes the scan and restores every byte |
| Transmit.StepKeepsInv | main.c:137-153 | every atomic step of either thread keeps the invariant of the shared buffer |
| Transmit.EveryRunIsSafe | main.c:130-155 | in every interleaving: sent then unsent bytes are everything appended, in order; only whole PDUs are sent; one thread at most holds the lock; the length measured at the peek stays the head's until the flush, whose assertion holds |
| Transmit.SentThenUnsent | iscsi_buffer.c:55-67 | nothing is lost, duplicated or reordered, wherever the transmitter is |
| Transmit.WaitEnds | iscsi_buffer.c:20-35 | under every schedule, a producer short of room sees only boundedly many transmitter steps before there is room |
| Transmit.RequestIsServed | iscsi_buffer.c:20-41 | no deadlock: from every reachable state some run appends the waiting PDU |
| Reassembly.NothingLost | iscsi_connection.c:30-51 | for every split into chunks: PDUs delivered and backlog are the stream, the PDUs a prefix of its own framing |
| Reassembly.KeepsUp | iscsi_connection.c:38-48 | the receiver is up to date after every call exactly when no chunk completes two frames |
| Reassembly.SmallChunksKeepUp | iscsi_connection.c:38-48 | with chunks of at most 48 bytes every complete frame is delivered |
| Reassembly.FortyNineBytesFallBehind | iscsi_connection.c:38-48 | with 49 bytes, the second of any two header-only PDUs can stay behind |
| Room.SmallChunksHaveRoom | iscsi_buffer.c:20-53 | chunks of at most 48 bytes, of PDUs of at most the buffer less 48 bytes, always find room |
| Room.BurstsHaveRoomIff | iscsi_connection.c:30-51 | n chunks of j PDUs each always find room exactly when the last one does: (j - 1)(n - 1) + j PDUs fit the buffer |
| Room.FiveAtATimeBlock | iscsi_connection.c:30-51 | of chunks of 240 bytes, five header-only PDUs each, 21845 find room and the next one does not |
| R2tPlan.PlanIsContiguous | request/cmd.c:109-122 | R2TSN 0, 1, ..., each range of 1 to max bytes, each starting where the one before ended |
| R2tPlan.PlanCovers | request/cmd.c:109-122 | a byte is asked for exactly when it lies between the start and the end of the plan, and then once |
| R2tPlan.WriteAsksOnce | request/cmd.c:76-122 | min(MaxOutstandingR2T, ceiling) R2Ts that ask for the bytes from dsl to min(total, dsl + k max) once each, for the whole rest exactly when MaxOutstandingR2T is at least the ceiling |
| Transfers.AnswerStep | request/data_out.c:34-54 | an answer's bytes are in the entry, earlier ones stay, and the command runs exactly if it ends the transfer |
| Transfers.BystanderStep | iscsi_server.c:72-94 | other traffic leaves the entry alone and runs no transfer |
| EndToEndWrite.WriteStarts | request/cmd.c:84-126 | the bytes of a write command parse as R2Ts for the plan with the new tag; the entry is set up; nothing has run |
| EndToEndWrite.WriteFiresOnce | request/data_out.c:41-54 | for answers in any order and overlap, the last coming when all bytes are covered: no execution before it, exactly one with it, on the initiator's data |
| EndToEndWrite.WriteReachesTheDevice | request/cmd.c:67-126 | from the command to the device: in-order answers to the R2Ts read off the wire, among other traffic, fire the command once, at the last answer, with the initiator's data from dsl to total |
| StaleEntry.DeviceSeesStaleFront | iscsi_session.c:59-64 | under the same premises: below dsl the device sees what the entry held before the command |
| ImmediateData.WholeWriteRuns | request/cmd.c:128-145 | a command without R2Ts, so a write that brings all its data, adds one execution on the device buffer as it was |
| ImmediateData.DeliveredIff | request/cmd.c:84-145 | over all writes of at least one byte: the device gets the data, in one execution, exactly when the write may run and the immediate part was there already, in the entry if there are R2Ts, in the device buffer if there are none |
| ImmediateData.AlwaysDeliveredIff | request/cmd.c:84-145 | and gets it whatever the data, over all commands with the same header and all that may follow, exactly when the command carries none of it and all its R2Ts may be outstanding |
| Counterexamples.ImmediateByteIsLost | request/cmd.c:99-107 | a fresh process, one Login, one write of the bytes 7, 9 with the 7 immediate: the device runs on 0, 9 |
| Counterexamples.WholeWriteIsLost | request/cmd.c:128-145 | a fresh process, one Login, one write of the byte 7, brought by the command: the device runs on 0 |
| EndToEndWrite.StarvedWriteNeverFires | request/data_out.c:69-91 | a write that needs more R2Ts than may be outstanding never runs |
| EndToEndWrite.WriteRunsIff | request/cmd.c:94-97 | for an initiator that answers what it is asked, the write runs once or never, depending on MaxOutstandingR2T alone |
| EndToEndWrite.EveryLastAnswerFires | request/data_out.c:47-59 | the number of executions is the number of Data-Outs that end the transfer |
| WriteCompletes.DataOutReads | request/data_out.c:34-45 | the Data-Out built for a range is one whole PDU from which tag, offset, length and data are read as built |
| WriteCompletes.EveryWriteHasAnExchange | request/data_out.c:15-59 | for every write that starts: one Data-Out for each R2T read off the wire is an exchange, and it fires the command once if all R2Ts may be outstanding and never otherwise |
| Counterexamples.ElevenBytesStarve | request/cmd.c:94-97 | a fresh process, one Login with MaxRecvDataSegmentLength=1, eleven bytes written: the ten R2Ts are answered and the command never runs |
| Counterexamples.EveryWriteCanFireTwice | request/data_out.c:47-59 | every write that may run has an exchange after which its last Data-Out, sent again, runs the command again |
| Counterexamples.OneByteTwice | request/data_out.c:47-59 | the same on a fresh process: one byte written, its Data-Out sent twice, two executions |
| Reporting.WriteIsReported | request/cmd.c:43-65 | a completed write is answered: the last answer of an exchange sends exactly one SCSI response with its task tag and the device's response, status and sense, no other answer sends anything |
| Reporting.AnswerIsReported | request/data_out.c:47-59 | the same for one Data-Out of any write in progress, and the device buffer it leaves |
| Reporting.CommandIsReported | request/cmd.c:128-146 | a command that neither reads nor has R2Ts is answered by exactly one such response, and leaves the device's buffer |
| Reporting.R2tsOnTheWire | request/r2t.c:17-41 | the R2Ts of a write as the initiator reads them, field by field |
| Reporting.FollowUpOnTheWire | request/data_out.c:69-91 | a Data-Out in a transfer that is due another R2T is answered by it, with the entry's number and offset |
| R2tPlan.PlanAfterFirstBurst | request/cmd.c:85-92 | with InitialR2T off the R2Ts start where min(FirstBurstLength, expected length) ends |
| Reordering.StoringCommutes | request/data_out.c:41-45 | non-overlapping pieces leave the same entry in any order |
| Reordering.OrderDoesNotMatter | request/data_out.c:41-59 | permuting them changes neither what has run or been sent, nor the state after whatever follows |
| Tags.TagsIncrease | iscsi_session.c:33-35 | below the wrap-around, every command raises the counter by one, R2T write tags strictly increase, the entry carries the latest and never exceeds the counter |
| Tags.ForeignTagIsInert | request/data_out.c:20-33 | a Data-Out with another tag changes neither entry, responses nor device |
| Tags.SupersededTagIsInert | iscsi_session.c:37-43 | so does one with any tag handed out earlier in the run |
| FreshProcess.FreshSessionIsReady | iscsi_session.c:13-35 | after any run of a fresh process with fewer than 2^31 - 1 commands the entry's tag never exceeds the counter nor the counter the commands, and a logged-in normal session is ready for a write |
| FreshProcess.FreshTagsIncrease | iscsi_session.c:33-35 | the tag theorem from a fresh process, with no premise about the tags |
| FreshProcess.FreshWrite | request/cmd.c:67-149 | the write theorems from a fresh process, for every acceptable write of at least one byte of a logged-in normal session: it is carried out once, or never if it needs more R2Ts than may be outstanding; with R2Ts the device sees stale bytes below dsl and the initiator's from there on, without any its own buffer; all data always arrives exactly under AlwaysDeliveredIff's condition |
| Origins.ExecutionsAreOrderedIff | iscsi_session.c:37-43 | over every run of a fresh process with fewer than 2^31 - 1 commands: each execution has the CDB and the transfer of a SCSI command of the run exactly when no Data-Out with tag 0, offset 0 and no data is served before the first write with R2Ts |
| Origins.StrayRuns | request/data_out.c:20-54 | such a Data-Out adds one execution of the entry's initial CDB, on the device buffer as it is |
| Counterexamples.StrayDataOutRuns | request/data_out.c:20-54 | a fresh process, one Login, one such Data-Out: no command in the run, and the log is one execution of sixteen zero bytes |
| ConcreteLogin.FreshLogin | request/login.c:192-251 | a fresh process is logged in by one PDU with the three names and any harmless pairs, and has the parameters these negotiate; entry and device are untouched |
| SessionSafety.RunKeepsSound | iscsi_server.c:44-95 | attached sessions are created and have a target, commands have run only in full-feature non-discovery sessions, no follow-up R2T is due |
| SessionSafety.EnteredByLogin | request/login.c:192-251 | full-feature phase is entered by an accepted Login with C=0, T=1, NSG=3 and CSG 0 or 1 only |
| SessionSafety.CommandsNeedALogin | iscsi_server.c:58-94 | all of this for every run of a fresh process, and InitialR2T is on in full-feature phase |
| SessionSafety.NonZeroTsihIsRefused | request/login.c:121-144 | a first Login that names a session is refused as full and leaves the connection unattached |
| Discovery.AttachingLogin | request/login.c:97-120 | the session a first Login attaches is new, and a discovery session exactly if the Login's SessionType is Discovery |
| Discovery.DiscoveryRejects | iscsi_server.c:79-81 | in a discovery session every request but Logout and Text that passes the gate is answered by one Reject with reason 4, the device untouched |
| Discovery.DiscoveryLoginExecutesNothing | iscsi_server.c:79-81 | over every run after such a Login: nothing executes, and all of them are rejected so |
| Discovery.DiscoveryCommandIsRejected | request/login.c:111-112 | a fresh process, one Login with SessionType=Discovery: full-feature phase, and any SCSI command is rejected |
| LastLogin.ParametersAreTheLastLogins | iscsi_connection_parameter.c:111-132 | over runs from outside full-feature phase: the phase is entered exactly by the entering Login, a completing one, and the parameters are those of its text alone from then on |
| LastLogin.EarlierKeysCountIff | iscsi_connection_parameter.c:111-132 | the parameters are what all the Logins of the run together negotiate exactly when the completing one names again each parameter the earlier ones moved off its default |
| Counterexamples.SecondLoginForgets | request/login.c:268-276 | a fresh process, a Login with MaxRecvDataSegmentLength=1, which keeps it, and one without keys, which enters full-feature phase with the default |
| UnsetSessions.HalfLoginIsRefused | request/login.c:103-120 | a first Login with InitiatorName, a kind other than Discovery and no TargetName is answered with 0x0200 and leaves the connection attached |
| UnsetSessions.LaterLogin | request/login.c:281-294 | a Login of an attached connection enters full-feature phase exactly if it is a completing one, whatever its keys |
| UnsetSessions.EnteredWithoutSetUpIff | request/login.c:90-148 | over runs from an unattached connection: full-feature phase is reached without a set-up exactly when the first Login that attaches is such a half one and a completing one follows |
| Counterexamples.UnsetSessionEnters | request/login.c:281-294 | a fresh process, a Login without TargetName, a Login without keys: full-feature phase, and no set-up in the run |
| SessionSafety.NegotiationIsFrozen | iscsi_server.c:72-94 | full-feature phase is never left, and in it neither the session's kind nor any parameter changes |
| SessionSafety.GateIsTransparent | iscsi_server.c:16-41 | when all requests without a CmdSN show one value there, none is ignored, and ExpCmdSN changes once at most, to that value |
| NumberingGate.NoneIgnoredIff | iscsi_server.c:16-41 | over every open run of an attached connection without Reject requests: none is ignored exactly when all gated requests show one value, the gate's if it is in use and the first one's otherwise |
| NumberingGate.RefusedChangesNothing | iscsi_server.c:23-26 | with the gate in use, a gated request with another value leaves the whole state as it is, and the socket open |
| NumberingGate.PassingSetsGate | iscsi_server.c:27-38 | a request that passes starts the gate at its value, or one above for a Reject without the top bit of byte 0; the others leave it |
| ReadPath.SegmentsRebuildTheRead | request/data_in.c:47-79 | max(1, ceil(n/max)) PDUs, DataSN 0, 1, ..., contiguous, none longer than max, only the last final; storing each at its offset rebuilds the data |
| ReadPath.ReadEndToEnd | request/cmd.c:128-143 | a read command is answered by max(1, ceil(n/max)) whole Data-In PDUs with its task tag and transfer tag -1, numbered, none longer than max, only the last final, all with status GOOD, that rebuild the device buffer as the command left it, n being min(expected length, 4 MB - residual) |
| ReadPath.ReadIsHonestIff | request/data_in.c:47-79 | the status read is the device's exactly for a success with status 0; a read the device did not execute returns the old buffer in full |
| Counterexamples.FailedReadLooksGood | iscsi_target.c:51-56 | a fresh process, one Login, one read of a byte the device does not execute: the initiator reads a 0 with status GOOD |
| Numbering.StepAnswers | iscsi_pdu.c:9-15 | every full-feature request but Text, and NOP-Out with data that needs padding, appends valid numbered responses, and counts one command exactly if it is one |
| Numbering.ResponsesAreNumbered | iscsi_pdu.c:9-15 | over every such run: whole PDUs, the k-th with StatSN s0 + k, ExpCmdSN = MaxCmdSN = e0 plus the commands processed by then, modulo 2^32 |
| Numbering.NopReplyIsFramedIff | request/nop.c:12-18 | a NOP-In is a whole PDU exactly when its data needs no padding |
| Numbering.CopiedReplyIsFramedIff | request/login.c:152-163 | a response with the request's header (a refused or partial Login, the Text echo of request/text.c:45-52) is a whole PDU exactly when the request has no data |
| OtherAnswers.LogoutIsAnswered | request/logout.c:34-46 | one Logout response with response 0 and task tag 0; nothing else changes |
| OtherAnswers.RestIsRejected | iscsi_server.c:83-94 | in a normal session a Login is answered by one Reject with reason 4, an unknown request by one with reason 5 |
| OtherAnswers.NopIsEchoed | request/nop.c:8-39 | the echo has the request's tags and data, cut, its own length and the connection's numbers |
| OtherAnswers.TextIsAnswered | request/text.c:26-107 | the request's header as a final Text response, a whole PDU with the one target's name, or nothing; no number is written or counted |
| LoginAnswers.StrangerIsDropped | iscsi_server.c:60-66 | without a session any request but a Login closes the socket and sends nothing |
| LoginAnswers.EarlyRequestIsRefused | request/login.c:255-266 | with one, before full-feature phase, it is answered by 48 bytes, zero but for the opcode and the TSIH |
| LoginAnswers.PartialLoginIsAnswered | request/login.c:150-164 | a Login with C=1: its header, not final, numbered, with status 0x0200 if it has T=1 and 0 otherwise |
| LoginAnswers.UnwelcomeLoginIsRefused | request/login.c:90-148 | a first Login without InitiatorName, with a TSIH, or without TargetName unless Discovery: its header with status 0x0206 if it has a name and a TSIH and 0x0200 otherwise |
| LoginAnswers.JoiningLogin | request/login.c:121-144 | in a session with room a first Login with a name and a TSIH attaches the connection with its CID and leaves the session as it is |
| LoginAnswers.FinalLoginIsAnswered | request/login.c:192-251 | every other Login, by stage: in 0 and 1 a whole PDU with numbers, status and TSIH and, in 0, AuthMethod=None, entering full-feature phase exactly for T=1, NSG=3; in 3 a refusal; in 2 the socket closes |
| Misframing.RefusalSwallows | request/login.c:283-289 | whatever is sent after a refused half Login with data: too little and nothing is sent; otherwise the first bytes of it, as many as the Login had data with its padding, are read as data of the refusal |
| Misframing.EchoSwallows | request/nop.c:32-33 | the same for the echo of a NOP-Out whose data needs padding: the padding is taken from what follows |
| Counterexamples.RefusalIsHeldBack | request/login.c:283-289 | a fresh process and a Login without TargetName: all the output is a header that announces 36 bytes, and no frame |
| Counterexamples.RefusalSwallowsAnswer | request/login.c:283-289 | after a second Login the first frame is that header with the first 36 bytes of the second response as its data |
| Counterexamples.EchoIsHeldBack | request/nop.c:32-33 | after a login, a NOP-Out of one byte: its echo of 49 bytes is no frame |
| InitiatorView.InitiatorReadsResponses | main.c:130-155 | under every interleaving of the two threads, what has been sent parses as the first of the responses of such a run, in order, each once, with consecutive StatSN and the run's command counts |
| LoginEndToEnd.FinalReplyReads | request/login.c:166-190 | the final response is one whole PDU with the connection's numbers, the status, the TSIH and the text as its data |
| LoginEndToEnd.BothSidesAgree | request/login.c:219-237 | after an operational Login the target's parameters are the fold of the request's pairs, and the initiator reads the same ten out of the response |
| Runs.StepKeepsValid | iscsi_server.c:44-95 | every acceptable request leaves a well-formed state |
| Runs.FullFeatureFrame | iscsi_server.c:72-94 | full-feature requests leave the connection's identity and parameters and the session's standing alone |
| Runs.StaysLoggedIn | iscsi_server.c:58-69 | a logged-in connection stays so and is never closed by a request |
| Fields.SetOpcode | iscsi_pdu.h:100-102 | in place: the opcode of the response image, nothing else |
| Fields.SetFlag | iscsi_byte.h:10-13 | in place: one flag bit of the response image, nothing else |
| Fields.SetWord | iscsi_byte.h:22-27 | in place: one 32-bit field of the response image, nothing else |
| Fields.SetDataSegment | iscsi_pdu.h:119-122 | in place: length and data of the response image, over whatever data it held |
| Fields.Pad0 | iscsi_pdu.c:21-24 | the padding does not disturb the image |
| Objects.TransferEntry.Create | iscsi_transfer_entry.c:5-15 | CDB, length and tag are set; data, offset and R2T counters stay |
| Objects.TransferEntry.Store | request/data_out.c:41-45 | the segment is in the entry's data at its offset, the rest stays |
| Objects.Target.Execute | iscsi_target.c:30-78 | one execution with the CDB on the present buffer; the device's answer sets buffer, residual, status, sense and response |
| Objects.Session.Create | iscsi_session.c:13-26 | the fields it resets, and no others |
| Objects.Session.NextTransferTag | iscsi_session.c:33-35 | the counter, wrapping, is raised and returned |
| Objects.Session.ExecuteTransferEntry | iscsi_session.c:59-64 | the entry's data is put in front of the device buffer and the command runs on that |
| Objects.Connection.constructor | iscsi_connection.c:10-28 | the initial state of the runs: unattached, counters zero, buffers empty |
| Responses.SetNumbers | iscsi_pdu.c:10-12 | StatSN, ExpCmdSN and MaxCmdSN in their fields |
| Responses.Publish | iscsi_pdu.c:14 | the numbered PDU joins the stream and StatSN is advanced |
| Responses.R2tSend | request/r2t.c:17-41 | exactly one R2T with these fields and the connection's numbers joins the stream |
| Responses.CmdSendResponse | request/cmd.c:43-65 | exactly one SCSI response with the device's response, status and sense |
| Responses.Reject | request/reject.c:9-26 | exactly one Reject with reason and data, of any length that fits the buffer |
| Responses.Logout | request/logout.c:34-46 | exactly one Logout response |
| Handlers.DataInSend | request/data_in.c:47-79 | the loop appends exactly the segments of the read |
| Handlers.SendR2ts | request/cmd.c:109-122 | the loop appends exactly the R2Ts of the plan |
| Handlers.BeginWrite | request/cmd.c:85-126 | entry and R2Ts of a write, for both settings of InitialR2T |
| Handlers.CmdProcess | request/cmd.c:67-149 | the handler on the objects is the command step of the model |
| Handlers.DataOutProcess | request/data_out.c:15-95 | the handler on the objects is the Data-Out step of the model |
| CopiedReplies.SendPartial | request/login.c:150-164 | exactly the partial response, StatSN advanced |
| CopiedReplies.SendFinal | request/login.c:166-190 | exactly the final response with the text as data, StatSN advanced |
| CopiedReplies.LoginReject | request/login.c:255-266 | exactly the reject header with the TSIH |
| CopiedReplies.TextProcess | request/text.c:26-107 | the echoed header for a continued request, the target list for SendTargets, nothing otherwise |
| LoginHandler.CreateParameters | request/login.c:271-276 | the parameters are negotiated from the text in the receive buffer, which is unchanged afterwards |
| LoginHandler.SetUpSession | request/login.c:90-148 | state and status of every branch, including a session that is attached although the status is an error |
| LoginHandler.RespondFinalLogin | request/login.c:192-251 | phase change, parameters, response and result of every stage |
| LoginHandler.LoginProcess | request/login.c:268-295 | the handler on the objects is the login step of the model, and the request bytes are as received |
| Server.NopOutProcess | request/nop.c:8-39 | the echo, cut to the negotiated length and unpadded, StatSN advanced |
| Server.ValidCommandNumbering | iscsi_server.c:16-41 | verdict and session of the gate |
| Server.FullFeatureProcess | iscsi_server.c:72-94 | the second half of the dispatcher on the objects is the model's |
| Server.Process | iscsi_server.c:44-95 | the whole dispatcher on the objects is one step of the model, and the request bytes are as received |
| Server.IncomingRequest | iscsi_connection.c:30-51 | the chunk joins the buffer; if a PDU is whole it is served by one step and leaves the buffer, otherwise nothing else happens; a chunk longer than the buffer closes the socket, one without room blocks the thread |
| ReceiverThread.ReceiveChunk | main.c:92-119 | one round of the thread: from caught up to caught up with one chunk more, or closed by the last request, or blocked exactly when the chunk finds no room |
| ReceiverThread.ReceiveAll | main.c:87-119 | for every split of a stream into chunks the objects end in the state of the run of the delivered PDUs, in order, each once, up to the closing of the socket or the first chunk without room; if all are received, what is served and the backlog are the stream |

## Left out

- Sockets, fork, thread creation, logging, failures of `recv` and `send`, partial sends.
- `ioctl(SG_IO)` and opening the device: the device's answer to each command is a parameter (`Model.Reply`), any buffer, residual, status and sense within their sizes.
- Additional header segments: `Model.Acceptable` takes their length as zero, since data is read at offset 48 whatever it is.
- Requests whose lengths or offsets leave the arrays: negative transfers, writes longer than the entry, Data-Outs beyond it.
- Server.NopOutProcess: a NOP-Out cut by a length that is not a multiple of four is not an acceptable request: request/nop.c:33 computes its padding from a negative length and writes zeros in front of the echo, over earlier responses or before the buffer.
- Login texts of which the part that is read, at most 2^20 bytes, does not end with a NUL, or with a non-positive MaxRecvDataSegmentLength (`Model.LoginText`); and first Logins with InitiatorName, without TSIH and without SessionType, which the code dereferences unchecked (`Model.KindReadable`).
- Buffers.Buffer.AcquireLockForLength: the retry loop is a parameter that says what the transmitter drained meanwhile; the loop itself, step by step, is in Transmit.
- Buffers.Buffer.constructor: `iscsi_buffer_new` does not set the length; that a new buffer is empty is an assumption about the memory it lies in.
- Server.IncomingRequest: the endless wait for room is the result Blocked; the call does not return in the code.
- ReceiverThread.ReceiveAll: takes a finite list of chunks, each no longer than the buffer `recv` fills, for the endless loop.
- Transmit.WaitEnds: bounds the transmitter's steps; that the scheduler runs it is assumed. Unlocked reads of length and header are atomic, `send` is complete.
- Numbering.ResponsesAreNumbered: excludes Text, and NOP-Outs with data that needs padding, whose responses are not framed; the exact conditions are in the two lemmas beside it.
- Several connections to one session: each connection has its own process, so the global session belongs to one.
- The vendor-specific key test (iscsi_connection_parameter.c:190-206): both of its outcomes do nothing.
- The Logout branch without a session (request/logout.c:24-32): the dispatcher never reaches it.
- Fields nothing reads: ISID, error recovery level, connection cleanup and timeout fields.
