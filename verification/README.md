# Verification of the uiscsi session core

uiscsi is an iSCSI initiator in user space (RFC 7143). This project models the parts of it
that decide whether data arrives whole, in order and once, and proves what they promise:

- **Reading.** `DataIn` is a task's reassembly of Data-In PDUs with SNACK recovery;
  `Reassembly` proves that any order of arrival with any repetitions gives the in-order
  Result, `SnackCoverage` that all that is missing has been asked for. `TaskLoop` is the
  goroutine around it, `ChanReader` and `Streaming` the streaming reader; `Delivery` says what
  a caller gets, at every level and whichever SNACKs get out, `Offsets` when the offset of a PDU
  matters and what a target can send that is reported as a success, `TaskSteps` what single steps
  leave on a task's channels.
- **Writing.** `DataOut` cuts one burst from the caller's reader, `WritePath` a whole write
  into immediate, unsolicited and solicited data, up to the buffer the target puts together;
  `Answers` says which PDU answers which R2T, up to a target that takes no other; `MovedSource`
  is a write whose source is read by two loops.
- **Flow control.** `Serial`, `CmdWindow` and `WindowRuns` are serial numbers and the command
  window under any interleaving, refined to unbounded counters; `StatSN` is ExpStatSN.
- **Transport.** `BufferPool`, `Framer` and `Framing` are pooled buffers, the wire format and
  its round trips, `FrameLayout` its parts by position; `Router`, `RouterRuns` and `Pump` the
  dispatch of PDUs by tag, `Mailbox` the channel on which PDUs can be dropped.
- **Session.** `SessionTable` and `SessionRuns` are the task table beside the router's, and
  the task loops that run; `Submission` is Submit; `Recovery`, `Reconnect` and `RetriedReads`
  are the reconnect, and `ReconnectRuns` the runs of all these together.
- **Codecs.** `TextCodec`, `Ahs`, `Bhs`, `Command`, `Decimal` and `Negotiation`; `HeaderLayout`
  has the fields of all headers by byte position, `NegotiatedValues` every parameter after a
  login, told from the texts.
- `EndToEnd` puts the read path together: from the target's PDUs through the pump, the
  task's channel and the task loop to the caller's Result; `WriteOnWire` the write path, from
  the caller's source to the target's buffer.

Objects that the original updates in place are classes whose methods are proved against
functions on values; the theorems are about those functions. A goroutine is a sequence of
atomic steps between its locks, a channel a queue with a capacity. What the original leaves
to time or to other goroutines (a full channel, a context that ends, the caller taking a
Result) is a parameter of the step. CRC32C is an arbitrary function of the bytes it covers.
A counter of 32 bits is an integer below 2^32 with explicit wrap-around (`Prelude.Wrap`).

## What the proofs found

The model follows the code. Where the code does not do what its documentation or RFC 7143
says, a lemma gives the exact condition under which it does.

- The task loop leaves at the first PDU with the S-bit, even one that was only kept for
  later. At level 0 it delivers exactly if the PDUs up to that one come in order, each once; at
  level 1 and above exactly if all others have come by then and every SNACK got out
  (`Delivery.DeliversIff`). At level 1 and above a buffered read that ends with a SCSI Response
  is reported as a success with what came before the first missing PDU
  (`TaskLoop.ResponseTruncatesIff`).
- At every level a chunk can be sent to a streaming reader that is already closed, which panics
  in Go: after a gap at level 0, after a SNACK that could not be sent at level 1 and above, if
  the loop goes on to handle the PDU that was missing (`Delivery.SendsAfterCloseIff`,
  `Delivery.SwappedPdusReachClosedReader`).
- The offset of a PDU that comes early is never looked at, neither then nor when it is drained, so
  that above level 0 displaced data can be reported as a success (`Offsets.OffsetIsReadIff`,
  `Offsets.DisplacedPduIsDelivered`). At level 0 a read succeeds exactly if the arrivals up to the
  first S-bit are in line by DataSN and by offset (`Offsets.LevelZeroCompletesIff`).
- A task that cannot send a SNACK is done, and its loop can return without cleaning up
  (`TaskLoop.FailedSnackLeavesTask`). The task then stays in both tables with nobody to serve
  it, until it is aborted or the session is closed, and a Drain that waits for it is never told
  (`ReconnectRuns.FailedSnackStrandsTask`, `SessionRuns.AbandonedTaskBlocksDrain`).
- A burst whose source ends on a segment boundary fails although all its bytes went out
  (`DataOut.BurstSucceedsIff`). So with ImmediateData=Yes and InitialR2T=No a write that fits
  into the command cannot be submitted (`WritePath.OpeningSucceedsIff`,
  `WritePath.SmallUnsolicitedWritesFail`).
- The answer to an R2T ignores the offset it asks for: one answer is right exactly if it asks
  for the source's next bytes, a whole write exactly if all R2Ts do (`WritePath.AnswerIsRightIff`,
  `WritePath.WriteIsRightIff`).
- The SCSI Command PDU always has F=1, even if unsolicited data follows; it is right exactly
  under the condition of `Command.FinalBitIsRightIff`.
- A cancelled `acquire` may already own a number that then nobody uses: exactly if the call is
  cancelled between the grant and the receive (`WindowRuns.NumberIsReturnedIff`).
- A Drain is woken only by the cleanup of a finished or expired task, not by an abort, a
  failed submission or Close (`ReconnectRuns.DrainIsWokenIff`).
- A failed retry can leave a registration or a table entry that no task loop serves
  (`Recovery.RetryLeaksIff`, `Recovery.SmallWriteLeaks`); a reconnect that Close cuts short
  after its snapshot loses its tasks (`Reconnect.ReconnectLosesTasksIffCutShort`). The two
  tables agree after a reconnect exactly if neither happens (`ReconnectRuns.RecoverKeepsInvIff`).
- A write that a failed retry has left in the table is in the next snapshot too, and is sent
  again though its caller was told that it failed (`Reconnect.ReconnectPartitions`,
  `Reconnect.CancelledWriteIsSentAgain`).
- A reconnect waits for the pumps but not for the task loops, and a closed channel still yields
  what is queued on it (`Reconnect.OldLoopReadsOn`). Nothing of the old connection gets into a
  retried read exactly if its old loop has nothing left to handle, no PDU was kept early, and,
  above level 0, nothing was reported (`RetriedReads.RetriedReadIsPureIff`); above level 0 even
  a sound new stream can come out with old bytes (`RetriedReads.StalePduEntersRetry`). A late
  R2T does the same to a retried write (`MovedSource.MovedOpeningIsRightIff`). And what the old
  loop cleans up at its end is its task's new entries (`Reconnect.RetriedTaskKeepsEntriesIff`).
- The U bit of a Data-In PDU is looked for at weight 8; section 11.7 has it at weight 2, so
  that callers never learn of an underflow (`EndToEnd.ResidualReachesCallerIff`,
  `Bhs.UnderflowIsMissed`).
- A MaxRecvDataSegmentLength declared once escapes the clamp
  (`Negotiation.SegmentLengthInRangeIff`), and DefaultTime2Wait is resolved as a minimum where
  section 13.15 has a maximum (`Negotiation.Time2WaitIsRightIff`).
- A stream that breaks off right behind a basic header segment is reported as an ordinary end
  (`Framing.TruncationReport`).
- `PutBuffer` is documented to drop buffers above the largest size class
  (internal/transport/pool.go:111-113); the code keeps them in that class exactly as long as
  its count is below the bound (`BufferPool.Pool.PutBuffer`, `BufferPool.OversizeBufferIsKept`).
- The comments on the command window cite section 3.2.2; the text is section 4.2.2.1 of
  RFC 7143.

## Model

| member | source | states |
|---|---|---|
| DataIn.Task.HandleDataIn | internal/session/datain.go:74-188 | one Data-In PDU changes the task as the reassembly function says: gaps are kept and asked for at level 1 and above, an error at level 0; one in line at another offset is an error; in-order data is appended, acknowledged, and what it unblocks is drained |
| DataIn.Task.DrainPendingDataIn | internal/session/snack.go:62-108 | the loop over early PDUs consumes the ones next in line up to the one with status |
| DataIn.Task.HandleSCSIResponse | internal/session/datain.go:192-218 | a SCSI Response ends the stream and delivers status, sense bytes and buffered data |
| DataIn.Task.Cancel | internal/session/datain.go:224-233 | cancelling never waits: the reader is closed, the task is done, and the error is reported unless the result channel is full |
| DataIn.Task.Renew | internal/session/recovery.go:332-338 | what a retry resets, early PDUs not among it |
| DataIn.Task.constructor | internal/session/datain.go:51-68 | a new task expects DataSN 0 and offset 0 and has delivered nothing |
| DataIn.DrainKeepsFiled | internal/session/snack.go:66-108 | draining keeps every early PDU under its own DataSN and only removes some |
| Reassembly.RunInvariant | internal/session/datain.go:74-188 | at level 1 and above, for any order and repetitions of a conforming stream: the task has consumed the longest gap-free prefix of what arrived, holds exactly its bytes, and keeps all the rest |
| Reassembly.DeliversExactlyWhenComplete | internal/session/datain.go:121-188 | exactly one Result, exactly when every PDU has arrived, with the payloads in DataSN order; none before |
| Reassembly.Confluence | internal/session/datain.go:74-188 | two runs that saw the same set of PDUs agree on data, stream and Results |
| Reassembly.RecoveryEqualsInOrder | internal/session/datain.go:74-188 | any complete arrival order at level 1 gives the Result and stream of the in-order run at level 0 |
| Reassembly.InOrderConsumes | internal/session/datain.go:74-188 | fed in order at any level, the task has consumed each prefix exactly |
| Reassembly.RunKeepsIdentity | internal/session/datain.go:19-47 | no run changes a task's tag, level, direction or mode |
| SnackCoverage.RunCovers | internal/session/datain.go:80-101 | in every state reached by any stream, SNACKs sent cover the gaps below each early PDU until the task reports an error |
| SnackCoverage.MissingIsAskedFor | internal/session/snack.go:26-60 | each missing DataSN below an early PDU lies in the run of a SNACK already sent |
| SnackCoverage.AcksAreHonest | internal/session/datain.go:134-155 | no DataACK acknowledges a DataSN that was not appended |
| TaskLoop.RunTaskLoop | internal/session/session.go:761-880 | the loop handles Data-In PDUs up to the first with the S-bit, a SCSI Response, the end of the context, a Reject at level 0 or an undecodable PDU, or leaves once the task is done; and whether it takes its task off the tables then |
| TaskLoop.LoopIsRunOfSeen | internal/session/session.go:797-817 | while only Data-In PDUs come, the loop does what reassembly does with the arrivals up to the first S-bit, and ignores the rest |
| TaskLoop.CleansUpIff | internal/session/session.go:770-856 | the loop cleans up after its task if and only if it gets to an S-bit, a response or an error before it sees that the task is done |
| TaskLoop.FailedSnackLeavesTask | internal/session/datain.go:91-99 | at level 1 and above, the first PDU comes early and no SNACK gets out: the error is reported and the loop can return at once without cleaning up |
| TaskLoop.ResponseTruncatesIff | internal/session/session.go:835-856 | at level 1 and above, with all SNACKs sent, a buffered read ended by a SCSI Response reports the data before the first missing DataSN with the target's status; it is whole if and only if all PDUs from there on are empty |
| ChanReader.ChanReader.Read | internal/session/chanreader.go:45-71 | a read copies into the caller's buffer the next bytes of the current chunk and touches nothing else |
| ChanReader.ChanReader.Close | internal/session/chanreader.go:75-96 | closing a second time changes nothing |
| ChanReader.RunConserves | internal/session/chanreader.go:45-96 | in every run, bytes read, the rest of the current chunk and the queue make up the chunks sent, at most `depth` of them queued |
| ChanReader.FirstCloseWins | internal/session/chanreader.go:75-96 | the terminal error is that of the first close |
| ChanReader.StreamIsFaithful | internal/session/chanreader.go:45-96 | bytes read are a prefix of what was sent; an end shows only after all of it, and is the first close's |
| Delivery.NextIs | internal/session/datain.go:74-188 | at every level, after any arrivals and whichever SNACKs get out: which DataSN the task waits for, told from the arrivals alone, and at which offset |
| Delivery.DeliversIff | internal/session/session.go:797-817 | at every level, whichever SNACKs get out: the loop delivers the stream's Result if and only if the arrivals up to the first S-bit are the whole stream, at level 0 in order and each once, above in any order with each SNACK sent that is due; if a PDU was missed an error comes first, else nothing comes |
| Delivery.SwappedStreamIsNeverDelivered | internal/session/session.go:808-817 | at level 1 and above, two PDUs exchanged: all bytes arrive, no Result is delivered |
| Delivery.StreamingEqualsBuffering | internal/session/datain.go:121-130 | at every level, for any reads, a stream of which the loop sees the whole gives the streaming caller the bytes of the Result that the buffered mode delivers, then EOF |
| Delivery.SendsAfterCloseIff | internal/session/datain.go:80-130 | at every level a chunk is sent to a closed reader if and only if the task has missed a PDU (at level 0 any gap, above it one whose SNACK is not sent) and, up to the first S-bit, goes on from the PDU it waited for then to one with data |
| Delivery.SwappedPdusReachClosedReader | internal/session/datain.go:91-126 | at every level, for any stream of three PDUs or more whose first has data: the first two come exchanged, no SNACK gets out, and a chunk is sent to the closed reader |
| Offsets.MisplacedPduIsRefused | internal/session/datain.go:112-119 | any task: a PDU next in line at another offset adds one error, closes a streaming reader with it, and changes nothing else; its data go nowhere |
| Offsets.LevelZeroCompletesIff | internal/session/session.go:797-817 | at level 0, whatever the target sends: one completion comes out if and only if the arrivals up to the first S-bit have DataSNs 0, 1, 2 and as offsets the length of all data before; its data are theirs in order; else an error comes first, or nothing |
| Offsets.EarlyOffsetsDoNotMatter | internal/session/snack.go:62-108 | at every level and for any stream: two runs that differ in the offsets of PDUs that come early report, stream and send the same |
| Offsets.OffsetIsReadIff | internal/session/datain.go:112-119 | a PDU's offset makes a difference, beyond what is kept, if and only if it is the one next in line |
| Offsets.DisplacedPduIsDelivered | internal/session/snack.go:70-85 | above level 0: of any stream of three PDUs the second comes first and claims any offset, and the stream's Result is delivered |
| TaskSteps.CancelReports | internal/session/datain.go:224-233 | a cancelled task has the error behind its results if there was room, its streaming reader has been closed with it, and it is done |
| TaskSteps.StopIsReported | internal/session/session.go:776-781 | a task stopped before the S-bit that has missed no PDU reports exactly that error, at every level; a streaming caller gets it behind the data in order |
| TaskSteps.StopComesLast | internal/session/session.go:776-781 | whatever was reported before, the error comes behind it, if and only if there is room |
| TaskSteps.EndIsTheEnd | internal/session/session.go:797-856 | behind an S-bit, a response, an error or the sight of a task that is done, nothing is handled |
| TaskSteps.SenseIsBehindLength | internal/session/datain.go:197-202 | the sense bytes are those behind the two length bytes |
| TaskSteps.ResponseIsReported | internal/session/datain.go:192-218 | a response adds one Result with its status, sense bytes and residuals, and the buffered data of a read if there are any |
| TaskSteps.GapIsAskedFor | internal/session/datain.go:80-101 | above level 0 an early PDU is kept, and exactly one SNACK asks for all from the DataSN waited for up to it; without it the task reports that and is done |
| TaskSteps.AcknowledgedIff | internal/session/datain.go:134-155 | a PDU in line sends exactly one DataACK, with its tag and the DataSN behind it, if and only if it has the A-bit, the level is 1 or above and there is room |
| DataOut.WriteTask.SendDataOutBurst | internal/session/dataout.go:16-98 | the loop sends the closed-form burst, takes the closed-form number of bytes, and reports its error |
| DataOut.WriteTask.HandleR2T | internal/session/dataout.go:102-112 | an R2T gets a burst of the source's next bytes under its own tag, from its own offset, cut to MaxBurstLength |
| DataOut.WriteTask.SendUnsolicitedDataOut | internal/session/dataout.go:117-133 | the unsolicited burst takes what immediate data left of the first burst, and counts its bytes |
| DataOut.RoundFollowsReference | internal/session/dataout.go:24-95 | each round of the loop, sending or stopping, agrees with the closed form |
| DataOut.BurstIsWellFormed | internal/session/dataout.go:24-95 | the PDUs of a burst lie end to end, are numbered from 0, stay within the segment limit, carry the source's next bytes, and F is on exactly the last one of a burst that succeeds |
| DataOut.BurstSucceedsIff | internal/session/dataout.go:28-95 | a burst succeeds if and only if its segments can be encoded and the source holds all that is wanted or soundly ends inside a segment |
| DataOut.ZeroLimitSendsNothing | internal/session/dataout.go:24-42 | with a segment limit of 0 nothing is sent and no error reported |
| WritePath.Open | internal/session/session.go:200-253 | immediate data, the command and the unsolicited burst, with every error exit, the end of the context among them |
| WritePath.OpeningStaysInFirstBurst | internal/session/dataout.go:121-131 | FirstBurstLength-bytesSent never underflows, and immediate plus unsolicited data stay within FirstBurstLength |
| WritePath.OpeningSucceedsIff | internal/session/session.go:200-253 | when a write can be opened, as a condition on the source's length and the negotiated limits |
| WritePath.SmallUnsolicitedWritesFail | internal/session/session.go:200-253 | up to 8192 bytes with ImmediateData and without InitialR2T: submission fails; with InitialR2T it succeeds |
| WritePath.Serve | internal/session/session.go:819-831 | R2Ts are answered in order, and the first failure ends the task |
| WritePath.TilingFills | internal/session/dataout.go:46-57 | PDUs that lie end to end leave exactly their payloads in the target's buffer |
| WritePath.WriteReachesTarget | internal/session/session.go:200-253 | after a successful opening and in-order R2Ts, all segments lie end to end and the target's buffer is the source, whatever it held before |
| WritePath.AnswerIgnoresOffset | internal/session/dataout.go:102-112 | whatever offset an R2T asks for, the target finds the source's next bytes there |
| WritePath.AnswerIsRightIff | internal/session/dataout.go:102-112 | an answer carries the bytes asked for, for every source of that length, if and only if the R2T asks for the source's next bytes |
| WritePath.WriteIsRightIff | internal/session/session.go:819-831 | a whole write gives the target the source, for all contents, if and only if the R2Ts ask for the rest in order |
| Answers.OpeningIsUnsolicited | internal/session/dataout.go:117-133 | all that opens a write carries the tag 0xFFFFFFFF |
| Answers.OpeningOpens | internal/session/session.go:200-253 | immediate data and unsolicited PDUs are the source's next bytes, end to end, numbered from 0, within the first burst, under the task's tag |
| Answers.OpeningSendsAll | internal/session/session.go:200-253 | an opening without an error has sent as immediate data all that both limits and the source allow, and without InitialR2T the whole first burst, or all of the source |
| Answers.ServedAnswersInTurn | internal/session/session.go:819-831 | for any R2Ts, any source and any failure: all PDUs that go out are, in turn, an answer to each R2T: its own tag, numbers from 0, end to end from its offset, no more than it and MaxBurstLength allow, nothing behind the F bit |
| Answers.AnswerSendsAll | internal/session/dataout.go:102-112 | an answer without an error has as many bytes as the R2T asks for, up to MaxBurstLength and what the source has left |
| Answers.FailureIsTheEnd | internal/session/session.go:819-831 | behind an R2T whose answer fails, no R2T is looked at |
| Answers.AnswersAreTaken | internal/session/dataout.go:102-112 | a target that takes solicited data only under its outstanding R2T's tag, with the next number and offset and the right F bit, takes all answers to R2Ts that ask in order |
| MovedSource.UnmovedOpening | internal/session/recovery.go:341-376 | if the source has not moved, what the retry sends first is the opening of the write |
| MovedSource.MovedOpeningIsRightIff | internal/session/recovery.go:309-376 | the source of a retried write moves after it was rewound, before the immediate read or between that and the burst: what the retry sends first is right for every source if and only if each part that is not empty still starts where it should |
| WritePath.OutOfOrderR2TsExchangeData | internal/session/dataout.go:102-112 | R2Ts in reverse order succeed and exchange the halves of the data |
| Serial.CompareRefines | internal/serial/serial.go:15-23 | on counters within 2^31 of each other, serial comparison is comparison of the unbounded counters |
| Serial.InWindowRefines | internal/serial/serial.go:28-30 | the window test is the interval test on the unbounded counters |
| Serial.IncrRefines | internal/serial/serial.go:34-36 | increment wraps as the unbounded counter advances |
| Serial.ComparisonIsDecisiveExceptAntipodes | internal/serial/serial.go:15-23 | exactly one of less, equal and greater holds, except 2^31 apart |
| StatSN.StatTracker.UpdateStatSN | internal/session/session.go:510-517 | ExpStatSN moves to StatSN+1 only if that is ahead |
| StatSN.UpdatedAllRefinesMaximum | internal/session/session.go:510-517 | after any updates within 2^31, ExpStatSN is the maximum of the start and every StatSN+1 |
| StatSN.ExpStatSNIsOrderInsensitive | internal/session/session.go:510-517 | any permutation of the updates gives the same ExpStatSN |
| StatSN.ExpStatSNNeverMovesBack | internal/session/session.go:510-517 | along a run ExpStatSN never moves back |
| CmdWindow.CommandWindow.TryAcquire | internal/session/cmdwindow.go:52-117 | one look under the lock: closed, cancelled, granted, or keep waiting |
| CmdWindow.CommandWindow.Update | internal/session/cmdwindow.go:126-154 | what a target's numbers change, if they are accepted |
| CmdWindow.CommandWindow.Close | internal/session/cmdwindow.go:157-162 | closing sets the flag and nothing else |
| WindowRuns.RunRefines | internal/session/cmdwindow.go:42-162 | every interleaving on 32-bit counters is the image of the one on unbounded counters |
| WindowRuns.WindowSafety | internal/session/cmdwindow.go:52-162 | every granted CmdSN lay in its window at the grant, grants are consecutive across the wrap, and each call got at most one |
| WindowRuns.GrantsAreDistinct | internal/session/cmdwindow.go:52-100 | no CmdSN goes to two callers |
| WindowRuns.SerialExpCmdSNIsMonotone | internal/session/cmdwindow.go:134-143 | ExpCmdSN never moves back over any run |
| WindowRuns.NoGrantAfterClose | internal/session/cmdwindow.go:157-162 | after Close there is no further grant, whatever happens |
| WindowRuns.GrantsAreAccountedFor | internal/session/cmdwindow.go:52-117 | in every run each granted number waits for its caller, is with it, or was dropped by a cancelled one |
| WindowRuns.NumberIsReturnedIff | internal/session/cmdwindow.go:95-116 | in every run, a call that is granted a number and later receives gets that number if and only if it was not cancelled in between |
| WindowRuns.CancelledCallLosesItsNumber | internal/session/cmdwindow.go:95-116 | a run in which a woken and then cancelled call has consumed a number that no caller holds |
| BufferPool.Pool.GetBuffer | internal/transport/pool.go:86-108 | a buffer of at least the size, with arbitrary contents, that is fresh or was free in the tier for that size, and is free no longer; the tier's count goes down by one |
| BufferPool.Pool.PutBuffer | internal/transport/pool.go:114-146 | a buffer is kept, in the tier of its capacity, if and only if that tier's count is below the bound; the count says so |
| BufferPool.OversizeBufferIsKept | internal/transport/pool.go:86-146 | a buffer made for more than the largest class is kept in that class |
| BufferPool.TiersFit | internal/transport/pool.go:86-146 | whatever a tier holds serves every request to that tier |
| Framer.StampDigests | internal/session/session.go:540-557 | the header digest covers BHS and AHS, the data digest the data with its zero padding |
| Framer.WriteRawPDU | internal/transport/framer.go:165-225 | one write of exactly the frame, from a pooled buffer whatever it held; a connection that fails has taken the frame's first bytes, and its error is passed on |
| Framer.ReadRawPDU | internal/transport/framer.go:31-161 | two exact reads, the payload cut by a moving offset, digests verified, errors and bytes taken as specified |
| Framing.ReadInvertsFrame | internal/transport/framer.go:31-161 | a well-formed PDU is read back as it was written, whatever follows |
| Framing.StreamRoundTrip | internal/transport/framer.go:31-225 | any list of PDUs, stamped and written back to back, is read back exactly, and the bytes behind it are untouched |
| Framing.WriteAll | internal/transport/pump.go:37-66 | stamping and writing a list puts its stream on the wire, or its first bytes up to where the connection fails |
| Framing.ReadSucceedsIff | internal/transport/framer.go:121-160 | on any input, a read succeeds if and only if the announced bytes are there and the digests agree |
| Framing.ReadIsWellFormed | internal/transport/framer.go:50-160 | what was read has the announced lengths and the agreed digests |
| Framing.WriteInvertsReadIff | internal/transport/framer.go:31-225 | what was read, written again, gives the same bytes if and only if their padding was zero |
| Framing.ReadIsInjectiveOnFrames | internal/transport/framer.go:31-225 | a stream begins with the frame of at most one PDU |
| Framing.TruncationReport | internal/transport/framer.go:39-93 | how a stream that breaks off is reported, byte position by byte position |
| Framing.EncodePDU | internal/pdu/pdu.go:5-22 | a marshalled PDU is BHS, data and zero padding |
| Framing.LoginPaddingIsHarmless | internal/login/login.go:487-500 | login passes padding on as data, and the wire sees the same bytes |
| FrameLayout.FrameIsLaidOut | internal/transport/framer.go:165-225 | where in the frame headers, digests, data and padding are, position by position |
| FrameLayout.StampingCovers | internal/session/session.go:540-557 | the header digest is of both header parts, the data digest of data and zero padding, and only there where they are due |
| FrameLayout.MismatchIsReported | internal/transport/framer.go:121-160 | which wrong digest is reported, with what it should be and what came |
| Router.Router.Register | internal/transport/router.go:48-64 | the next tag, and a new one-shot channel under it |
| Router.Router.RegisterPersistent | internal/transport/router.go:71-78 | a new channel of the configured depth under the tag, in place of any other |
| Router.Router.AllocateITT | internal/transport/router.go:82-95 | the next tag, nothing else changed |
| Router.Router.Dispatch | internal/transport/router.go:100-113 | found if and only if registered; a one-shot entry leaves the table before its send |
| Router.Router.UnregisterAndClose | internal/transport/router.go:129-137 | the entry goes; the channel is closed if it is persistent |
| RouterRuns.DemultiplexingIsProjection | internal/transport/router.go:48-137 | in every interleaving, what a channel's reader took, what is queued and what is on the way are exactly the arrivals with its tag while it was registered, in order; nothing is on the way to a closed channel |
| RouterRuns.OneShotNeverBlocks | internal/transport/router.go:44-64 | a one-shot registration gets at most one PDU and its send never waits |
| RouterRuns.RunAllocatesCyclically | internal/transport/router.go:48-95 | the k-th tag handed out, however the two ways are mixed, is start plus k modulo 2^32-1, never 0xFFFFFFFF |
| RouterRuns.TagsAreDistinct | internal/transport/router.go:48-95 | tags at most a cycle apart are equal if and only if they are exactly a cycle apart |
| Pump.Pump.ReadPump | internal/transport/pump.go:83-158 | the PDUs handed over are the first ones on the stream, each to where its tag says, up to the first failing read or a cancellation |
| Pump.Pump.HandUnasked | internal/transport/pump.go:121-149 | a NOP-In waits for room unless the pump is told to stop; any other unsolicited PDU is queued if there is room, and counted as dropped if and only if there is none |
| Pump.Pump.HandToTask | internal/transport/pump.go:152-156 | a PDU for a task is one arrival under its tag, and the send waits for the task |
| Pump.NopInsAreNeverDropped | internal/transport/pump.go:121-149 | all NOP-Ins handed over are taken or queued, in order; every other unsolicited PDU is too, or is counted as dropped |
| Pump.DropsAreExact | internal/transport/pump.go:136-149 | in every state as many PDUs have been dropped as the target was ever ahead of the session at most, beyond the depth of the channel |
| Mailbox.DropsAreExact | internal/transport/pump.go:136-149 | the same for any run of sends and receives on a channel whose sender never waits |
| Pump.PeeksRight | internal/transport/pump.go:122-128 | the opcode and the tag that the pump looks at are those of the PDU that the header decodes to |
| SessionTable.Session.Admit | internal/session/session.go:143-153 | no command is accepted during recovery or while draining |
| SessionTable.Session.BeginTask | internal/session/session.go:161-194 | a submission enters a new tag in both tables |
| SessionTable.Session.StartLoop | internal/session/session.go:255-256 | a submission ends by starting the task's loop on its channel |
| SessionTable.Session.LoopReturns | internal/session/session.go:771-788 | a task's goroutine returns, which it may when the task is finished or done, or its channel closed and empty; the tables stay as they are |
| SessionTable.Session.SnackFailed | internal/session/datain.go:91-99 | a task that cannot send a SNACK is done; the tables stay as they are |
| Submission.Submit | internal/session/session.go:142-259 | refused or without a number, nothing changes and nothing is sent; otherwise it ends with the task's loop if and only if, by the limits and the source's length, all that opens it can be sent, and takes its entries back if not; it has sent, under the new tag, its command, immediate data and unsolicited PDUs as far as it came |
| Submission.SubmissionSends | internal/session/session.go:200-253 | what a submission has sent, on the PDUs: a read exactly its command; a write nothing before its command, then, under the new tag and end to end behind the command's data, the source's next bytes |
| Submission.FailureLeavesNoTrace | internal/session/session.go:200-253 | a submission that fails leaves both tables, the loops and the cancelled tasks as they were |
| SessionTable.Session.CleanupTask | internal/session/session.go:919-936 | completion leaves both tables and wakes a Drain if none is left |
| SessionTable.Session.CleanupAbortedTask | internal/session/tmf.go:146-157 | an abort leaves both tables and cancels the task once |
| SessionTable.Session.ExpireTask | internal/session/session.go:776-781 | a task whose context ends is cancelled, leaves both tables, and may wake a Drain |
| SessionTable.Session.CleanupTasksByLUN | internal/session/tmf.go:162-175 | the loop over the snapshot, in any order, aborts exactly the LUN's tasks |
| SessionTable.Session.CloseSession | internal/session/session.go:440-447 | Close cancels and removes every task |
| SessionTable.Session.StartDrain | internal/session/session.go:474-487 | a Drain is refused, has nothing to wait for, or waits on a new channel |
| SessionTable.Session.DrainTimedOut | internal/session/session.go:489-498 | a Drain whose context ends waits no longer, and commands are accepted again |
| SessionTable.Session.TriggerReconnect | internal/session/recovery.go:18-33 | only the first trigger starts a recovery, and none after Close |
| SessionTable.AbortOneMore | internal/session/tmf.go:162-175 | aborting one more task after a set of them is aborting the larger set |
| ReconnectRuns.TablesAgree | internal/session/session.go:142-499 | after any run of submissions, SNACK failures, completions, aborts, Close, Drains and reconnects of which none is cut short with tasks in flight and no retry fails after its registration: the task table and the router's persistent entries have the same tags, and every task begun is live, cancelled or ended and only one of these |
| ReconnectRuns.RecoverKeepsInvIff | internal/session/recovery.go:69-386 | a reconnect from such a state leads to such a state if and only if it is not cut short with tasks in flight, and every retry that gets a command number is one that the limits and its source allow |
| ReconnectRuns.ReinstateIsRecovered | internal/session/recovery.go:69-292 | the reconnect as an operation of the runs is what Reconnect.Reinstate does |
| ReconnectRuns.OneLoopForEachTask | internal/session/session.go:161-256 | after any run, whatever its reconnects do: each task in the table has an open channel of its own and exactly one of a submission that will start its loop, a loop that serves it there, a loop that has returned from there (and then it was cancelled or could not send a SNACK), or a failed retry (and then it is cancelled); no loop serves it on any other open channel |
| ReconnectRuns.FailedSnackStrandsTask | internal/session/session.go:773-775 | a run after which a task is in both tables, nobody serves it, and a Drain waits for it |
| SessionRuns.AbandonedTaskBlocksDrain | internal/session/session.go:919-936 | a task left by its loop or by a failed retry goes only when it is aborted, with its LUN too, or the session is closed, or an old loop on a closed channel finishes it; no other step tells a Drain anything |
| SessionRuns.LunAbortIsExact | internal/session/tmf.go:162-175 | as long as the tables agree, a LUN abort removes and cancels exactly the tasks of that LUN |
| SessionRuns.CancelledFor | internal/session/tmf.go:146-175 | the reason a task is cancelled for is that of the operation that cancels it first |
| SessionRuns.DrainClosesOnlyWhenEmpty | internal/session/session.go:929-935 | a Drain channel is closed once, and only when no task is left |
| SessionRuns.LastTaskWakesDrainIff | internal/session/session.go:919-936 | the operation that removes the last task wakes the Drain if and only if it is a cleanup of a finished or expired task |
| ReconnectRuns.DrainIsWokenIff | internal/session/session.go:474-499 | in every run, reconnects included, a Drain channel is closed once at most, by a step that leaves no task; the step that removes the last task closes it if and only if it cleans up a finished or expired task |
| Recovery.FateIff | internal/session/recovery.go:297-384 | how a retry comes out, told from the task, the limits and the length of its source |
| Recovery.RetryPartitions | internal/session/recovery.go:296-386 | after the retries each task is cancelled or has a loop that reads its new channel, and both if and only if it was cancelled before and the limits and its source allow a retry; one that runs is in the table under its own new tag; no other tags were registered |
| Recovery.RunningTagsDiffer | internal/session/recovery.go:328-330 | two retried tasks that run have different tags |
| Recovery.RetriesCancel | internal/session/recovery.go:296-386 | exactly the tasks that cannot be retried, by the limits and their source, are cancelled |
| Recovery.RetryLeaksIff | internal/session/recovery.go:328-383 | by what the limits and the source allow: when a retry leaves a registration, when a table entry, with no loop on its channel, and when the two tables still agree |
| Recovery.SmallWriteLeaks | internal/session/recovery.go:341-381 | a write of a few bytes for which all goes well leaves both |
| Reconnect.RetryTask | internal/session/recovery.go:297-384 | one retry: rewind, new number and tag, reset, command and unsolicited data under the new tag, and the new loop, with every failure exit: then the caller has been told |
| Reconnect.RetryTasks | internal/session/recovery.go:296-386 | the loop over the snapshot, in any order, retries each task once |
| Reconnect.Reinstate | internal/session/recovery.go:69-292 | unless Close came first, the snapshot leaves both tables and its channels are closed, and the login attempts decide between retry, failure and interruption, and with it what each caller is told |
| Reconnect.ReconnectPartitions | internal/session/recovery.go:110-292 | after any reconnect that gets through, also one after others that left tasks behind, each task is cancelled or has a loop that serves it under a new tag, and both if and only if it was cancelled before and its limits and source allow a retry; an old tag is registered only if it was handed out anew |
| Reconnect.EveryCallerIsTold | internal/session/recovery.go:234-384 | after a reconnect that gets through, a task that the limits and its source allow to retry has reported nothing more, and every other has had its error put on its result channel if there was room; if every attempt failed, all have |
| Reconnect.CancelledWriteIsSentAgain | internal/session/recovery.go:297-384 | a small write that a first retry cancels and leaves in the table is sent again by a second one under limits with InitialR2T=Yes |
| Reconnect.ExhaustionCancelsAll | internal/session/recovery.go:234-253 | if every attempt fails, all tasks are cancelled and in no table |
| Reconnect.CutShortIff | internal/session/recovery.go:131-156 | the login attempts end in an interruption if and only if Close comes in before one of them and all before that have failed |
| Reconnect.EndingIff | internal/session/recovery.go:131-253 | the login attempts end in a connection if and only if one succeeds behind failed ones only, in exhaustion if and only if all fail |
| Reconnect.ReconnectLosesTasksIffCutShort | internal/session/recovery.go:69-156 | a task of the snapshot is neither cancelled nor in the table afterwards if and only if Close did not come in before the snapshot, came in before an attempt with all earlier ones failed, and the task had not been cancelled before |
| Reconnect.OldLoopReadsOn | internal/session/recovery.go:95-129 | what was queued for a task's old loop stays on its closed channel and can be read after the retries, for the same task; the loop leaves once it is gone |
| Reconnect.RetriedTaskKeepsEntriesIff | internal/session/session.go:808-856 | when the old loop of a retried task has read what was left on its channel, the task is still in both tables if and only if that loop got to no S-bit, response or error; otherwise its new loop goes on to wait on a channel that is no longer registered |
| Reconnect.RetryEmitsTheSame | internal/session/recovery.go:341-376 | a retried write sends what a new submission sends, from byte 0, but for the tag |
| Reconnect.RetryServesTheSame | internal/session/dataout.go:102-112 | and answers R2Ts as one |
| RetriedReads.RetriedReadIsPure | internal/session/recovery.go:332-338 | at level 0, once its old loop is gone, a retried read does exactly what a new one would |
| RetriedReads.ServedKeepsNoStatus | internal/session/session.go:808-817 | a task that a reconnect finds in the table keeps no PDU with status: a drain inside the loop never delivers |
| RetriedReads.RetriedReadIsPureIff | internal/session/recovery.go:95-129 | after any history, what a retried read reports comes from the new connection alone, for every continuation and every merge with what its old loop still handles, if and only if nothing is left for that loop, no PDU was kept early, and, above level 0, nothing was reported before |
| RetriedReads.RenewedIsNewIff | internal/session/recovery.go:332-338 | the reset makes a new task if and only if no PDU was kept early |
| RetriedReads.StalePduEntersRetry | internal/session/recovery.go:332-338 | above level 0: a PDU kept on the old connection displaces its copy in a sound new stream that arrives in order, and the loop delivers the mixture |
| TextCodec.EncodeTextKV | internal/login/textcodec.go:21-33 | pairs are written as key=value, each ended by a zero byte |
| TextCodec.DecodeTextKV | internal/login/textcodec.go:38-56 | splitting and cutting gives the pairs of a byte-by-byte reader |
| TextCodec.DecodeInvertsEncodeIff | internal/login/textcodec.go:21-56 | decoding inverts encoding on exactly the lists whose keys have no '=' or zero byte and whose values have no zero byte |
| TextCodec.DecodingIsStable | internal/login/textcodec.go:21-56 | for any bytes, encoding what was decoded and decoding again gives the same pairs |
| Ahs.MarshalAHS | internal/pdu/ahs.go:32-61 | segments are written with their headers and padding, one after the other |
| Ahs.UnmarshalAHS | internal/pdu/ahs.go:66-121 | the walk by offset ends on every input and is the segment-by-segment parse, with its four errors |
| Ahs.ParseInvertsMarshalIff | internal/pdu/ahs.go:32-121 | parsing inverts writing on exactly the lists with payloads of at most 16384 bytes |
| Ahs.MarshalIsAligned | internal/pdu/ahs.go:32-61 | the output length is a multiple of four |
| Ahs.ParsingIsStable | internal/pdu/ahs.go:32-121 | what was parsed from any bytes, written and parsed again, is the same |
| Ahs.SegmentIsLaidOut | internal/pdu/ahs.go:32-61 | length, type, data and padding of a segment, byte by byte |
| Ahs.FirstErrorIs | internal/pdu/ahs.go:66-121 | which of the four errors is found first |
| Bhs.WriteFields | internal/pdu/header.go:56-68 | each field is written to its place in a zeroed buffer |
| Bhs.MarshalBHS | internal/pdu/bhs.go:16-30 | marshalling fails if and only if the data length exceeds 24 bits |
| Bhs.FieldsInvertBytes | internal/pdu/header.go:56-79 | the raw fields are read back from their places, the 24-bit length beside TotalAHSLength among them |
| Bhs.OfRawInvertsToRaw | internal/pdu/target.go:18-464 | for each of the eighteen PDUs, unmarshalling gives back every field that fits its bits |
| Bhs.DecodeInvertsEncodeIff | internal/pdu/initiator.go:18-313 | a PDU survives marshalling and unmarshalling if and only if its fields fit and, for logins, LUN and F agree with ISID, TSIH and T |
| Bhs.DecodingIsStable | internal/pdu/header.go:83-167 | for any 48 bytes with a known opcode, decoding, marshalling and decoding again gives the same PDU, both lengths unchanged |
| Bhs.KnownOpcodes | internal/pdu/header.go:83-167 | exactly the eighteen opcodes are decoded |
| Bhs.UnderflowIsMissed | internal/pdu/target.go:290-304 | a header that reports status and an underflow is decoded as one without underflow |
| HeaderLayout.InitiatorPdusAreLaidOut | internal/pdu/initiator.go:18-313 | the byte position of every field of every PDU of an initiator, as in section 11 |
| HeaderLayout.TargetPdusAreLaidOut | internal/pdu/target.go:18-464 | the same for every PDU of a target, the U bit of Data-In where the code has it |
| Command.BuildSCSICommandPDU | internal/session/session.go:888-916 | the command PDU is built from the caller's command, or fails if the immediate data is too long |
| Command.CommandArrives | internal/session/session.go:888-916 | the target decodes the command as meant if and only if the task attribute fits three bits |
| Command.CommandSays | internal/session/session.go:888-916 | the bytes of the command PDU: the caller's direction, attribute, lengths, LUN and CDB, and the submission's tag and numbers, each in its place |
| Command.DecodedCommandSays | internal/session/session.go:888-916 | the same, as the target decodes it |
| Command.FinalBitIsRightIff | internal/session/session.go:888-899 | the F bit of a command that opens a write is right if and only if InitialR2T is in force, the first burst or the source ends with the immediate data, or the source breaks within the next segment |
| Command.FinalBitIsWrong | internal/session/session.go:888-899 | one byte without immediate data follows a command that says it is the last PDU |
| Command.RetriedCommandDiffersOnlyInTagAndNumbers | internal/session/recovery.go:355-360 | the command of a retry equals that of a submission in every byte outside the tag, CmdSN and ExpStatSN |
| Decimal.ParseInvertsFormat | internal/login/negotiation.go:76-90 | a number printed in decimal is parsed back |
| Decimal.LeadingDigitWeighsMost | internal/login/negotiation.go:76-90 | the value of a decimal text, by its first digit and the rest |
| Negotiation.AnswerIsAgreed | internal/login/negotiation.go:60-135 | for And, Or and Min keys, if the target answers its own resolution, the initiator arrives at it |
| Negotiation.PlainMinimumIsAgreedIff | internal/login/negotiation.go:76-90 | with a target that answers the plain minimum, both agree if and only if it is in range |
| Negotiation.Time2WaitIsRightIff | internal/login/negotiation.go:50-50 | DefaultTime2Wait is the maximum that section 13.15 asks for if and only if both values are the same |
| Negotiation.ApplyNegotiatedKeys | internal/login/negotiation.go:156-194 | the last value of each key is set, and FirstBurstLength is capped; NegotiatedValues says which parameter that is |
| Negotiation.Negotiate | internal/login/login.go:414-448 | resolution of the whole answer, the declared segment length put in, errors passed on; NegotiatedValues gives every parameter that comes out |
| Negotiation.NegotiateFromText | internal/login/login.go:409-456 | any login response text that is accepted gives parameters in range |
| Negotiation.AcceptedAnswersAreInBounds | internal/login/negotiation.go:139-194 | whatever is proposed and answered, every numeric parameter but the segment length is in its range, and FirstBurstLength is at most MaxBurstLength |
| Negotiation.SegmentLengthInRangeIff | internal/login/login.go:435-447 | MaxRecvDataSegmentLength is in range if and only if the answer does not give it exactly once with a value out of range |
| NegotiatedValues.FlagsAreNegotiated | internal/login/negotiation.go:62-72 | the four flags told from the texts of proposal and answer: ImmediateData if both say Yes, the others if either does; Yes without an answer |
| NegotiatedValues.LengthsAreNegotiated | internal/login/negotiation.go:74-88 | both burst lengths: the smaller value, or the nearest bound; the default without an answer; FirstBurstLength at most MaxBurstLength |
| NegotiatedValues.TimesAreNegotiated | internal/login/negotiation.go:74-88 | both times, in the same way |
| NegotiatedValues.CountsAreNegotiated | internal/login/negotiation.go:74-88 | MaxConnections, MaxOutstandingR2T and ErrorRecoveryLevel, in the same way |
| NegotiatedValues.SegmentLengthIsDeclared | internal/login/login.go:435-447 | MaxRecvDataSegmentLength is what the target declares, clamped if and only if it does so more than once |
| NegotiatedValues.DigestsAreNegotiated | internal/login/negotiation.go:106-120 | a digest is on if and only if the first item of the answer that was offered, white space aside, is CRC32C |
| NegotiatedValues.AcceptedIff | internal/login/login.go:413-432 | a login is accepted if and only if each answer to a known key can be resolved with what was proposed last |
| EndToEnd.WireKeepsDataIn | internal/pdu/target.go:262-304 | a Data-In PDU put on the wire is found by its tag and decoded as what it was |
| EndToEnd.ReadReachesCaller | internal/transport/pump.go:83-158 | at every level: the target's PDUs for a read, in any order and mixed with others, stamped, framed, read by the pump and told apart by tag: what the task's channel has yielded so far are the first of them, and the task loop makes of these the one Result with the stream's bytes in order if and only if up to the S-bit they are the whole stream, and else nothing, or an error first |
| EndToEnd.ResidualReachesCallerIff | internal/session/datain.go:165-187 | the Result of a read has the target's overflow, count and status, but its underflow if and only if there was none |
| WriteOnWire.WireKeepsDataOut | internal/pdu/initiator.go:228-250 | a Data-Out PDU put on the wire is decoded as what it was |
| WriteOnWire.WriteIsSelected | internal/session/session.go:888-916 | the command and all Data-Out PDUs of a write, as they are marshalled, are told by the target to belong to that write |
| WriteOnWire.WriteCrossesWire | internal/session/dataout.go:42-86 | the command and the Data-Out PDUs of a write that can be opened and is asked for in order, mixed with any other PDUs, stamped and framed, read by a target that takes a PDU only as unsolicited or under the tag of its outstanding R2T, with the next number and offset and the F bit where it ends: exactly the source is in its buffer, and no R2T is left |

## Left out

- Liveness of acquire, Drain, Close and reconnect: wake-ups can be lost and depend on the scheduler; only safety is proved.
- Timers, deadlines, contexts, logging, metrics and hooks: a timeout is a parameter of the step it ends. The SNACK timer and Status SNACK are not modelled.
- ErrorRecoveryLevel 2 and the same-connection retry after a Reject: connection replacement unregisters tags its own comments say it keeps.
- Login dialogue, CHAP, discovery, logout, keepalive, renegotiation and asynchronous events: request and response around the parts modelled here. Discovery's own persistent registration is not in the task table.
- SCSI command builders, response parsers and sense tables, and the public wrappers: field placement.
- CRC32C: a function parameter; proved is which bytes it covers.
- Digests of SNACK and SendTargets PDUs: the code does not stamp them; the model's SNACK PDUs carry no digests.
- ExpStatSN in Data-Out and SNACK PDUs is a value supplied by the session and not followed through the write path.
- DataIn.Task.HandleDataIn: is for tasks that read; the result channel never blocks, since a second Result is put in a list where the original would wait for the caller; a chunk for a closed streaming reader is recorded where the original panics, and Delivery.SendsAfterCloseIff says when that is.
- Reassembly.RunInvariant: is for conforming streams, since after a gap error at level 0 the original keeps the task and may report again.
- TaskLoop.RunTaskLoop: R2Ts are in WritePath.Serve, and the two are not interleaved; a Reject at level 1 and above, which sends the command again on the same connection, is left out.
- Delivery.SendsAfterCloseIff: is about the Data-In PDUs that the loop handles; a loop that sees in between that its task is done handles no more of them.
- WritePath.WriteReachesTarget: is for R2Ts that follow each other without gaps within MaxBurstLength, the only ones a target may send with DataSequenceInOrder=Yes and one outstanding R2T; WritePath.WriteIsRightIff is about all that stay within the data and MaxBurstLength.
- DataOut.WriteTask.SendDataOutBurst: reads into a new buffer with arbitrary contents in place of a pooled one.
- Framer.ReadRawPDU: the two digests of a PDU are optional values in place of flags with values, and the pooled BHS buffer is a new one.
- Framer.WriteRawPDU: a connection fails when it has taken a fixed number of bytes.
- Router.Router.Register: a channel is known by its place in the list of channels made, since they have no other identity in the model.
- SessionTable.Session.BeginTask: allocation, registration and the entry in the task table, three critical sections, are one step; and a tag handed out is not in use, that is, nothing is outstanding for 2^32-1 allocations.
- Reconnect.Reinstate: no other operation comes in between the retries, nor within a reconnect of ReconnectRuns; dialling and login are the outcomes of the attempts.
- Reconnect.RetryTask: the old loop does not run during a retry; what it can still do to the task afterwards is in RetriedReads.RetriedReadIsPureIff, MovedSource.MovedOpeningIsRightIff and Reconnect.RetriedTaskKeepsEntriesIff.
- MovedSource.MovedOpeningIsRightIff: a source that moves only after the opening is at another place when the next R2T is answered, and WritePath.AnswerIsRightIff is about any place.
- WriteOnWire.WriteCrossesWire: is for a target with one outstanding R2T that does not use the reserved tag, and takes immediate data as offset 0; it reads with the framing of this project.
- Reconnect.RetryTasks: no two tasks in the table share their reassembly, since each submission makes its own; Reconnect.Reinstate requires the same.
- Pump.Pump.HandUnasked: that the session takes PDUs from the channel while the pump waits is one step, just before the waiting NOP-In is queued.
- RetriedReads.RetriedReadIsPureIff: a PDU is handled as one step, where the two loops of the original share the task without a lock.
- Bhs.MarshalBHS: the bits of a PDU are put together on values and written field by field, in one order for all PDUs.
- Bhs.OfRawInvertsToRaw: 64-bit LUN handling beyond single-level addressing is not modelled.
- Negotiation.Negotiate: keys outside the registry are skipped when the text is read, and the bytes of a value are read as characters; white space that takes more than one byte in UTF-8 is not trimmed.
