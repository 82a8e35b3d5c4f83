# Verified model of the CrocoFIX engine

CrocoFIX is a FIX engine. This project models the parts of it whose correctness does not show
in any single function, and proves what holds of them on every input and in every run:

- **The session protocol** (`SessionModel`, `Session`, `SessionRuns`, `SessionPair`,
  `SessionRecovery`, `SessionReset`, `SessionResetLimits`, `SessionNextExpected`, `SessionWire`,
  `SessionReactions`, `SessionLife`): logon, sequence number checking, ResendRequest and GapFill recovery, ResetSeqNumFlag,
  NextExpectedMsgSeqNum, test requests and heartbeats. `Session.Session` is the class with the
  handlers; every handler, and every run of the object, is proved to compute exactly a function
  of `SessionModel` and `SessionRuns`. The properties are proved about those functions, over every
  run of one session whatever its peer sends and over every interleaving of two sessions joined by
  two first-in first-out channels, and carried back to the object's own log and messages.
- **The codec** (`Bytes`, `Fields`, `Codec`, `CodecTheorems`, `CodecErrors`, `Message`): the restartable
  tag=value decoder with length-prefixed data fields and an incremental checksum, and the
  bounded-buffer encoder that rewrites BodyLength and CheckSum in place.
- **The transport buffers** (`Reassembly`, `SocketReader`, `SocketWriter`, `EndToEnd`): the
  compacting 8192-byte read window, the asyncio reader with leftovers, and the two swapping
  write buffers with the re-entrant high-water wait.
- **The order book** (`OrderModel`, `OrderTheorems`, `OrderHistory`, `OrderBook`): pending, commit and rollback
  of orders and the chains of cancel/replace.
- **The dictionary tool chain** (`FieldIndex`, `Orchestra`, `OrchestraGroups`): the generated sparse field index,
  and the conversion of a repository into an orchestration.

`dafny verify dfyconfig.toml` checks the whole project.

## What the proofs found

Where a property does not hold of the code, the code is modelled as it is and the exact
condition is proved:

- A fresh pair logs on, recovers and always ends in step if and only if neither side expects a
  number its peer has not reached and at most one side is behind. A side ahead logs out; with
  both behind, each drops the other's ResendRequest because its number is too high, and both
  wait for ever (`SessionRecovery.RecoveryEndsInStepIff`, for any starting numbers).
- A reset Logon sent on a logged on pair, whatever is in flight, is safe if and only if, when it
  is sent, no post-logon test request timer is pending on either side, nothing is on its way to
  the side that resets and no test request to its peer, and the peer sends no heartbeat and no
  application message before it has taken the reset Logon (`SessionResetLimits.ResetIsSafeIff`,
  over every run). A message with an old number that reaches the resetting side is taken for a
  gap: that side leaves the resetting state, resets a second time when the peer's own reset Logon
  arrives, and the test requests of the two resets get confused until one side disconnects.
- In next-expected mode no run contains a Reject or a Logout if and only if the initiator expects
  no number the acceptor has not reached, and the acceptor expects the number of the initiator's
  Logon or the one after it (`SessionNextExpected.NextExpectedIsPeacefulIff`, for any starting
  numbers). An acceptor that is behind rejects the initiator's gap fill, because taking the
  initiator's Logon has already moved its expected number past the gap.
- Incoming numbers are consumed without gap or overlap if and only if, in next-expected mode,
  every accepted Logon carried the expected number, which that mode does not check
  (`SessionRuns.RunTilesIff`, over every run).
- Neighbours on the wire carry consecutive numbers if and only if the writer refused nothing
  between them: a refused message has already taken its number (`SessionWire.WireIsConsecutiveIff`,
  over every run).
- A message round-trips through the encoder and the decoder if and only if no data field takes
  its length from BodyLength, whose value the encoder replaces (`CodecTheorems.RoundTripIff`).
- The encoder's signed checksum agrees with the decoder's if and only if it is not a negative
  number with a remainder; in that case encode throws (`CodecTheorems.ChecksumsAgreeIff`).
- The read window is never full if and only if every field takes at most 8192 bytes
  (`Reassembly.WindowBoundedIff`).
- A message is answered with an error and yet changes the order book if and only if it is a
  Replaced report for an order in the book whose replacement would get a key that is taken
  (`OrderTheorems.ErrorChangesIff`); an exception leaves the book changed if and only if it comes
  from a cancel/replace request without a ClOrdID (`OrderTheorems.ExceptionChangesIff`).
- An order key stands for more than one triple of SenderCompID, TargetCompID and ClOrdID if and
  only if one of the three contains a dash (`OrderTheorems.KeyIsAmbiguousIff`).
- Decoding throws if and only if the buffer starts with whole fields, none of them CheckSum, and
  what follows cannot start a field (`CodecErrors.DecodeThrowsIff`).
- A content line that names an unknown component ends the component in the repository's own
  flattening but is only skipped by the conversion, so the two can differ
  (`OrchestraGroups.UnknownNameDiffers`); on complete repositories they agree.
- The status an order had before a rejected request comes back if and only if it had one or no
  report in between carried one (`OrderTheorems.RejectRestores`).

## Modelling choices

- A message that has passed the session's numeric parsing carries numbers; a text that does not
  parse is `Other`. The CheckSum, BodyLength, BeginString and CompID validations, which all
  reject and close in the same way, are the one flag `intact` of a session message; what the
  first two compute is proved about the codec.
- Post-logon test request callbacks are a count plus a flag for the newest token, because the
  session can only cancel the newest one. The heartbeat timer is a flag and may fire at any
  time; elapsed time is not modelled.
- The acceptance log and, in the transport classes, the bytes received and sent are ghost state.
- The socket appears as the bytes it delivers and the moment a write completes. What the event
  loop does while a write waits is an explicit schedule: completions, nested writes, other
  events.
- `std::map` stores orders by value and `order::replace` copies, so a book maps keys to order
  values; handlers work on an object made from the value and store it back.
- The decoder asks the dictionary which tags it knows and which are data fields;
  `FieldIndex.GeneratedDictionary` says what the generated collection answers.

## Model

| member | source | states |
|---|---|---|
| `Session.Session.constructor` | libcrocofix/session.cpp:12-32 | a new session is connected, with the configured numbers and nothing sent |
| `Session.Session.Send` | libcrocofix/session.cpp:784-822 | the whole new state: a reset Logon restarts both numbers and goes out as 1, any other message takes the next number |
| `Session.Session.SendGapFill` | libcrocofix/session.cpp:765-776 | a gap fill goes out under the given number and takes none |
| `Session.Session.PerformResend` | libcrocofix/session.cpp:778-782 | one gap fill up to the next outgoing number, whatever was asked for |
| `Session.Session.SendLogon` | libcrocofix/session.cpp:380-397 | a Logon with the heartbeat interval and, in next-expected mode, the expected number |
| `Session.Session.SendTestRequest` | libcrocofix/session.cpp:593-608 | a fresh id is remembered as the expected one and sent |
| `Session.Session.SendPostLogonTestRequest` | libcrocofix/session.cpp:575-591 | the test request is asked at once, or a callback is scheduled |
| `Session.Session.StopTestRequestTimer` | libcrocofix/session.cpp:567-573 | only the newest callback is cancelled |
| `Session.Session.StartDefibrillator` | libcrocofix/session.cpp:47-63 | heartbeats run exactly when the interval is not zero |
| `Session.Session.Close` | libcrocofix/session.cpp:40-45 | the session is disconnected and nothing else changes |
| `Session.Session.SendReject` | libcrocofix/session.cpp:534-548 | a Reject that refers to the message |
| `Session.Session.SendLogout` | libcrocofix/session.cpp:550-565 | a Logout goes out, heartbeats stop if logged on, the session closes |
| `Session.Session.RequestResend` | libcrocofix/session.cpp:315-335 | recovery begins: target and resent number are set and one ResendRequest from the expected number is sent |
| `Session.Session.SequenceNumberIsHigh` | libcrocofix/session.cpp:278-299 | a too-high number begins a recovery or extends the target of the one in flight |
| `Session.Session.SequenceNumberIsLow` | libcrocofix/session.cpp:301-313 | a too-low number logs out |
| `Session.Session.ValidateSequenceNumbers` | libcrocofix/session.cpp:265-276 | true exactly for the expected number, with the effects of the two checks otherwise |
| `Session.Session.Reset` | libcrocofix/session.cpp:497-503 | heartbeats stop, both numbers restart at 1 |
| `Session.Session.ExtractHeartbeatInterval` | libcrocofix/session.cpp:505-532 | a missing or malformed interval is rejected and logged out |
| `Session.Session.ProcessNextExpected` | libcrocofix/session.cpp:409-453 | the whole outcome of a Logon in next-expected mode, error cases included |
| `Session.Session.ReplyNextExpected` | libcrocofix/session.cpp:439-452 | a gap fill if more than one message was missed, the acceptor's Logon, then the test request, in that order |
| `Session.Session.ProcessReset` | libcrocofix/session.cpp:455-472 | the whole outcome of a reset Logon, answered or answering |
| `Session.Session.ProcessPlain` | libcrocofix/session.cpp:474-489 | the whole outcome of an ordinary Logon |
| `Session.Session.ProcessLogon` | libcrocofix/session.cpp:399-489 | the whole outcome of a Logon, and whether it is accepted |
| `Session.Session.ProcessHeartbeat` | libcrocofix/session.cpp:634-661 | only the expected answer, or an answer to nothing, completes a logon; a wrong id disconnects |
| `Session.Session.ProcessTestRequest` | libcrocofix/session.cpp:615-632 | the heartbeat answers with the same id |
| `Session.Session.ProcessResendRequest` | libcrocofix/session.cpp:727-763 | the pending test request is put off, the gap filled, and the test request asked again |
| `Session.Session.CompleteRecovery` | libcrocofix/session.cpp:720-724 | a recovery that has reached its target asks a test request |
| `Session.Session.ProcessSequenceReset` | libcrocofix/session.cpp:663-725 | every branch of a SequenceReset, and the numbers a gap fill consumes |
| `Session.Session.Dispatch` | libcrocofix/session.cpp:145-156 | the handler of each accepted message type |
| `Session.Session.Admit` | libcrocofix/session.cpp:132-141 | a Logon is accepted by its handler, any other message exactly when it carries the expected number |
| `Session.Session.OnMessageRead` | libcrocofix/session.cpp:86-157 | receiving any message has exactly the outcome `SessionModel.Receive` |
| `Session.Session.Open` | libcrocofix/session.cpp:365-378 | only a connected session opens, and only an initiator sends its Logon |
| `Session.Session.OnTestRequestTimer` | libcrocofix/session.cpp:581-584 | the scheduled test request goes out |
| `Session.Session.Defibrillate` | libcrocofix/session.cpp:73-84 | a heartbeat goes out only while logged on |
| `Session.Session.Handle` | libcrocofix/session.cpp:12-157 | one event of any kind has the outcome `SessionRuns.React`, and the object's own log and messages keep following on from the configured numbers |
| `Session.Session.Drive` | libcrocofix/session.cpp:12-157 | any run of events has exactly the outcome `SessionRuns.Run`, on the object |
| `Session.Session.ConsumedOnce` | libcrocofix/session.cpp:132-143 | of the object's own log: since the last restart every number up to the expected one was consumed exactly once |
| `Session.Session.SentConsecutively` | libcrocofix/session.cpp:610-613 | of the object's own messages: consecutive numbers, 1 for a reset Logon, and NewSeqNo after a gap fill |
| `SessionReactions.DamagedIsRejected` | libcrocofix/session.cpp:90-104 | a message that fails a validation: one Reject, closed, nothing consumed |
| `SessionReactions.StrangerIsLoggedOut` | libcrocofix/session.cpp:337-363 | an acceptor that has seen no Logon answers anything but Logon, Reject and Logout with Reject and Logout and closes |
| `SessionReactions.DuplicateIsIgnored` | libcrocofix/session.cpp:127-130 | an administrative PossDup message changes nothing |
| `SessionReactions.TooLowLogsOut` | libcrocofix/session.cpp:301-313 | any other message with a number too low: one Logout, closed, heartbeats stopped if logged on |
| `SessionReactions.TooHighAsks` | libcrocofix/session.cpp:278-335 | with a number too high: the exact ResendRequest and recovery, or only the raised target |
| `SessionReactions.LogoutCloses` | libcrocofix/session.cpp:154-155 | a Logout in sequence is consumed and closes the session without an answer |
| `SessionReactions.OthersAreTaken` | libcrocofix/session.cpp:143-157 | application messages, Rejects and XMLnonFIX in sequence are consumed and do nothing else |
| `SessionReactions.TestRequestIsAnswered` | libcrocofix/session.cpp:615-632 | a heartbeat with the same id, or a Reject without one |
| `SessionReactions.HeartbeatCompletes` | libcrocofix/session.cpp:634-661 | exactly when a heartbeat logs the session on and starts heartbeats, when it disconnects, and when it does nothing |
| `SessionReactions.ResendRequestIsFilled` | libcrocofix/session.cpp:727-782 | the newest callback is taken back; one gap fill and a test request, a Reject, or nothing |
| `SessionReactions.BackwardResetIsRejected` | libcrocofix/session.cpp:663-693 | a SequenceReset without a readable number above the expected one is rejected and nothing else changes |
| `SessionReactions.PlainResetMovesResent` | libcrocofix/session.cpp:715-724 | without GapFill only the resent number moves, and a recovery that has reached its target is confirmed |
| `SessionReactions.GapFillIsTaken` | libcrocofix/session.cpp:695-724 | in its turn a gap fill consumes exactly its range if the session waits for one, else it is rejected |
| `SessionReactions.GapFillOutOfTurn` | libcrocofix/session.cpp:697-699 | out of its turn it is handled like any other number |
| `SessionReactions.LogonWithoutInterval` | libcrocofix/session.cpp:505-532 | Reject, Logout, closed |
| `SessionReactions.NextExpectedLogon` | libcrocofix/session.cpp:409-453 | the whole outcome in next-expected mode |
| `SessionReactions.ResetLogon` | libcrocofix/session.cpp:455-472 | the whole outcome of a reset Logon |
| `SessionReactions.PlainLogon` | libcrocofix/session.cpp:474-489 | the whole outcome of any other Logon |
| `SessionLife.OpenLogsOn` | libcrocofix/session.cpp:365-397 | open() works once, and the initiator's Logon carries its interval and the next number |
| `SessionLife.SubmitGoesOut` | libcrocofix/session.cpp:784-822 | what the application sends takes the next number; a reset Logon restarts both sequences |
| `SessionLife.TimerAsks` | libcrocofix/session.cpp:575-608 | a scheduled test request asks once, under a fresh id |
| `SessionLife.HeartbeatGoesOut` | libcrocofix/session.cpp:73-84 | the heartbeat timer sends exactly one heartbeat without an id while logged on, nothing otherwise |
| `SessionLife.IntervalIsLast` | libcrocofix/session.cpp:505-532 | over every run the interval is that of the last Logon whose interval could be read, else the configured one |
| `SessionLife.HeartbeatsSinceLogon` | libcrocofix/session.cpp:47-63 | over every run: a logged on session sends heartbeats if and only if the interval was not zero when it got logged on |
| `SessionLife.HeartbeatsAgree` | libcrocofix/session.cpp:380-407 | in every run of a fresh pair, in either mode, a logged on side uses the initiator's interval and beats if and only if it is not zero |
| `SessionLife.LogoutClosesBoth` | libcrocofix/session.cpp:491-495 | in every run of a fresh pair: once a Logout is delivered in sequence both sides are closed, and stay so |
| `SessionRuns.RunTiles` | libcrocofix/session.cpp:86-157 | over every run the numbers consumed follow each other without gap or overlap up to the expected number |
| `SessionRuns.EveryNumberConsumedOnce` | libcrocofix/session.cpp:132-143 | since the last restart, every number from the starting one up to the expected one was consumed by exactly one message or gap fill, and no other number, whatever was received |
| `SessionRuns.NextExpectedLogonTilesIff` | libcrocofix/session.cpp:409-453 | in next-expected mode an accepted Logon leaves no hole if and only if it carries the expected number |
| `SessionRuns.RunTilesIff` | libcrocofix/session.cpp:86-157 | over every run in either mode: no gap and no overlap if and only if every accepted Logon carried the expected number where it is not checked |
| `SessionRuns.RunNumbers` | libcrocofix/session.cpp:784-822 | over every run every numbered message carries the next number, a reset Logon 1, and every gap fill announces the next number |
| `SessionRuns.WireNumbersAreConsecutive` | libcrocofix/session.cpp:610-613 | of the messages handed to the writer: two numbered ones with only gap fills between them carry consecutive numbers; the one after a gap fill carries its NewSeqNo; a reset Logon carries 1 |
| `SessionWire.RefusalsLeaveGaps` | libcrocofix/session.cpp:800-819 | over every run: between neighbours on the wire exactly as many numbers are missing as messages were refused |
| `SessionWire.WireIsConsecutiveIff` | libcrocofix/session.cpp:800-819 | neighbours on the wire carry consecutive numbers if and only if nothing was refused between them |
| `SessionTransport.SendThrough` | libcrocofix/socket_writer.cpp:32-44 | the number is taken in any case; the message is refused, and nothing is written, if and only if it does not fit the room left |
| `SessionRuns.ResendRequestEntersRecovery` | libcrocofix/session.cpp:315-335 | an event sends a ResendRequest if and only if it moves the session into recovery |
| `SessionRuns.AsksOnce` | libcrocofix/session.cpp:278-299 | no event sends two ResendRequests |
| `SessionRuns.RequestsAreSeparated` | libcrocofix/session.cpp:278-335 | between any two ResendRequests of any run there is a point at which the session is not recovering |
| `SessionRuns.TargetNeverDecreases` | libcrocofix/session.cpp:282-291 | during a recovery the target never decreases |
| `SessionRuns.TargetCoversEverythingSeen` | libcrocofix/session.cpp:278-299 | over every run the target of a recovery is at least every number found too high since it began |
| `SessionPair.NormalPairStep` | libcrocofix/session.cpp:86-157 | a settled pair stays settled under every delivery, timer, heartbeat and application send; no Reject, Logout or ResendRequest; no application message lost, duplicated or reordered; internal steps use up the rank |
| `SessionPair.NormalQuiescent` | libcrocofix/session.cpp:634-661 | a settled pair with nothing left to happen is logged on and in step, and all application messages have arrived |
| `SessionRecovery.RecoveringStep` | libcrocofix/session.cpp:86-157 | the inductive invariant of a recovering logon, under every possible step |
| `SessionRecovery.RecoveryIsSafe` | libcrocofix/session.cpp:278-335 | in every run of an opened pair of which at most one is behind by any amount: no Reject, Logout or disconnection, at most one ResendRequest, every gap fill arrives at the expected number and moves above everything received; when nothing is left to happen both are logged on and in step |
| `SessionRecovery.RecoveryTerminates` | libcrocofix/session.cpp:663-782 | from any point of such a run, deliveries and timers run out within Rank steps |
| `SessionRecovery.BothBehindStops` | libcrocofix/session.cpp:278-299 | with both sides behind there is a run that stops out of step |
| `SessionRecovery.RecoveryEndsInStepIff` | libcrocofix/session.cpp:132-143 | for any starting numbers: every run stays connected and ends in step if and only if neither side expects a number its peer has not reached and at most one is behind |
| `SessionReset.CrossedResetsSettle` | libcrocofix/session.cpp:462-465 | two reset Logons that cross settle the pair |
| `SessionReset.ResetConverges` | libcrocofix/session.cpp:786-791 | after a reset by a side that is poised, or two resets that cross on a pair at rest, every run in which a side sends nothing of its own accord before it has taken the reset Logon is free of Logout, Reject, ResendRequest and disconnection, and ends logged on and in step |
| `SessionResetLimits.StirredDooms` | libcrocofix/session.cpp:278-299 | a message with an old number on its way to the side that resets, a test request ahead of its reset Logon, or a pending timer on either side leaves a run of deliveries and timers that disconnects, whatever the delays |
| `SessionResetLimits.ResetIsSafeIff` | libcrocofix/session.cpp:455-472 | for any logged on pair and over every run after a reset: at no point can deliveries and timers disconnect if and only if the side that resets was poised and the peer sent nothing before it took the reset Logon |
| `SessionNextExpected.NextExpectedAgrees` | libcrocofix/session.cpp:409-453 | with the acceptor up to date, or one ahead, and the initiator behind by any amount: no Reject, Logout, ResendRequest or disconnection in any run, a gap fill lands exactly on the acceptor's Logon, and the run ends in step |
| `SessionNextExpected.AcceptorBehindRejects` | libcrocofix/session.cpp:688-693 | an acceptor that is behind by any amount rejects in some run |
| `SessionNextExpected.AcceptorAheadLogsOut` | libcrocofix/session.cpp:432-437 | an acceptor ahead by more than one makes the initiator log out |
| `SessionNextExpected.NextExpectedIsPeacefulIff` | libcrocofix/session.cpp:409-453 | for any starting numbers: no run contains a Reject or Logout if and only if the initiator is not ahead and the acceptor is up to date or one ahead |
| `Bytes.NumberOfDigitsIsLength` | libcrocofixutility/number_of_digits.cppm:11-38 | for every 64-bit value the comparisons count the digits of its decimal text |
| `Bytes.TagTextIsShortest` | libcrocofix/message.cpp:62-68 | any other text read as the same tag is longer than its decimal text |
| `Bytes.SumsAgree` | libcrocofix/message.cpp:125-130 | the wrapping char sum, the signed sum and the byte sum agree modulo 256 |
| `Fields.GetAfterSet` | libcrocofix/field_collection.cpp:21-41 | for each set operation, exactly when the field is found under its tag afterwards; no other lookup changes |
| `CodecTheorems.ParseIsStable` | libcrocofix/message.cpp:54-114 | a field that is there, or is malformed, stays so when more bytes arrive |
| `CodecTheorems.DecodeRestarts` | libcrocofix/message.cpp:47-133 | decoding what is left of a followed by b gives the fields, completeness, consumption and checksum of decoding a + b at once, for every a and b |
| `CodecTheorems.DecodeIsComplete` | libcrocofix/message.cpp:116-133 | bytes behind a complete or malformed message change nothing |
| `CodecTheorems.StreamRestarts` | libcrocofix/message.cpp:47-133 | a stream of messages can be cut anywhere |
| `CodecTheorems.DecodeMessage` | libcrocofix/message.cpp:47-133 | a whole encoded message decodes to its fields and checksum and every byte of it is consumed |
| `CodecTheorems.RoundTrip` | libcrocofix/message.cpp:47-208 | the standard encoding decodes to the fields up to the first CheckSum, with BodyLength and CheckSum rewritten, and every byte is consumed |
| `CodecTheorems.RoundTripIff` | libcrocofix/message.cpp:172-208 | readable fields round-trip if and only if no data field directly follows BodyLength |
| `CodecTheorems.StampedLayout` | libcrocofix/message.cpp:172-234 | the body stands on the wire exactly between the BodyLength field and the CheckSum field |
| `CodecTheorems.EmittedPassesValidation` | libcrocofix/session.cpp:159-211 | every message with BodyLength ahead of CheckSum that is encoded with the standard options passes the receiver's CheckSum and BodyLength checks |
| `CodecTheorems.ChecksumsAgreeIff` | libcrocofix/message.cpp:256-259 | the encoder's remainder equals the decoder's if and only if the signed sum is not negative with a remainder |
| `CodecTheorems.CheckSumTextReads` | libcrocofix/message.cpp:247-254 | the CheckSum text is the three-digit decimal form of its number |
| `CodecTheorems.SevenBitEncodes` | libcrocofix/message.cpp:183-186 | encoding a message of 7-bit values never throws |
| `CodecTheorems.PlainEncoding` | libcrocofix/message.cpp:172-208 | without options the fields go out as they are |
| `CodecTheorems.LengthOnlyEncoding` | libcrocofix/message.cpp:174-176 | with BodyLength alone only that field changes and nothing is cut off |
| `CodecTheorems.SumOnlyEncoding` | libcrocofix/message.cpp:183-198 | with CheckSum alone everything ahead of it stays and everything behind it is cut off |
| `CodecErrors.FromCharsReads` | libcrocofix/message.cpp:64-68 | a tag is read from the digits a text starts with, after an optional minus sign, if an int can hold them |
| `CodecErrors.FromCharsFails` | libcrocofix/message.cpp:64-68 | any other text is not read |
| `CodecErrors.StoiReads` | libcrocofix/message.cpp:77-84 | a data length is read in the same way, after white space and with a plus sign too |
| `CodecErrors.StoiFails` | libcrocofix/message.cpp:77-84 | any other text is not read |
| `CodecErrors.MalformedIsBad` | libcrocofix/message.cpp:56-94 | a field throws if and only if its tag cannot be read or is not known, or it is a data field without a length or without a separator where the length ends |
| `CodecErrors.WholeFieldIsRead` | libcrocofix/message.cpp:86-114 | a known tag and a value up to its separator are read as that field, whatever follows |
| `CodecErrors.UnfinishedFieldWaits` | libcrocofix/message.cpp:86-107 | a field that is neither whole nor malformed waits for more bytes |
| `CodecErrors.DecodeThrowsIff` | libcrocofix/message.cpp:47-133 | decoding throws if and only if whole fields, none of them CheckSum, are followed by what cannot start a field |
| `CodecErrors.MalformedThrows` | libcrocofix/message.cpp:66-94 | in particular behind any readable fields |
| `Messages.FormattedReads` | libcrocofix/message.cpp:247-254 | a checksum is formatted if and only if it is below 1000, as three digits that read back |
| `CodecTheorems.ReencodeIff` | libcrocofix/message.cpp:47-208 | writing back the fields decoded from exactly w gives w if and only if w spells every tag in decimal form |
| `CodecTheorems.ValidatedReencodes` | libcrocofix/message.cpp:172-208 | a canonical message that passes validation is encoded back to the same bytes |
| `Messages.AccumulatorIsExact` | libcrocofix/message.cpp:125-130 | adding a wrapping char sum to the 32-bit accumulator adds the byte sum modulo 256 |
| `Messages.EncoderChecksum` | libcrocofix/message.cpp:247-259 | the encoder writes the byte sum modulo 256 or throws, exactly when the signed remainder is negative |
| `Messages.EncodeField` | libcrocofix/message.cpp:135-170 | the field is written in place if and only if all of it fits; nothing ahead of it changes |
| `Messages.EncodeHead` | libcrocofix/message.cpp:178-205 | the loop up to the CheckSum writes exactly those fields, or fails because they do not fit |
| `Messages.Message.Reset` | libcrocofix/message.cpp:40-45 | the message is fresh again |
| `Messages.Message.Decode` | libcrocofix/message.cpp:47-133 | the decoding loop computes `Codec.Decode`; an exception leaves the fields before it and the checksum as it was |
| `Messages.Message.CalculateBodyLength` | libcrocofix/message.cpp:210-234 | the loop counts the bytes the body takes on the wire |
| `Messages.Message.Encode` | libcrocofix/message.cpp:172-208 | 0 if and only if the full encoding is empty or exceeds the room, else the whole encoding in place; throws if and only if the head fits and its checksum cannot be formatted; nothing ahead of the offset changes; the fields left behind |
| `Reassembly.PartOfStream` | libcrocofix/socket_reader.cpp:28-75 | however much of a well-formed stream has arrived, it does not fail, exactly the messages there in full are dispatched in order, and less than one field is left over |
| `Reassembly.WholeStream` | libcrocofix/socket_reader.cpp:58-71 | a whole well-formed stream gives all its messages and nothing is left over |
| `Reassembly.WindowBoundedIff` | libcrocofix/socket_reader.cpp:30-44 | the window stays smaller than the buffer, whatever has arrived, if and only if no field is longer than the buffer |
| `SocketReaders.SocketReader.Compact` | libcrocofix/socket_reader.cpp:30-44 | the window is kept, and there is no room if and only if the window fills the buffer |
| `SocketReaders.SocketReader.OnData` | libcrocofix/socket_reader.cpp:49-74 | the messages dispatched are those of one parse of everything received, the window is the unparsed rest, and the call throws exactly when that parse fails; the inner loop terminates |
| `SocketReaders.SocketReader.Run` | libcrocofix/socket_reader.cpp:28-75 | over every split of a well-formed stream with fields of at most 8192 bytes every read gets room, nothing throws, and exactly the messages that have arrived are dispatched, however long they are |
| `StreamReaders.StreamReader.ProcessData` | libcrocofixpython/crocofix/streams/stream_reader.py:15-28 | the same with leftovers: dispatched messages and leftovers are those of one parse of everything received |
| `StreamReaders.StreamReader.ReadMessages` | libcrocofixpython/crocofix/streams/stream_reader.py:31-37 | over any split into reads, up to the empty read, the messages of one parse are dispatched |
| `SocketWriters.WriteBuffer.Append` | libcrocofix/socket_writer.cpp:32-44 | the encoding goes behind what is there, or nothing changes and the message does not fit |
| `SocketWriters.SocketWriter.Append` | libcrocofix/socket_writer.cpp:32-44 | the pending buffer and the log grow by exactly the encoding; the active buffer is not touched |
| `SocketWriters.SocketWriter.FlushPendingWrites` | libcrocofix/socket_writer.cpp:56-84 | a socket write starts only if none is outstanding; then the buffers swap and it is given everything pending |
| `SocketWriters.SocketWriter.Complete` | libcrocofix/socket_writer.cpp:70-82 | the bytes of the write count as sent and everything pending goes out next |
| `SocketWriters.SocketWriter.Write` | libcrocofix/socket_writer.cpp:24-54 | bytes sent, in flight and pending are the encodings in call order, nested writes included; the message is refused if and only if it does not fit; the call waits only with a write outstanding and more than 7500 bytes pending, and leaves at most that |
| `SocketWriters.SocketWriter.Wait` | libcrocofix/socket_writer.cpp:48-53 | the wait ends with both buffers empty, whatever the event loop does meanwhile |
| `SocketWriters.SocketWriter.Run` | libcrocofix/socket_writer.cpp:24-84 | if no handler run by a wait writes, every non-empty message of at most 692 bytes that can be checksummed is accepted at every call, in call order |
| `EndToEnd.WrittenIsRead` | libcrocofix/session.cpp:784-822 | of messages written one after the other, however much has been received, exactly those there in full are dispatched, in order, with the stamped fields, and each passes validation |
| `OrderBooks.LiveOrder.UpdatePendingFields` | libcrocofix/order.cpp:43-50 | the loop merges every field that does not identify the order |
| `OrderBooks.LiveOrder.UpdateFields` | libcrocofix/order.cpp:52-59 | the same for the order's own fields |
| `OrderBooks.LiveOrder.Update` | libcrocofix/order.cpp:84-104 | the whole new order for each message type, also when it throws half way |
| `OrderBooks.LiveOrder.Commit` | libcrocofix/order.cpp:138-142 | pending fields become fields |
| `OrderBooks.LiveOrder.Rollback` | libcrocofix/order.cpp:144-152 | pending fields go and the cached status comes back |
| `OrderBooks.LiveOrder.Replace` | libcrocofix/order.cpp:106-136 | both the replacement and what is left of the order |
| `OrderBooks.OrderBook.ProcessOrderSingle` | libcrocofix/order_book.cpp:49-62 | a new order under a free key, or an error |
| `OrderBooks.OrderBook.ProcessExecutionReport` | libcrocofix/order_book.cpp:64-91 | the addressed order is updated or replaced; error and exception cases |
| `OrderBooks.OrderBook.ProcessRequest` | libcrocofix/order_book.cpp:93-121 | the addressed order takes the request; error and exception cases |
| `OrderBooks.OrderBook.ProcessOrderCancelReject` | libcrocofix/order_book.cpp:123-136 | the addressed order is rolled back |
| `OrderBooks.OrderBook.Process` | libcrocofix/order_book.cpp:18-47 | the book after any message is the one `OrderModel.After` gives for all messages so far |
| `OrderTheorems.GetAfterMerge` | libcrocofix/order.cpp:43-59 | merging overrides a field with the last one of its tag and no identity field |
| `OrderTheorems.KeysAreUnambiguous` | libcrocofix/order.cpp:61-64 | with comp ids free of dashes, keys are equal if and only if all three ids are |
| `OrderTheorems.KeyIsAmbiguousIff` | libcrocofix/order.cpp:61-64 | other ids make the same key if and only if one of the three ids contains a dash |
| `OrderTheorems.KeyAddressesOrder` | libcrocofix/order.cpp:66-82 | a request from the order's sender, or a report from its target, that names its ClOrdID finds the order |
| `OrderTheorems.UpdateKeepsIdentity` | libcrocofix/order.cpp:84-104 | no update touches an order's key, ids or the fields that carry them |
| `OrderTheorems.ReplacementIsCoherent` | libcrocofix/order.cpp:106-136 | a replacement's key and fields agree with its ids, and it names the order it replaces |
| `OrderTheorems.ReplacementFields` | libcrocofix/order.cpp:106-142 | a replacement takes each field from the request, else the report, else the order, and is New; the order keeps its fields and is Replaced |
| `OrderTheorems.ProcessKeeps` | libcrocofix/order_book.cpp:18-136 | every message keeps keys, ids and chains well founded |
| `OrderTheorems.ReachableBooks` | libcrocofix/order_book.cpp:49-91 | in every book built without NewOrderSingles that name an original, every key is its order's own, ids and fields agree, and every OrigClOrdID leads to an order that came in earlier |
| `OrderTheorems.ChainsEnd` | libcrocofix/order.cpp:113-127 | every replacement chain is acyclic and ends at a NewOrderSingle |
| `OrderTheorems.RejectRestores` | libcrocofix/order_book.cpp:64-136 | request, reports and reject for one order: its status is restored if and only if it had one or no report carried one, nothing stays pending, its other fields are as if only the reports had come, exactly as before if there were none, and no other order changes |
| `OrderTheorems.ErrorChangesIff` | libcrocofix/order_book.cpp:76-86 | a message is answered with an error and changes the book if and only if it is a Replaced report for an order in it and the key made from the new id is taken |
| `OrderTheorems.NoNewIdCollides` | libcrocofix/order_book.cpp:76-86 | such a report without a new id: an error, and the original has changed |
| `OrderTheorems.ExceptionChangesIff` | libcrocofix/order.cpp:84-94 | an exception leaves the book changed if and only if it comes from a cancel/replace request without a ClOrdID for an order in the book |
| `OrderHistory.SingleIsStored` | libcrocofix/order.cpp:31-41 | an accepted NewOrderSingle is stored with all its fields under the key of its ids, nothing pending, and no other order changes |
| `OrderHistory.RequestIsRecorded` | libcrocofix/order.cpp:84-101 | for every tag: a request's fields become pending, the status becomes PendingCancel or PendingReplace if there was one and is remembered, and a replace request names the next ClOrdID |
| `OrderHistory.AcceptedReplace` | libcrocofix/order_book.cpp:64-121 | a replace request and its Replaced report, end to end: the replacement under the requested id takes each field from the request first, and no other order but the original changes |
| `OrderHistory.PendingIsUnique` | libcrocofix/order.cpp:43-50 | in every reachable book nothing is pending twice under one tag |
| `OrderHistory.FieldsFollowReports` | libcrocofix/order.cpp:52-59 | over any messages without a Replaced report for it: every field of an order but its status is that of the last report that carries it, its ids never change, and it notes exactly its requests and reports |
| `OrderHistory.OrderSaysWhatWasReported` | libcrocofix/order_book.cpp:49-136 | the same from the NewOrderSingle on |
| `OrderHistory.SecondRejectIsIdle` | libcrocofix/order.cpp:144-152 | a second reject finds nothing to restore |
| `OrderHistory.SingleReply` | libcrocofix/order_book.cpp:49-62 | exactly when a NewOrderSingle is accepted; it never throws |
| `OrderHistory.FollowUpReply` | libcrocofix/order_book.cpp:18-136 | exactly which other messages get an error, and which an exception |
| `FieldIndex.FillGap` | lexicographer/orchestration_fields_generator.py:140-143 | the inner loop writes zeros up to the next tag and moves both counters alike |
| `FieldIndex.GenerateOffsets` | lexicographer/orchestration_fields_generator.py:137-149 | the counters write, for each tag, one more than its position, and 0 in every gap |
| `FieldIndex.EmitFields` | lexicographer/orchestration_fields_generator.py:151-161 | the dummy and the first 3001 fields are emitted |
| `FieldIndex.LookupIsSearch` | libcrocofixdictionary/orchestration_field_collection.cppm:52-61 | looking a tag up finds the field a linear search of the emitted list finds; any other tag gives the dummy in a gap, else out_of_range |
| `FieldIndex.Construct` | libcrocofixdictionary/orchestration_field_collection.cppm:27-46 | the two checks, and a name index that agrees with searching for the first field of that name |
| `FieldIndex.GeneratedIsAccepted` | libcrocofixdictionary/orchestration_field_collection.cppm:31-34 | what is generated passes the size check if and only if there is at least one field |
| `FieldIndex.GenerateAndLookup` | lexicographer/orchestration_fields_generator.py:137-161 | generating, constructing and looking up, end to end, with the exact answer for every tag |
| `FieldIndex.GeneratedDictionary` | libcrocofix/message.cpp:70-71 | which tags the decoder rejects and which it takes for data fields, with the generated collection |
| `Orchestra.ExtractFields` | fixorchestra/fixrepository/repository.py:335-353 | the recursion flattens contents in order, and a failed lookup ends the component it is in |
| `Orchestra.ReferencesToFields` | fixorchestra/fixorchestra/orchestration.py:196-211 | the recursion flattens references to fields, groups and components in order, or raises |
| `Orchestra.BuildReferences` | fixorchestra/fixreptorc/fixreptorc.py:28-46 | one reference per content line that is known, or an exception exactly when contents are missing or a tag is unknown |
| `Orchestra.ConvertComponents` | fixorchestra/fixreptorc/fixreptorc.py:91-94 | components by name become components by id |
| `Orchestra.ConvertMessages` | fixorchestra/fixreptorc/fixreptorc.py:97-101 | every message is converted |
| `Orchestra.Convert` | fixorchestra/fixreptorc/fixreptorc.py:91-101 | the conversion fails if and only if some component or message does not convert |
| `Orchestra.ConversionPreservesMeaning` | fixorchestra/fixreptorc/fixreptorc.py:28-101 | for every complete repository without cycles the conversion succeeds and every message flattens to the same tags, depths and presence |
| `OrchestraGroups.GroupsFlattenLikeComponents` | fixorchestra/fixorchestra/orchestration.py:196-207 | moving every group to a component under a fresh id leaves every flattening unchanged, exceptions included |
| `OrchestraGroups.MessagesFlattenAlike` | fixorchestra/fixorchestra/orchestration.py:210-211 | the same for whole messages |
| `OrchestraGroups.UnknownRaises` | fixorchestra/fixorchestra/orchestration.py:199-206 | a reference to an unknown field, group or component raises, wherever it stands |
| `OrchestraGroups.KnownResolves` | fixorchestra/fixorchestra/orchestration.py:196-207 | nothing raises if everything that is named is there |
| `OrchestraGroups.ExtractStopsAtUnknown` | fixorchestra/fixrepository/repository.py:335-349 | for every repository without cycles, a component flattens to the lines of its contents up to the first that names nothing known |
| `OrchestraGroups.UnknownNameDiffers` | fixorchestra/fixreptorc/fixreptorc.py:39-45 | a message with an unknown component ahead of a field has the field after the conversion and not before |

## Left out

- SessionReset.ResetConverges: a heartbeat or an application message sent by a side that has not yet taken the reset Logon is excluded: it can end in a disconnection, as SessionResetLimits.ResetIsSafeIff proves.
- SessionResetLimits.ResetIsSafeIff: takes the number the resetting side expects to be above 1, as it is once that side has taken its peer's Logon.
- SessionRuns.ResendRequestEntersRecovery: the application itself sends no ResendRequest; the same holds for the separation of requests and the claims about the target.
- SessionRecovery.RecoveryIsSafe: applications send application messages only, and only while logged on.
- Messages.Message.CalculateBodyLength: does not wrap at 32 bits, because a message of that size fits no buffer.
- SocketWriters.SocketWriter.Run: says nothing of handlers that write while a call waits; there a message is refused exactly when it does not fit, as Write states.
- 32-bit wrap-around of sequence numbers, test request ids and body lengths beyond 4 GB: numbers are unbounded. The decode checksum does wrap.
- Numeric texts with signs or trailing junk in session fields (the codec models them for tags and data lengths): a session number is a decimal text or does not parse.
- A MsgSeqNum that is missing or does not parse, and Boolean flags other than Y and N: these make the source throw out of the handler.
- SequenceReset without GapFill only moves the resent number, as in the code; no property is claimed of it beyond the tiling and numbering.
- The sequence number setters: runs start from any numbers and change them only by the protocol.
- Session handlers entered again from the writer's wait loop: the writer models nested writes, the session models handlers one at a time.
- A scheduler callback already posted when it is cancelled: cancelling removes it.
- A message the session itself sends while it handles another one is never refused by the writer; only what the application sends may be.
- A negative data length, which makes the decoder read ahead of its buffer, counts as an exception.
- `&m_read_buffer[m_read_offset]` at the very end of the window: the model decodes an empty text.
- Errors reported by the socket: reads and writes succeed. In a pair of sessions a closed session receives nothing more, because its socket is closed.
- Generated tables with offsets above 65535, which do not compile: entries are unbounded.
- `order_book::clear`, `remove`, `get_bool`, default lookups and the typed overloads of `set` in field collections: easy members.
- Messages of type UserDefined and the XMLnonFIX body beyond being administrative.
- Boost.Asio sockets, the scheduler, signals, logging, probes, timestamps and the heartbeat period.
- Lua and Python bindings, fixsed, fixcat, pretty printing, reports, XML loading and writing, pedigrees and the generated classes.
