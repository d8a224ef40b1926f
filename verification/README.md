# Verified model of the AVB demo applications

A Dafny model of the protocol code and the streaming loops of `avb-demoapps`: the ACMP connection protocol, the
EAVB entry ring with the listener and talker loops, the AVDECC entity description, the two text processors of the
launcher, and the ADP, MSRP and MAAP state. `dafny verify dfyconfig.toml` checks all of it.

Objects the program updates in place are classes with the same fields; every method is proved equal to a
function on values (`Step`, `Run`, `Parse`, `Expand`, ...), and the promises of the program are lemmas about those
functions over every input and every run.

## What the parts say

**ACMP** (`Acmp*.dfy`). `AcmpTypes` and `AcmpSpec` hold the records and the effect of every message and timer
tick; `AcmpDevice` is the code, with its four inflight slots and its stream records in arrays. `AcmpNetwork` puts
any number of entities on a network: an event delivers any frame ever sent, once more or never, in any order,
injects a controller command, or lets time pass at one entity. On this `AcmpAgreement` proves the agreement of
listener and talker records, `AcmpExclusivity` the history of a record, `AcmpRequests` that connections were asked
for, and `AcmpTiming` the timed bounds and the answers. `AcmpAnswers` says which frames an entity sends on every
message and every tick, in terms of its records and slots, and `AcmpReports` what controllers are told over whole runs. Answers are matched by sequence id alone: `AcmpCrossing` and
`AcmpDisconnects` say exactly which requests of the controllers let an answer release the command of another
request; `AcmpReach` and `AcmpDisconnectRuns` build the runs, with clock readings that never go back.
`AcmpHalfPairs` is about requests for a stream that is connected elsewhere. `AcmpTables` and `AcmpStart` lead from
the entity description to the state these invariants start from.

**EAVB** (`Cyclic`, `EavbDriver`, `EavbDevice`, `Payloads`, `SimpleListener`, `SequenceCheck`, `SimpleTalker`,
`TalkerFrames`, `TalkerLoop`, `AvbStream`). The driver is a FIFO that accepts or returns any prefix of what it is offered. `EavbDevice` proves
slot identity: after any number of laps `entrybuf[i]` still describes the page of `framebuf[i]`. The listener loop
dumps every frame handed back exactly once, in order. The talker loop conserves the bytes of its input. Together
they carry the talker's input to the listener's output; with a driver and an input that are ready both loops come to
their end.

**Entity description** (`EntityTokens`, `EntityReader`, `EntityRoundTrip`, `DescriptorNames`, `EntityTables`). The
token machine, parametric in the descriptor type table (names, how a key and a value change a descriptor); the round
trip of whole trees; and the numbering pass with the count table and the look-up.

**Text** (`CStrings`, `Template`, `CommandWords`, `AppCommand`, `Ini`, `IniParser`, `IniRoundTrip`). Character buffers ended by a
NUL are arrays; the expansion machine and the in-place line parser refine short recursive functions, which have
round trips: a command is expanded piece by piece, an INI file may have comments, blank lines, continued values and
junk.

**Smaller machines** (`Adp`, `Msrp`, `Maap`).

## Where the code and its documentation or intention differ

The model follows the code.

- A request for a listener stream that is connected elsewhere is refused at once if and only if the talker entity
  *and* the talker's unique id both differ (`AcmpHalfPairs.RefusedIfBothDiffer`). Otherwise a slot is taken and a
  command sent (`HalfPairIsTakenUp`), and the grant comes to nothing (`HalfPairComesToNothing`).
- The refusal sent when no slot is free carries the message type of the TX command, not that of a response
  (`avb-demoapps/lib/avdecc/acmp.c:483-487`).
- An answer to a controller proves that a slot was released except in exactly these cases: a command the listener
  refuses, and a CONNECT_TX_RESPONSE that reports a failure or whose slot is gone (`AcmpTiming.AnswerProvesRelease`).
- Removing a connection zeroes the whole record; only the stream with id 0 can be connected again
  (`AcmpExclusivity.OnlyStreamZeroReconnects`).
- The input counter of `acmp_ctx_init` is not cleared between configurations, so a table can be longer than its
  stream inputs (exactly when the configuration before has some, `AcmpTables.TableFits`).
- Answers are matched by sequence id only. A grant can release the command of another request if and only if two
  different requests to the same listener share a sequence id, one taken up by the listener and one granted by a
  talker (`AcmpCrossing.GrantsCross`). The answer to a disconnection matches slots of every type: it can release a
  command of another request if and only if a disconnection of a connectable stream shares its sequence id with
  another request the listener can be brought to take up (`AcmpDisconnectRuns.DisconnectsCross`, `TakenUp`).
- Pairs written behind `descriptors` or `configurations` are read with the type last seen
  (`EntityRoundTrip.TrailingPairsReadByLastType`; behind an empty list of stream inputs as one of a stream input,
  `DescriptorNames.TrailingPairReadAsStream`).
- A ring of fewer than eight slots never gives a frame back, because an eighth of it is nothing; the listener then never
  comes to its end (`SimpleListener.Listener.FiledumpLoop`, `SmallRingNeverFinishes`). The program uses 256 slots.
- A report of GET_RX_STATE names the talker entity but repeats the talker unique id of the request
  (`AcmpAnswers.StateReported`).
- Counts are sixteen bits wide; they agree with what can be read exactly up to 65535
  (`EntityTables.AdvertisedCountsAgree`). A type with more than 65536 descriptors gets more than one entry allocated
  (`EntityTables.TableFillsAllocation`; `EntryNotWritten` has 65537 audio units).
- A command left inside an open word can be refused although its expansion fits: the open word takes as much room as
  the last closed word that was at least as long (`AppCommand.OpenWordRefused`, exact condition over the words of the
  command in `AppCommand.FittingCommands`).
- A continued INI value is reported under a name cut to 49 characters (`Ini.ContinuationName`; a name of 50 characters
  in `IniRoundTrip.LongNameIsCut`).
- With a finite frame count the talker leaves its loop at the end of its input without waiting for the frames in the
  driver (`TalkerLoop.Loop.Turn`; one frame of two in `TalkerLoop.LeftWithFramesInDriver`).

## Model

| member | source | states |
|---|---|---|
| AcmpDevice.AcmpEntity.AddListenerStreamInfo | avb-demoapps/lib/avdecc/acmp.c:34-64 | The record is filled from the answer only if it is free, and the status says why otherwise; no other record changes. |
| AcmpDevice.AcmpEntity.RemoveListenerStreamInfo | avb-demoapps/lib/avdecc/acmp.c:66-93 | The record connected to the named talker pair is cleared completely; without one nothing changes. |
| AcmpDevice.AcmpEntity.ValidStream | avb-demoapps/lib/avdecc/acmp.c:249-281 | A stream id is known exactly when a descriptor of the type carries it and the record table is not empty. |
| AcmpDevice.AcmpEntity.SendCommand | avb-demoapps/lib/avdecc/acmp.c:410-516 | A new command takes the first free slot, with its timeout and original sequence id, and is sent; with no free slot nothing is stored and the refusal carries the TX message type. |
| AcmpDevice.AcmpEntity.ProcessConnectRxCommand | avb-demoapps/lib/avdecc/acmp.c:519-543 | The effect of CONNECT_RX on slots and frames, including the refusals. |
| AcmpDevice.AcmpEntity.ProcessConnectTxResponse | avb-demoapps/lib/avdecc/acmp.c:546-579 | A matching active slot is released and its record filled; a failure is answered and releases nothing. What is answered is said by `AcmpAnswers.GrantAnswered`, `RefusalPassedOn` and `LateGrant`. |
| AcmpDevice.AcmpEntity.ProcessDisconnectRxCommand | avb-demoapps/lib/avdecc/acmp.c:620-644 | The effect of DISCONNECT_RX, including the refusals. |
| AcmpDevice.AcmpEntity.ProcessDisconnectTxResponse | avb-demoapps/lib/avdecc/acmp.c:647-676 | The effect of a DISCONNECT_TX answer on the record, the slot and the frames. |
| AcmpDevice.AcmpEntity.ProcessGetRxStateCommand | avb-demoapps/lib/avdecc/acmp.c:582-617 | The state reported is that of the record; nothing changes. |
| AcmpDevice.AcmpEntity.ProcessStreamQuery | avb-demoapps/lib/avdecc/acmp.c:741-862 | CONNECT_TX and GET_TX_STATE are answered from the talker's stream record, or refused for an unknown stream. |
| AcmpDevice.AcmpEntity.ProcessTimeout | avb-demoapps/lib/avdecc/acmp.c:679-716 | An expired slot is retried once under its own command, then reported and released. |
| AcmpDevice.AcmpEntity.ReceiveProcess | avb-demoapps/lib/avdecc/acmp.c:1174-1264 | Which message is handled by which machine, and that frames for other entities change nothing. |
| AcmpDevice.AcmpEntity.StateProcess | avb-demoapps/lib/avdecc/acmp.c:1266-1304 | One timer pass treats every slot once, in order, independently of the others. |
| AcmpTables.CtxInit | avb-demoapps/lib/avdecc/acmp.c:941-991 | Table lengths, with the carried-over counter, and records numbered by the stream inputs in list order. |
| AcmpTables.TableFits | avb-demoapps/lib/avdecc/acmp.c:941-991 | A table is as long as its stream inputs if and only if the configuration before has none. |
| AcmpTables.SecondTableTooLong | avb-demoapps/lib/avdecc/acmp.c:941-991 | Two configurations with one stream input each: the second table has two records, both with unique id 0. |
| AcmpStart.RecordsStartInOrder | avb-demoapps/lib/avdecc/acmp.c:954-974 | After the numbering pass every record starts unconnected and record j carries unique id j. |
| AcmpAgreement.StepKeepsTruthful | avb-demoapps/lib/avdecc/acmp.c:741-800 | Every grant in transit and every connected record holds what the named talker holds; each event keeps this. |
| AcmpAgreement.Agreement | avb-demoapps/lib/avdecc/acmp.c:546-579 | In every reachable state a connected record names exactly one entity and holds the stream id, address and VLAN that talker has for the talker unique id, whatever the network loses, repeats or reorders. |
| AcmpExclusivity.RunKeepsSlotIds | avb-demoapps/lib/avdecc/acmp.c:34-93 | Record j carries unique id j or is cleared, and is connected only while it carries j, over every run. |
| AcmpExclusivity.RecordChanges | avb-demoapps/lib/avdecc/acmp.c:647-676 | An event leaves a record as it is, fills it by consuming an active CONNECT_TX slot with the answer's sequence id, or clears it by an answer naming its talker pair and an active slot. |
| AcmpExclusivity.ConnectionHistory | avb-demoapps/lib/avdecc/acmp.c:34-64 | A connected record was filled by one event of the run with what it holds now and has not changed since. |
| AcmpExclusivity.OnlyStreamZeroReconnects | avb-demoapps/lib/avdecc/acmp.c:83-83 | After a removal a grant for the same stream is entered again if and only if its id is 0. |
| AcmpExclusivity.ClearedStaysCleared | avb-demoapps/lib/avdecc/acmp.c:66-93 | A cleared record with another id stays cleared in the rest of every run. |
| AcmpRequests.OnlyRequestedConnections | avb-demoapps/lib/avdecc/acmp.c:519-579 | Every connection was requested by a controller for exactly this talker stream and this listener stream. |
| AcmpCrossing.GrantsCross | avb-demoapps/lib/avdecc/acmp.c:557-577 | A run in which a grant releases the command of another request exists if and only if controllers may inject two different requests to this listener under one sequence id, one it takes up and one a talker grants. |
| AcmpDisconnectRuns.DisconnectsCross | avb-demoapps/lib/avdecc/acmp.c:655-673 | A run in which the answer to a disconnection releases a command of another request exists if and only if controllers may inject a disconnection of a connectable stream and, under its sequence id, another request the listener can be brought to take up: any accepted connect request, or a disconnect command whose stream has no record from the start, is itself connectable at stream 0 or is the same stream, or is another stream that can be connected and removed. |
| AcmpDisconnects.ReleasedShareSequenceIds | avb-demoapps/lib/avdecc/acmp.c:655-673 | Every single released command of another request was given to this listener under the sequence id of a disconnection of a connectable stream. |
| AcmpHalfPairs.RefusedIfBothDiffer | avb-demoapps/lib/avdecc/acmp.c:308-330 | A request for a stream connected elsewhere is answered LISTENER_EXCLUSIVE at once if and only if both halves of the talker pair differ; otherwise it is taken up like one for a free stream. |
| AcmpHalfPairs.GrantForTaken | avb-demoapps/lib/avdecc/acmp.c:34-64 | A grant for a connected record releases its slot, leaves every record unchanged and is answered LISTENER_EXCLUSIVE. |
| AcmpHalfPairs.HalfPairIsTakenUp | avb-demoapps/lib/avdecc/acmp.c:519-543 | Whenever two talker streams that share a half of the pair can be asked for at one listener stream, some run connects the first and then sends CONNECT_TX for the second. |
| AcmpHalfPairs.HalfPairComesToNothing | avb-demoapps/lib/avdecc/acmp.c:546-579 | If a talker grants the second too, the record still holds the first and the controller is told that the stream is taken. |
| AcmpTiming.StepAnswers | avb-demoapps/lib/avdecc/acmp.c:679-716 | Each release sends exactly one answer, under the original sequence id; every transmission opens a slot or is its one retry. |
| AcmpTiming.BoundedResolution | avb-demoapps/lib/avdecc/acmp.c:1266-1304 | With the timer running at least every d, a slot still taken was opened less than 2T + 2d ago and its command sent at most twice; slots taken = slots freed + slots active; transmissions are at most twice the slots taken. |
| AcmpTiming.AnswerProvesRelease | avb-demoapps/lib/avdecc/acmp.c:519-676 | Whatever is received, the answers sent are those of the slots released if and only if the message is not a refused command, nor a CONNECT_TX_RESPONSE for this listener that fails or matches no slot; in those cases there is one answer under the received sequence id and nothing changes. |
| AcmpAnswers.GrantAnswered | avb-demoapps/lib/avdecc/acmp.c:546-579 | A grant with its command in flight is answered once, under the request's sequence id and with the stream of the grant: SUCCESS if and only if the first record with the unique id was unconnected, and then it holds what the answer says; LISTENER_EXCLUSIVE if and only if that one was connected, LISTENER_MISBEHAVING if and only if there is none, and then no record changes. |
| AcmpAnswers.RefusalPassedOn | avb-demoapps/lib/avdecc/acmp.c:557-575 | A talker's refusal is passed on with its status; nothing changes. |
| AcmpAnswers.LateGrant | avb-demoapps/lib/avdecc/acmp.c:573-575 | A grant without a command in flight is answered LISTENER_MISBEHAVING; nothing changes. |
| AcmpAnswers.DisconnectAnswered | avb-demoapps/lib/avdecc/acmp.c:647-676 | The answer to DISCONNECT_TX clears the record, releases the slot and is passed on with its status if there are a command under its sequence id and a record of this connection; otherwise nothing happens. |
| AcmpAnswers.ConnectRequested | avb-demoapps/lib/avdecc/acmp.c:519-543 | CONNECT_RX is refused for an unknown stream or one taken by a talker stream that differs in both halves; otherwise the first free slot holds the command sent, its time limit and the request's sequence id, or the command comes back because there is no free slot. |
| AcmpAnswers.DisconnectRequested | avb-demoapps/lib/avdecc/acmp.c:620-644 | The same for DISCONNECT_RX, refused for an unknown stream or one not connected to this talker stream. |
| AcmpAnswers.StateReported | avb-demoapps/lib/avdecc/acmp.c:582-617 | GET_RX_STATE is answered with the fields of the first record with the unique id, or refused because the stream or its record is unknown. |
| AcmpAnswers.TalkerAnswers | avb-demoapps/lib/avdecc/acmp.c:741-862 | CONNECT_TX and GET_TX_STATE are answered with the first stream record of the unique id, or refused because the stream or its record is unknown. |
| AcmpAnswers.OthersIgnored | avb-demoapps/lib/avdecc/acmp.c:1174-1264 | A message of another type, or for another entity, changes nothing and is not answered. |
| AcmpAnswers.Ticked | avb-demoapps/lib/avdecc/acmp.c:679-716 | A tick visits the slots in order: an expired command is sent once more with a new time limit; the second time LISTENER_TALKER_TIMEOUT is reported under the request's type and sequence id and the slot released; others stay. |
| AcmpReports.SuccessMeansConnected | avb-demoapps/lib/avdecc/acmp.c:564-571 | In every run each SUCCESS a listener gave to a connect request was sent by the event that connected the record, and describes what it then held. |
| AcmpReports.ConnectedWasSaid | avb-demoapps/lib/avdecc/acmp.c:564-571 | In every reachable state a connected record has been reported by a SUCCESS that describes it. |
| AcmpReports.ReportsAreTrue | avb-demoapps/lib/avdecc/acmp.c:582-617 | In every run a listener that reports a connection reports the stream data of a talker of the reported name. |
| EavbDriver.Driver.Push | avb-demoapps/lib/eavb/eavb.c:182-212 | The entries accepted are the offered prefix, numbered on from the last accepted one; accepted numbers have no gap and no repeat. |
| EavbDriver.Driver.Take | avb-demoapps/lib/eavb/eavb.c:221-245 | A prefix of the queue comes back in order; on reception its pages hold the frames. |
| EavbDevice.Device.Offer | avb-demoapps/demo/common/eavb_device.c:86-102 | The straight and the wrapping copy both offer the same cyclic slice of the ring. |
| EavbDevice.Device.PushEntry | avb-demoapps/demo/common/eavb_device.c:75-117 | A push moves the write cursor and the counters by what was accepted; slots keep base and length; slot identity and rp == wp + remain are kept. |
| EavbDevice.Device.TakeEntry | avb-demoapps/demo/common/eavb_device.c:36-73 | A take puts the oldest entries back into the slots they came from, and on reception the pages of those slots hold the frames. |
| EavbDevice.Device.constructor | avb-demoapps/demo/common/eavb_device.c:123-182 | At the start every slot is the application's and describes its own page. |
| EavbDevice.SlicesJoin | avb-demoapps/demo/common/eavb_device.c:86-114 | What the driver holds and the next stretch of the ring are one longer stretch: cursors and counters stay consistent under pushes. |
| EavbDevice.BasesAfterTake | avb-demoapps/demo/common/eavb_device.c:51-70 | Entries stored at the read cursor restore exactly the pages of those slots. |
| EavbDevice.SliceRest | avb-demoapps/demo/common/eavb_device.c:36-73 | After a take the rest of the driver's queue is the stretch that starts further on. |
| SequenceCheck.Checker.VerifyPacket | avb-demoapps/demo/simple/simple_listener.c:218-250 | An error is reported exactly when the number is not the successor modulo 256 of the one before. |
| SequenceCheck.TrailingRun | avb-demoapps/demo/simple/simple_listener.c:218-250 | The error counter is the length of the run of errors the stream ends with. |
| SequenceCheck.LossIsFlaggedUnlessMultiple | avb-demoapps/demo/simple/simple_listener.c:218-250 | Consecutive frames are never flagged; a loss is flagged once, at the gap, if and only if its size is not a multiple of 256. |
| SimpleListener.Listener.DumpOne | avb-demoapps/demo/simple/simple_listener.c:319-343 | One slot is dumped with its own page and made ready again. |
| SimpleListener.Listener.DumpSlots | avb-demoapps/demo/simple/simple_listener.c:319-343 | Exactly the frames waiting in the slots from p on are dumped, in order, their packets collected for the output, and the slots get their full length back. |
| SimpleListener.Listener.WriteV | avb-demoapps/demo/simple/simple_listener.c:345-349 | The payloads, cut at stream_data_length, are written one after the other. |
| SimpleListener.Listener.FiledumpProcess | avb-demoapps/demo/simple/simple_listener.c:297-352 | The frames waiting are dumped and exactly their payload bytes are added to the output. |
| SimpleListener.Listener.Turn | avb-demoapps/demo/simple/simple_listener.c:397-441 | One turn keeps the loop-head invariant. Slots are offered until enough have been accepted, with poll only if it is writable, and never more than wanted; frames are taken with poll if and only if it is readable, at most an eighth of the ring, and exactly the first ones of the reply are dumped; a failed blocking wait is tried again if something can be read. |
| SimpleListener.Listener.FiledumpLoop | avb-demoapps/demo/simple/simple_listener.c:374-451 | For every driver and every exit the frames dumped are those handed back, each once and in order, and the output is their payload bytes; a finite count N that is finished has been pushed, taken and dumped exactly, with nothing left in the driver. If in every round the driver is ready, accepts something and has something, N rounds (and one for each frame it held before) are enough to finish; without a count every round dumps a frame. |
| SimpleListener.TurnKeepsBudget | avb-demoapps/demo/simple/simple_listener.c:389-441 | In the account of a turn frames accepted + repeat == N throughout, repeat is never negative and a flush begins only with repeat == 0; what was accepted is dumped or still in the driver. |
| TalkerFrames.FullIsDiv | avb-demoapps/demo/simple/simple_talker.c:567-568 | The quotient and the remainder the code computes count the full frames and the bytes left. |
| TalkerFrames.PushedCuts | avb-demoapps/demo/simple/simple_talker.c:557-582 | The frames a scattered read fills, cut at their lengths, concatenate to exactly the bytes read. |
| TalkerFrames.NumberedFramesPass | avb-demoapps/demo/simple/simple_talker.c:548-548 | Frames numbered by the talker are never flagged by the listener's check. |
| SimpleTalker.Talker.FillHeaders | avb-demoapps/demo/simple/simple_talker.c:538-555 | The first pass writes running numbers and full lengths into the batch's frames and entries and nothing else. |
| SimpleTalker.Talker.ReadV | avb-demoapps/demo/simple/simple_talker.c:557-557 | The payload areas of the batch are filled one after the other with the bytes read. |
| SimpleTalker.Talker.Rewind | avb-demoapps/demo/simple/simple_talker.c:566-582 | After a short read the cursor stands behind the last frame that holds data, and frame and entry of that one are shortened. |
| SimpleTalker.Talker.TalkerProcess | avb-demoapps/demo/simple/simple_talker.c:500-587 | The frames to be pushed carry exactly the bytes read, each entry is as long as its frame, numbers run on, only the batch is written, and the next batch starts behind it. |
| TalkerLoop.HeldAfterPush | avb-demoapps/demo/simple/simple_talker.c:638-645 | A batch written from the write cursor leaves the pages in the driver's hands alone. |
| TalkerLoop.GrownKeeps | avb-demoapps/demo/simple/simple_talker.c:638-660 | A batch accepted whole extends the bytes sent by the bytes read (by a prefix when the limit cuts it) and the numbering by consecutive numbers. |
| TalkerLoop.Loop.Offer | avb-demoapps/demo/simple/simple_talker.c:636-660 | While more is to be sent and poll allows it, a batch is read (the least of what the input gives, the room and the rest), offered up to the frames still wanted, and accounted for; otherwise nothing changes. Frames accepted + repeat == N and the conservation invariants are kept. |
| TalkerLoop.Loop.TakeBack | avb-demoapps/demo/simple/simple_talker.c:662-669 | With poll, slots are asked for if and only if it is readable, at most an eighth of the ring; the frames still in the driver's hands stay unchanged and in order. |
| TalkerLoop.Loop.Turn | avb-demoapps/demo/simple/simple_talker.c:634-680 | Without a stop request the loop is left exactly when nothing more is read and the driver is empty or a count was asked for and not reached; a stop request always ends it. Nothing is read or sent while flushing or without a writable poll, nothing taken back without a readable one. |
| TalkerLoop.LeftWithFramesInDriver | avb-demoapps/demo/simple/simple_talker.c:634-680 | A loop with a count of two that is left at the end of its input with one frame in the driver. |
| TalkerLoop.Loop.ProcessLoop | avb-demoapps/demo/simple/simple_talker.c:609-684 | Accepted + repeat == N in every case; if every batch offered was accepted whole and no read failed the payloads sent are the bytes read (a prefix after a limit), numbered consecutively if only the end of input shortened a read; with N reached everything has been drained. If in every round input and driver are ready, the loop ends: without a count when the whole input has been sent and come back, with one when N frames are through or the input is used up. |
| AvbStream.BytesArrive | avb-demoapps/demo/simple/simple_listener.c:325-346 | While the talker's environment plays along and frames arrive in order, each with its number and its payload up to `stream_data_length`, the listener's output is the beginning of the talker's input, all of it once every frame has arrived and no limit cut the last batch; its sequence check reports nothing if only the end of the input shortened a read. |
| TalkerLoop.ObligingEnds | avb-demoapps/demo/simple/simple_talker.c:634-680 | As many rounds as bytes are left and slots there are, in which input and driver are ready, end every run. |
| EntityReader.TokenReader.ScalarValue | avb-demoapps/lib/avdecc/avdecc_entity.c:943-972 | A value is assigned to the object the state selects, with the type last seen; a refusal ends with an error. |
| EntityReader.TokenReader.ScalarKey | avb-demoapps/lib/avdecc/avdecc_entity.c:973-1012 | Which keys open a nested block in which state, and that an unknown type name ends the reading. |
| EntityReader.TokenReader.MappingStart | avb-demoapps/lib/avdecc/avdecc_entity.c:865-904 | Configurations and descriptors are appended at the end of their lists when their mapping starts. |
| EntityReader.TokenReader.OnToken | avb-demoapps/lib/avdecc/avdecc_entity.c:831-1020 | One token updates the machine's variables as its transition function says. |
| EntityReader.ReadDeviceEntity | avb-demoapps/lib/avdecc/avdecc_entity.c:784-1036 | The result is that of the transition function over the tokens up to the end of the stream; nothing is returned after a refused pair. |
| EntityTokens.OthersTellNothing | avb-demoapps/lib/avdecc/avdecc_entity.c:831-1020 | Tokens of other kinds, wherever they stand, do not change what is read. |
| EntityTokens.ScalarsElsewhere | avb-demoapps/lib/avdecc/avdecc_entity.c:943-1012 | A value outside the entity, a configuration or a descriptor is ignored, and a key that can open nothing is only remembered. |
| EntityTokens.SameNameIgnoresCase | avb-demoapps/lib/avdecc/avdecc_entity.c:976-1003 | Keys and type names match exactly if they agree letter by letter but for the case. |
| DescriptorNames.NameFindsType | avb-demoapps/lib/avdecc/avdecc_entity.c:328-367 | Each of the 38 names of the table, in upper or lower case, is found under its own type number. |
| EntityRoundTrip.RoundTrip | avb-demoapps/lib/avdecc/avdecc_entity.c:831-1020 | Reading the block tokens of any tree performs exactly the tree's pairs on the right objects, rebuilds configurations and descriptors in order and ends in the start state; a refused pair or an unknown type name stops it there. |
| EntityRoundTrip.ReadBack | avb-demoapps/lib/avdecc/avdecc_entity.c:784-1036 | The entity returned for the file of a tree: the whole, the part before an unknown type name, or nothing. |
| EntityRoundTrip.TrailingPairsReadByLastType | avb-demoapps/lib/avdecc/avdecc_entity.c:956-958 | A configuration's pairs are all read as a configuration's if and only if none stands behind the descriptors or the last group is of that type. |
| EntityRoundTrip.PairBehindGroup | avb-demoapps/lib/avdecc/avdecc_entity.c:956-958 | Behind an empty list of descriptors of a known type a pair is read as one of that type. |
| DescriptorNames.TrailingPairReadAsStream | avb-demoapps/lib/avdecc/avdecc_entity.c:956-958 | A configuration whose pair is read as one of a stream input. |
| EntityRoundTrip.EntityPairsReadByLastType | avb-demoapps/lib/avdecc/avdecc_entity.c:953-955 | The same for the pairs of the entity. |
| EntityTables.DeviceEntity.NumberDescriptors | avb-demoapps/lib/avdecc/avdecc_entity.c:1079-1094 | Every supported descriptor gets the number of descriptors of its type before it, modulo 2^16; counts and allocation size per type. |
| EntityTables.DeviceEntity.FillCounts | avb-demoapps/lib/avdecc/avdecc_entity.c:1167-1185 | The count table holds one entry per type present, in ascending order, and never writes past its allocation. |
| EntityTables.DeviceEntity.SetupDescriptorData | avb-demoapps/lib/avdecc/avdecc_entity.c:1055-1194 | Every configuration is numbered, its descriptors are numbered and its table built; their number is stored. |
| EntityTables.DeviceEntity.AecpValidDescriptor | avb-demoapps/lib/avdecc/aecp.c:158-191 | The entity is found by its own index only, a configuration by the first position whose index fits, another descriptor by the first in list order, configuration by configuration, that fits in configuration index, type and index; nothing is found exactly when none fits. |
| EntityTables.TableFillsAllocation | avb-demoapps/lib/avdecc/avdecc_entity.c:1090-1094 | The table exactly fills its allocation if and only if no supported type has more than 65536 descriptors. |
| EntityTables.EntryNotWritten | avb-demoapps/lib/avdecc/avdecc_entity.c:1090-1094 | With 65537 audio units an entry is allocated that is never written. |
| EntityTables.CountsAscend | avb-demoapps/lib/avdecc/avdecc_entity.c:1178-1185 | Entries are strictly ascending, for types present only. |
| EntityTables.AdvertisedIsCount | avb-demoapps/lib/avdecc/avdecc_entity.c:1178-1185 | The count a table gives for a supported type is its number of descriptors modulo 2^16. |
| EntityTables.ReadsNth | avb-demoapps/lib/avdecc/aecp.c:177-187 | Looking up index i of a supported type gives its i-th descriptor in list order, if there are that many. |
| EntityTables.ReadsConfigurations | avb-demoapps/lib/avdecc/aecp.c:168-176 | After the numbering pass the entity is read under index 0 only, and index i reads configuration i, if there are that many. |
| EntityTables.SupportedCodes | avb-demoapps/lib/avdecc/avdecc_entity.c:662-686 | The seventeen types that are numbered, by their codes in IEEE 1722.1. |
| EntityTables.AdvertisedCountsAgree | avb-demoapps/lib/avdecc/aecp.c:158-191 | What can be read is what is advertised, for every configuration, supported type and index, if and only if there are at most 65535 configurations and at most 65535 descriptors of each type. |
| Template.DecimalReadsBack | avb-demoapps/avblauncher/avblauncher.c:351-363 | The decimal digits of a number denote that number; there are no others and no zeros in front (`DecimalIsPlain`). |
| Template.SettingsReadBack | avb-demoapps/avblauncher/avblauncher.c:314-365 | Every setting reads back from the replacement of its own word: both addresses byte by byte, seven numbers, and the four texts. |
| Template.OtherWordsStay | avb-demoapps/avblauncher/avblauncher.c:364-367 | A word outside the thirteen stays as it is. |
| Template.EscapeRoundTrip | avb-demoapps/avblauncher/avblauncher.c:426-443 | Escaping every backslash and dollar sign and expanding gives any text back, whatever the settings. |
| Template.WordReplaced | avb-demoapps/avblauncher/avblauncher.c:469-492 | A closed word is replaced wherever it stands, whatever its name and however that is escaped, and what follows is expanded on its own. |
| Template.CommandExpands | avb-demoapps/avblauncher/avblauncher.c:403-523 | A command is expanded piece by piece: text stands for itself, a word for its replacement, a word left open for itself; a backslash at the end is dropped, and with it the word it stands in. |
| Template.EveryCommand | avb-demoapps/avblauncher/avblauncher.c:403-523 | Every command is made of such pieces. |
| AppCommand.Conversion.ProcessEscape | avb-demoapps/avblauncher/avblauncher.c:426-434 | A backslash copies the next character; alone at the end it is dropped and ends the scan. |
| AppCommand.Conversion.ProcessDollarDollar | avb-demoapps/avblauncher/avblauncher.c:469-485 | A closed word's replacement is appended if it fits, otherwise the conversion fails. |
| AppCommand.Conversion.ProcessDollarEnd | avb-demoapps/avblauncher/avblauncher.c:495-503 | An open word is copied if the string in the word buffer fits. |
| AppCommand.Conversion.Run | avb-demoapps/avblauncher/avblauncher.c:422-512 | The loop terminates, by position and state, with the text of the scan or with an error exactly when the scan fails. |
| AppCommand.ConvertAppCmd | avb-demoapps/avblauncher/avblauncher.c:403-523 | It returns 0 exactly when the scan succeeds, for a fitting expansion exactly when there is room for the open word; then the command is the recursive expansion of the old one, otherwise it is unchanged. |
| AppCommand.ScanExpands | avb-demoapps/avblauncher/avblauncher.c:403-523 | What the scan with its buffers yields is the expansion; it fails by length only when the expansion is too long. |
| CommandWords.LayoutExpands | avb-demoapps/avblauncher/avblauncher.c:374-401 | The expansion of a command is the text before its open word and that word. |
| AppCommand.FittingCommands | avb-demoapps/avblauncher/avblauncher.c:495-503 | A command whose expansion has at most 198 characters succeeds if and only if it does not end in an open word, or the text before that word and the room it takes, the length of the last closed word at least as long or its own, stay below 200. |
| AppCommand.EscapedSucceeds | avb-demoapps/avblauncher/avblauncher.c:403-523 | Escaped text that fits always succeeds and gives the text back. |
| AppCommand.OpenWordRefused | avb-demoapps/avblauncher/avblauncher.c:495-503 | A command with an expansion of 104 characters that is refused. |
| IniParser.RStrip | avb-demoapps/avblauncher/inih/ini.c:28-34 | The whitespace at the end is cut in place; nothing else changes. |
| IniParser.LSkip | avb-demoapps/avblauncher/inih/ini.c:37-42 | The position of the first character that is not whitespace. |
| IniParser.FindCharsOrComment | avb-demoapps/avblauncher/inih/ini.c:47-62 | The position of the first wanted character or inline comment. |
| IniParser.StrNCpy0 | avb-demoapps/avblauncher/inih/ini.c:65-70 | The destination holds the string, cut to its size, and is always ended. |
| IniParser.IniReader.SplitPair | avb-demoapps/avblauncher/inih/ini.c:138-150 | Cutting the buffer in place leaves exactly the name and the value of the pair. |
| IniParser.IniReader.ParseLine | avb-demoapps/avblauncher/inih/ini.c:100-163 | One line changes section, previous name, error and calls as its meaning says. |
| IniParser.IniParseStream | avb-demoapps/avblauncher/inih/ini.c:73-174 | The calls and the result are those of the specification; the result is the number of the first bad line or 0. |
| Ini.FirstFailure | avb-demoapps/avblauncher/inih/ini.c:117-167 | The result is the first line that could not be parsed or whose call failed, although parsing goes on. |
| Ini.ContinuationName | avb-demoapps/avblauncher/inih/ini.c:117-124 | A continued value comes under the same name if and only if that has fewer than 50 characters. |
| IniRoundTrip.HeaderIsRead | avb-demoapps/avblauncher/inih/ini.c:125-137 | A header is read as its section, whatever follows the bracket. |
| IniRoundTrip.EntryIsRead | avb-demoapps/avblauncher/inih/ini.c:138-161 | A written pair is read as exactly that name and value, with blank space around both and a comment behind the value. |
| IniRoundTrip.SkippedLine | avb-demoapps/avblauncher/inih/ini.c:113-116 | A blank line, or one whose first character that is not blank is a semicolon or a number sign, changes only the line number. |
| IniRoundTrip.MarkIsSkipped | avb-demoapps/avblauncher/inih/ini.c:105-112 | A byte-order mark in front of the first line makes no difference. |
| IniRoundTrip.RoundTrip | avb-demoapps/avblauncher/inih/ini.c:100-173 | Writing headers, pairs, continued values, comments, blank lines and junk to a file and parsing it through fgets calls the handler with exactly the triples of the pairs and continued values, in order; the result is the number of the first junk line or refused call, or 0. |
| IniRoundTrip.LongNameIsCut | avb-demoapps/avblauncher/inih/ini.c:117-124 | The value continued behind a pair whose name has 50 characters is reported under the first 49. |
| Adp.Advertiser.ReceiveProcess | avb-demoapps/lib/avdecc/adp.c:180-236 | A discovery of this entity or of all asks for an announcement; nothing else does. |
| Adp.Advertiser.StateProcess | avb-demoapps/lib/avdecc/adp.c:238-319 | Which triggers make a step announce, which frames it sends with which index, and that a link error ends it early. |
| Adp.Advertiser.SetGrandmasterId | avb-demoapps/lib/avdecc/adp.c:334-345 | Only the current grandmaster id changes. |
| Adp.Advertiser.ChangeDeparting | avb-demoapps/lib/avdecc/adp.c:321-332 | Only the request to depart is set. |
| Adp.StepAnnounces | avb-demoapps/lib/avdecc/adp.c:285-300 | A step that gets past the link query announces the entity if and only if it was asked for, the last frame is more than 15.5 s old, the link has come up or the grandmaster changed, with the running index and the current grandmaster; it says goodbye if and only if it was told to, and then counts from 0 again. |
| Adp.StepWithoutLink | avb-demoapps/lib/avdecc/adp.c:252-275 | If the link query fails nothing is sent and no reason to announce is forgotten. |
| Adp.DiscoveryAnswered | avb-demoapps/lib/avdecc/adp.c:180-236 | A discovery for all or for this entity is answered by the next step that gets past the link query, whatever comes in between; one for another entity changes nothing. |
| Adp.Freshness | avb-demoapps/lib/avdecc/adp.c:252-316 | Over every run with steps at most d apart consecutive frames are at most 15.5 s + d apart, and each carries the number of AVAILABLE frames since the last DEPARTING. |
| Msrp.Monitor.MonitorListenerAdd | avb-demoapps/lib/msrp/msrp.c:58-84 | An address is attached exactly when it is not yet and a slot is free. |
| Msrp.Monitor.MonitorListenerRemove | avb-demoapps/lib/msrp/msrp.c:86-103 | An attached address is detached, once. |
| Msrp.Monitor.ListenerAttributeProcess | avb-demoapps/lib/msrp/msrp.c:105-166 | The table refines a set of at most eight distinct addresses and the counter is its size: who leaves is out, who is ready or ready in part is in while there is room, and notifications for other streams or with other declarations change nothing. |
| Msrp.Monitor.Monitor | avb-demoapps/lib/msrp/msrp.c:143-163 | The same over every sequence of notifications. |
| Msrp.ExactWithinCapacity | avb-demoapps/lib/msrp/msrp.c:58-103 | The set kept equals the set announced after every notification if and only if never more than eight are announced. |
| Maap.MaapUpdateAddress | avb-demoapps/avblauncher/avblauncher.c:1122-1157 | The k-th context that uses MAAP gets the bytes of the block's start + k; the others stay. |
| Maap.AddressesFollow | avb-demoapps/avblauncher/avblauncher.c:1131-1154 | The first context that uses MAAP gets the start of the block, and each next one the address behind. |
| Maap.PackAddress | avb-demoapps/avblauncher/avblauncher.c:1386-1388 | The packing loop computes the number the bytes denote. |
| Maap.PackBytes | avb-demoapps/avblauncher/avblauncher.c:1386-1388 | Packing the bytes of an address gives it back exactly when it fits in 48 bits. |
| Maap.AddressesDistinct | avb-demoapps/avblauncher/avblauncher.c:1144-1154 | Assigned addresses are pairwise different, inside the block, and recovered by packing. |

## Left out

- AcmpDevice.AcmpEntity.ProcessStreamQuery: the connection count reported is a parameter, because the list behind it (`connected_listeners`) keeps removed nodes at its ends.
- AcmpDevice.AcmpEntity.ReceiveProcess: GET_TX_CONNECTION is not part of this model; its search never advances its index.
- AcmpDevice.AcmpEntity.SendCommand: the clock and the sequence numbers do not wrap around; timeouts are positive parameters.
- AcmpTables.CtxInit: the record count is not cut to eight bits, so the model is exact for tables of fewer than 256 records; the talkers' records, which stay as configured, are not allocated here.
- AcmpDisconnectRuns.DisconnectsCross: it takes CONNECT_TX to be given longer than DISCONNECT_TX, as in the standard (2000 ms and 200 ms, IEEE 1722.1).
- AcmpNetwork: entities use the tables of one configuration; frames are records, reading and writing them is the identity.
- SimpleListener.Listener.WriteV: the output file is open and takes everything it is given.
- EavbDriver.Driver.Take: at most what was asked for and queued comes back; time stamps and header fields other than number, length and payload are left out.
- SimpleTalker.Talker.TalkerProcess: what is in the pages after a failed read, and what a batch holds after a partly accepted push, is not stated beyond the ring's own invariants.
- TalkerLoop.Loop.ProcessLoop: signals and the loss of the last listener are one input, `stop`; the loop is followed over any finite number of turns.
- EntityReader.ReadDeviceEntity: a text of 1024 characters or more would overrun the key and value buffers and is excluded; the layout of the descriptors and the conversion of values are the parameter `Format`.
- EntityTables.DeviceEntity.SetupDescriptorData: fixed offsets, MAC addresses, `number_of_strings` and the totals of sinks and sources, which are compared with the configuration index before it is set.
- AppCommand.ConvertAppCmd: commands that would make the machine write past its buffers (`Overrun`), or longer than 198 characters, are excluded; with an expansion of at most 198 characters there is no overrun.
- IniParser.IniParseStream: the handler's answers are a sequence given from outside; opening the file is left out.
- Adp.Advertiser.StateProcess: serialising a PDU always succeeds; `do_discover` is never set by the program and is left out.
- Maap.MaapUpdateAddress: the exchange with the MAAP daemon is replaced by the block's start.
- Sockets, ioctl, poll, mmap, threads, mutexes, signals, option parsing, printing, allocation failure.
- AECP messages, `mrpdhelper.c`, `stats.c`, `avbtool.c`, and the CBS bandwidth computation in floating point.
