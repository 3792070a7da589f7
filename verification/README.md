# A model of the robot motion services

Three parts of the irds robot services are modelled and proved correct here: the robotbus message
protocol, the command scheduler RDSTask, and the timeline from motion files to motor frames.

Each part has two layers. Functions on values say what one locked section of the source does, and
lemmas prove what holds over all runs of them. Classes and methods then follow the source's own
objects, loops and buffers, and are proved to compute those functions. What these mean is said once more without
them, in bytes, numbers, places and cases (`WireFields`, `Callbacks`, `Holding`, `Removals`, `Outcomes`,
`UnitFields`, `MotionBytes`, `PlayerCalls`).

**Robotbus** (`Wire`, `DataObjects`, `OutBlocks`, `OutRuns`, `Callbacks`, `OutGaps`, `OutPools`, `OutRounds`,
`InBlocks`, `WireFields`, `Receptions`, `LossyTransfers`, `Arrivals`; in place: `MessageBlock`, `MessagePool`,
`Receiver`). A message is cut into datagrams of at most 10240 bytes and sent one after the other on
acknowledgements 0x8FFE, the last one of which is 0x8FFF, with six retries of ten seconds and a receiver that
only compares positions. That is stop-and-wait as long as every acknowledgement is new; a stale 0x8FFE sends the
next fragment too. A sender's log holds every call of SendBytes; the channel may hand the bytes of any logged
packet to the receiver, in any order and number.

**Scheduler** (`Commands`, `Scheduler`, `Outcomes`, `Removals`, `Sums`, `Accounting`, `Draining`, `SlotLife`,
`SlotStart`, `Blocking`, `Holding`, `Overflow`, `StartOrder`, `Reporting`; in place: `RDSTask`). A queue, a table
of slots 1 to 251, delays, blocking classes, commands with several replies, timeouts and cancellation.
Notifications are a log, and a command that is deleted is one that is listed nowhere any more.

**Motion timeline** (`ArmFile`, `MotionFiles`, `MotionBytes`, `MotionWriter`, `Player`, `PlayerCalls`, `PlayerRuns`,
`UnitFields`, `MotorPlayer`; in place: `ArmReader`, `MotionPlayer`, `MotorMotion`). A loader makes frames of a
byte stream, a player dispatches at most one frame per tick, and the decoder turns a frame's 10-byte commands into
bus frames.

`Basics` holds what the parts share. `dafny verify dfyconfig.toml` checks the project.

## Where the code differs from what it seems to promise

- The free slot found for one queued command is not reset for the next (server/RDSTask.cpp:82). Once the
  table fills up during an update, further commands of that update overwrite the last slot. The
  model keeps this, calls the overwritten commands lost, and proves exactly when it happens, with a run of a
  new scheduler in which it does (`Overflow.OverwriteHappens`).
- An overwritten command holds nothing back any more, so that a command may start before one in front of it
  that waits for the same thing and has been passed over. `StartOrders.OvertakingHappens` is a run of a new
  scheduler in which it does; the order is kept if and only if no update lets this happen
  (`StartOrders.FirstStartedFirstIff`), and so wherever the table has room.
- Cancelling with session 0 clears the queue without finishing its commands (server/RDSTask.cpp:198).
  The model counts them as dropped. So an accepted command need not be reported; all are if and
  only if no such cancellation meets a queued command and no slot is overwritten
  (`Reporting.AllAreReportedIff`).
- The receiving side looks for a partly received message in the out-queue
  (robotbus/lib/MessagePool.cpp:201), while it is kept in the in-queue. So every datagram gets a block of its
  own, and a message of several datagrams is never put together again (`Arrivals.NothingIsReassembled`).
  `InBlocks`, `Receptions` and `LossyTransfers` take one receiver per message, as the protocol means it.
- By the same search a datagram whose own number and address are those of a queued message is taken in by that
  message's block and overwrites its header fields. Both peers number what they queue from 1, so that their first
  messages meet in this way. What is proved of outgoing messages holds as long as it does not happen
  (`Arrivals.UndisturbedFollows`), and there is an input in which the datagrams of one message no longer
  go together (`Arrivals.StrayChangesMessage`).
- A final acknowledgement is handed on twice (robotbus/lib/MessagePool.cpp:190-227), which is proved
  to do no harm.
- The update loop erases an entry and then moves on once more, so that it steps over the next one
  (robotbus/lib/MessagePool.cpp:339-369). A bound on the number of passes is proved all the same. Where
  the erased entry is the last, the source moves its iterator past the end; the model ends the pass.
- A block whose new fragment the socket refuses becomes idle with bytes left, and a late request for
  more revives it and goes on with the fragment after the refused one (robotbus/lib/MessageBlock.cpp:112-119).
  A fragment is skipped if and only if that happens (`OutGaps.RunSkipsIff`, with an input in
  `OutGaps.FragmentIsSkipped`), and a stale request makes the sender run ahead (`OutGaps.TwoRequests`).
- The last fragment of a message without a reply is never sent again
  (robotbus/lib/MessageBlock.cpp:123-126), so that retries make up for its loss in no case.
- Ten times a count of commands is computed in 32 bits (server/base/ArmFile.cpp:345), so that a
  count above 214748364 gives a command list of another length, or a negative length, at which the
  allocation ends the process: only in files older than version 0x1606, and exactly when
  `MotionFiles.EntryAbortsIff` says. Starts of frames wrap around in the same way.
- A unit that stops motion ignores its own argument byte (server/base/CommandObject.cpp:317-319):
  the call fills the id parameter, which is not used.
- A unit 0x33 for the trajectory controller calls stopMotion, which takes the list's lock; from the
  scheduler's own update, which holds it, Send does not come back (server/base/CommandObject.cpp:572-576,
  server/RDSTask.cpp:81). `Motors.MotorMotion.Send` excludes that call and no other.
- A frame without commands is run as a command for one joint whose angle has not been set
  (server/service/MotionPlayer.cpp:97, server/base/CommandObject.cpp:360-375).
- A frame head that the stream ends in the middle of still makes a frame, with -1 for what is missing.

## Model

| member | source | states |
|---|---|---|
| `Wire.DatagramRoundTrip` | robotbus/lib/MessageSerializable.cpp:54-122 | For every header and every payload of at most 10204 bytes that its count field measures, parsing the bytes gives back every field and the payload, the type test accepts them, and their number is count + 36 and at most 10240, as the receiving side tests |
| `DataObjects.BytesObject.Read` | robotbus/lib/BytesObject.cpp:99-128 | A read on the heap object fills the free part of the buffer with the next bytes, names the total size on the first and the position on later reads, and moves mode, status and position, exactly as the value function says, error codes included |
| `DataObjects.BytesObject.Write` | robotbus/lib/BytesObject.cpp:129-167 | A write on the heap object takes the same branch and leaves the same data, position and mode as the value function, for every first, later, repeated or early chunk, given that the copy fits |
| `DataObjects.BytesObject.Reset` | robotbus/lib/BytesObject.cpp:93-98 | Starting over keeps the data and puts position, mode and status back |
| `DataObjects.BytesObject.IsEnd` | robotbus/lib/BytesObject.cpp:46-57 | The end is reached if and only if there is no byte or the position is not before the last |
| `DataObjects.ReadGives` | robotbus/lib/BytesObject.cpp:99-128 | Which bytes a read hands over, from where, how many, what it names with them, and when it gives none, and with which code |
| `DataObjects.FirstWrite` | robotbus/lib/BytesObject.cpp:129-167 | A first chunk gives an object of the size it names, with its bytes at the beginning and zeros behind, or, if it does not fit, -3 and zeros |
| `DataObjects.LaterWrite` | robotbus/lib/BytesObject.cpp:129-167 | A later chunk is put where the last one ended if it belongs there; each of the other cases has its code and changes nothing |
| `OutBlocks.SerializedIsNext` | robotbus/lib/MessageSerializable.cpp:37-150 | What Serialize makes for a block whose log and read position agree is the next of the canonical fragments, unless the object has no bytes, when it fails |
| `OutBlocks.SentSteps` | robotbus/lib/MessageBlock.cpp:98-135 | Send hands exactly the next fragment to the socket or ends the block: everything it can do to log, status, timers and callbacks, with the reason for every way to become idle |
| `OutBlocks.DoneTwiceIsOnce` | robotbus/lib/MessagePool.cpp:190-230 | A final acknowledgement, which the receiving side hands on twice, does the same as one |
| `OutBlocks.OnOutMessageIsSound` | robotbus/lib/MessagePool.cpp:273-317 | Whatever comes in for a block, read position, log, status and timers stay in agreement |
| `OutBlocks.VisitedIsSound` | robotbus/lib/MessagePool.cpp:342-359 | So they do in a visit of the update loop, and a waiting block is never exhausted when it is sent |
| `OutBlocks.QueuedIsSound` | robotbus/lib/MessagePool.cpp:117-135 | And so they are when a new message is queued |
| `OutRuns.Run` | robotbus/lib/MessagePool.cpp:273-368 | In every run of acknowledgements, replies and visits each packet put on the wire is a fragment of the one chunking of the message: new sends go through the fragments in order, each other attempt repeats the packet before it byte for byte, and Send never meets an exhausted object |
| `OutRuns.RunKeepsMessage` | robotbus/lib/MessageBlock.cpp:98-142 | The log of a run only grows, and the message it is a chunking of stays the same |
| `OutRuns.RunEndsOnce` | robotbus/lib/MessageBlock.cpp:72-135 | In every run the reply callback and the result callback together run at most once |
| `OutRuns.RunUsesVisits` | robotbus/lib/MessagePool.cpp:342-359 | The visits left, a measure of unsent fragments, retries and time, go down by one with every visit that leaves the block queued, and nothing that comes in makes them go up |
| `OutRuns.RunLeavesQueue` | robotbus/lib/MessagePool.cpp:336-369 | Whatever comes in, a queued block is out of the queue after as many visits as the measure says |
| `OutRuns.QueuedLeavesQueue` | robotbus/lib/MessagePool.cpp:117-135 | For a new message of n > 0 bytes these are 601 * ceil(n / 10204) + 1 visits |
| `OutRuns.UnansweredVisits` | robotbus/lib/MessagePool.cpp:348-359 | After a send that nothing answers the same packet goes out again on every hundredth visit, six times, and the 601st visit gives the block up; the state after each number of visits up to that is exact |
| `OutRuns.SixRepeatsAtMost` | robotbus/lib/MessagePool.cpp:348-359 | In every run of a message at most six repeats follow each first try of a fragment: of any seven attempts in a row one is new |
| `WireFields.RunCarries` | robotbus/lib/MessageSerializable.cpp:37-150 | In every run of a message the bytes of each packet on the wire say, at their places, the number it was queued under, its peer's number, kind, value and extension, whether a reply is asked for, and the type, length, place and bytes of its part of the object |
| `WireFields.FieldsArrive` | robotbus/lib/MessageSerializable.cpp:151-185 | Whatever run the message goes through, as soon as a new receiver has been handed the bytes of any of its packets it has these fields |
| `WireFields.PlainArrives` | robotbus/lib/MessageSerializable.cpp:186-222 | A message without an object is there as a whole, with these fields, once any of its packets is |
| `WireFields.AcknowledgementSays` | robotbus/lib/MessageBlock.cpp:143-166 | Which datagrams are acknowledged, and what the bytes of the acknowledgement say: the number of the message, whether more is asked for, the number of bytes and the code |
| `Callbacks.SendCalls` | robotbus/lib/MessageBlock.cpp:98-135 | With which code a send ends a message, told to the result callback if there is one, and when the message waits instead |
| `Callbacks.IncomingCalls` | robotbus/lib/MessagePool.cpp:298-314 | What a message that comes in does, case by case: the reply callback runs if the block has one, the kind is its own and its bytes are all out; else it is sent on, ends, or is left alone |
| `Callbacks.VisitCalls` | robotbus/lib/MessagePool.cpp:342-359 | What a visit does: a first send, time, another try, or the end with -1 when six have been made |
| `Callbacks.RepliedIff` | robotbus/lib/MessagePool.cpp:298-314 | In every run the reply callback of a message runs if and only if such a reply reaches it while it is queued, and then it is the one callback that runs, once |
| `OutRuns.RunStopsByRefusal` | robotbus/lib/MessagePool.cpp:298-314 | A block that is idle, still in the queue and not finished has no address or has just had a new fragment refused by the socket |
| `OutGaps.RevivedGoesOn` | robotbus/lib/MessagePool.cpp:298-301 | A request for more that reaches a queued block with bytes left, an idle one after a refused send too, ships exactly the next fragment of the log |
| `OutGaps.RunSkipsIff` | robotbus/lib/MessageBlock.cpp:98-135 | The log of a run gets a gap, a new attempt for fragment k + 1 with no attempt for k that the socket took, if and only if a request for more reaches the queued block after a refused new send |
| `OutGaps.NewMessageSkipsIff` | robotbus/lib/MessageBlock.cpp:98-135 | From the moment a new message is queued the log has a gap if and only if that has happened |
| `OutGaps.TwoRequests` | robotbus/lib/MessagePool.cpp:298-301 | Two requests for more in a row, a stale duplicate among them, bring out the second and the third fragment although nothing acknowledges the second; if the socket refuses the second there is a gap |
| `OutGaps.FragmentIsSkipped` | robotbus/lib/MessagePool.cpp:298-301 | A concrete block of three fragments, visited once and asked for more twice with the first send after that refused: the second fragment is never taken by the socket and the third is |
| `OutPools.ApplyIsOk` | robotbus/lib/MessagePool.cpp:117-142 | Every call of the pool keeps the message numbers in the queue growing and distinct, and its blocks sound |
| `OutPools.JoinsIff` | robotbus/lib/MessagePool.cpp:117-142 | By callback, type and size: when a message joins the queue, when it is refused, and how it stands there: under the next number, to be read from its beginning |
| `OutPools.IncomingFollows` | robotbus/lib/MessagePool.cpp:273-296 | What comes in for a number and an address reaches the message with that number and address and no other |
| `OutPools.RunFollows` | robotbus/lib/MessagePool.cpp:273-369 | In every run of the pool each message goes through exactly what reaches it, as if it were alone, so that all that is proved of one message holds in the pool |
| `OutPools.AcceptedLeaves` | robotbus/lib/MessagePool.cpp:117-142 | An accepted message of n > 0 bytes is gone from the queue for good once the loop has visited it 601 * ceil(n / 10204) + 1 times, whatever else happens in the pool |
| `Arrivals.UndisturbedFollows` | robotbus/lib/MessagePool.cpp:174-250 | Whatever datagrams arrive, acknowledgements or messages, as long as none has the own number and address of a queued message, each message goes through what reaches it as if it were alone, and its log stays a chunking of the one message |
| `Arrivals.StruckIsHarmlessIff` | robotbus/lib/MessagePool.cpp:201-217 | A datagram that has the number and address of a message of which something, but not all, has been sent changes header fields only; the message stays the same if and only if the datagram says the same |
| `Arrivals.WaitingIsLost` | robotbus/lib/MessagePool.cpp:201-217 | The first chunk of such a datagram opens the object of a message still to be sent for writing, and the next visit ends that message unsent |
| `Arrivals.StrayChangesMessage` | robotbus/lib/MessagePool.cpp:201-217 | A message of kind 1, a datagram of kind 2 with its number after the first fragment, and a request for the next: no one message has the two packets on the wire |
| `Arrivals.NothingIsReassembled` | robotbus/lib/MessagePool.cpp:174-250 | With a block of its own for every datagram, the first fragment of several is taken in and asks for more, any other is refused with -2 and no answer, and none makes the message whole |
| `Arrivals.NoPacketIsWhole` | robotbus/lib/MessagePool.cpp:174-250 | So in no run of a message of more than 10204 bytes does any of its packets make it whole |
| `OutRounds.TurnInPass` | robotbus/lib/MessagePool.cpp:339-369 | At its turn in a pass an entry stays as the visit leaves it, or, if that is idle, is gone, and the one behind it comes to its place and is left alone in this pass |
| `OutRounds.PassServes` | robotbus/lib/MessagePool.cpp:339-369 | A pass of the loop, which steps over the entry behind each one it erases, visits a given message or moves it up in the queue |
| `OutRounds.PassOnNumbers` | robotbus/lib/MessagePool.cpp:339-369 | The pass over blocks is that pass over message numbers, with the same places and the same visits |
| `OutRounds.AcceptedLeavesInTime` | robotbus/lib/MessagePool.cpp:336-370 | Although the loop steps over messages, an accepted message of n > 0 bytes with k others before it has left after 601 * ceil(n / 10204) + 1 + k passes, whatever is sent and comes in between |
| `MessageBlocks.MessageBlock.Serialize` | robotbus/lib/MessageSerializable.cpp:37-150 | The packet buffer gets the bytes of the packet that the value function gives, the buffer is replaced only when it is too small, and the object moves on as in its read; an object without bytes, or read to its end, stays as it is and gives the code of its read |
| `MessageBlocks.MessageBlock.Send` | robotbus/lib/MessageBlock.cpp:98-135 | On the heap block Send takes the branch and leaves the state that the value function gives, and the packet in the buffer is the one logged last |
| `MessageBlocks.MessageBlock.Resend` | robotbus/lib/MessageBlock.cpp:136-142 | The bytes given to the socket again are those of the packet that is logged, the last one |
| `MessageBlocks.MessageBlock.OnResult` | robotbus/lib/MessageBlock.cpp:88-97 | The result callback is told once, if there is one, and the block cleared |
| `MessageBlocks.MessageBlock.IsFinished` | robotbus/lib/MessageBlock.cpp:25-35 | A block is finished if and only if it has no object or its object is at its end |
| `MessageBlocks.MessageBlock.NeedFragmentation` | robotbus/lib/MessageBlock.cpp:36-39 | Fragments are needed for a file, and for an object that with the header is over 10240 bytes |
| `MessageBlocks.MessageBlock.OnOutMessage` | robotbus/lib/MessagePool.cpp:298-314 | On the heap block, what comes in has the effect of the value function, and keeps read position, log and status in agreement |
| `MessageBlocks.MessageBlock.Visit` | robotbus/lib/MessagePool.cpp:342-359 | So does a visit |
| `MessagePools.MessagePool.SendMessage` | robotbus/lib/MessagePool.cpp:117-142 | A message that waits for a reply or needs fragments joins the queue under the next number, or is refused when more than 500 are queued; any other is sent at once |
| `MessagePools.MessagePool.Find` | robotbus/lib/MessagePool.cpp:279-290 | The search stops at the first entry with the number and the address |
| `MessagePools.MessagePool.OnOutMessageEvent` | robotbus/lib/MessagePool.cpp:273-317 | Only the entry that is found changes, as its block says |
| `MessagePools.MessagePool.UpdateLooper` | robotbus/lib/MessagePool.cpp:339-369 | The loop with its erasures is the pass that OutRounds reasons about |
| `InBlocks.FragmentFits` | robotbus/lib/BytesObject.cpp:129-167 | At any point of a reception every fragment, awaited or not, keeps the copy inside the data and moves the receiver as a counter does: a first fragment starts over, the awaited one goes on, any other is ignored |
| `InBlocks.TakingInReturns` | robotbus/lib/MessageSerializable.cpp:186-222 | What a datagram of any kind is answered with when it is taken in, and to which object it is written |
| `InBlocks.FragmentSafety` | robotbus/lib/BytesObject.cpp:144-166 | After any sequence of deliveries of fragments the size is n, the position is a fragment boundary, the bytes before it are the sender's, and the receiver is complete if and only if the counter has reached the last fragment, and then its data is the sender's |
| `InBlocks.FragmentSurvivesWire` | robotbus/lib/MessageSerializable.cpp:151-185 | A fragment's bytes parse to the fragment |
| `InBlocks.DatagramsAreFragments` | robotbus/lib/MessageSerializable.cpp:151-222 | The bytes of any fragments, in any order and number, pass the length test and the type test of the receiving side, parse to the fragments, and leave the receiver where these would |
| `InBlocks.EndToEnd` | robotbus/lib/MessageBlock.cpp:98-166 | A message goes through any run on the sending side, and the bytes of any of its packets reach a new receiver in any order and number: each datagram is accepted, no copy leaves the data, the receiver has the counted part of the message, and once whole it has the bytes of the sender |
| `Receptions.ArrivesIff` | robotbus/lib/BytesObject.cpp:129-167 | The bytes of any fragments, in any order and number, make up the message if and only if since the last time the first fragment came all the others have come in turn |
| `Receptions.PickedArriveIff` | robotbus/lib/MessageBlock.cpp:98-166 | For the packets on the wire of any run of the sending side a receiver has the message if and only if it was handed them like that |
| `InBlocks.RoundInStep` | robotbus/lib/MessageBlock.cpp:143-166 | One round without loss: the acknowledgement asks for more on all fragments but the last and is final on the last, and sender and receiver go on in step |
| `InBlocks.LockStepTransfer` | robotbus/lib/MessageBlock.cpp:98-166 | Over a channel that loses nothing n > 10204 bytes take exactly ceil(n / 10204) datagrams, answered by 0x8FFE except the last by 0x8FFF, and arrive as sent; a sender that waits for no reply is idle then |
| `LossyTransfers.TriesAreOut` | robotbus/lib/MessagePool.cpp:348-359 | While a fragment is out and its acknowledgements are lost, as many more packets as were lost are on the wire, all with the fragment that the receiver waits for |
| `LossyTransfers.LossyTransferArrives` | robotbus/lib/MessagePool.cpp:348-359 | Over a channel that loses, of each fragment, the datagram or the acknowledgement of at most six tries, and delays and doubles nothing else, sender and receiver stay in step and n > 10204 bytes arrive as sent; the last fragment of a message without a reply has only one try |
| `LossyTransfers.LastIsNotAwaited` | robotbus/lib/MessageBlock.cpp:123-126 | The sender of the last fragment of a message without a reply is finished and idle as soon as it has sent it |
| `LossyTransfers.LastIsSentOnce` | robotbus/lib/MessageBlock.cpp:123-126 | An idle block at its end sends nothing more in any run, so that there is no second try |
| `LossyTransfers.RequestIsReply` | robotbus/lib/MessagePool.cpp:298-314 | For a message of kind 0x8FFE the request for the last fragment counts as its reply, and it is finished and idle once that is sent |
| `Receivers.Receiver.DeserializeHeader` | robotbus/lib/MessageSerializable.cpp:151-185 | The cursor that walks over the bytes gives the error codes for no bytes and for a wrong type, and otherwise all fields, as parsing the datagram does |
| `Receivers.Receiver.Deserialize` | robotbus/lib/MessageSerializable.cpp:186-222 | On the heap object a datagram is taken in as the value function says: which object is made, which code is returned, what is written |
| `Receivers.Receiver.OnRecv` | robotbus/lib/MessageBlock.cpp:143-166 | The acknowledgement that goes out has the bytes the value function gives, with number, kind, size and result code, or there is none for a small whole message or an error |
| `Accounting.ApplyConserves` | server/RDSTask.cpp:79-276 | No call creates, doubles or forgets a command: over queue, slots, final notes, the dropped and the overwritten, each id is counted as before, plus one for the command that is added |
| `Accounting.RunAccounts` | server/RDSTask.cpp:79-276 | In every run each accepted command is in exactly one of these places at every moment |
| `Accounting.ReportedOnceAndGone` | server/base/CommandObject.cpp:48-72 | In every run from the start a finally reported command was accepted, is reported finally by no other note, and is neither queued, nor in a slot, nor dropped, nor overwritten |
| `Reporting.RunDropsNothingIff` | server/RDSTask.cpp:191-200 | A run drops commands unreported if and only if some cancellation of everything in it meets commands in the queue |
| `Reporting.AllAreReportedIff` | server/RDSTask.cpp:79-236 | In a run of a new scheduler that ends idle every accepted command has been finally reported if and only if every cancellation of everything meets an empty queue and every update has room for what it puts out |
| `Reporting.DrainedReportsAllIff` | server/RDSTask.cpp:65-236 | The same for any run followed by as many updates as there is work left, which end it idle |
| `Reporting.DroppedUnreported` | server/RDSTask.cpp:191-200 | A command that is added and cancelled with everything is never reported |
| `Draining.RunKeepsInv` | server/RDSTask.cpp:108-139 | In every run a slot i in 1..251 holds only a command with task id i that has time and replies left, and other slots are empty |
| `Draining.UpdateWorks` | server/RDSTask.cpp:65-147 | An update of a scheduler that is not idle makes the sum of delays, reply times to come and reply times left smaller |
| `Draining.Drain` | server/RDSTask.cpp:65-147 | In any run that adds nothing, as many updates as that sum leave the queue and every slot empty, whatever else happens in it |
| `SlotLife.ReplyRouting` | server/RDSTask.cpp:250-276 | The search by task id is an index: a reply for t changes slot t alone, frees it on the last due reply and counts down before; a reply for any other number, such as 0xFF, changes nothing |
| `SlotLife.StillOut` | server/RDSTask.cpp:65-147 | Through any traffic that does not single it out, a command with time and replies left keeps its slot, and its counters are exactly what has passed |
| `SlotLife.LastReplyEnds` | server/base/CommandObject.cpp:48-72 | A command that waits for k replies is finally notified by the k-th good one and not before |
| `SlotLife.TimeoutExact` | server/RDSTask.cpp:65-78 | A command that is in a slot with timeout T before the expiry pass of an update and is left alone is out after every pass before the ceil(T/dt)-th, counting that one, and is reported with -2 by it |
| `SlotLife.TimeoutAtOnce` | server/RDSTask.cpp:136-145 | It is reported in that pass itself if and only if ceil(T/dt) is 1 |
| `SlotStart.StartedIsPlaced` | server/RDSTask.cpp:79-149 | A queued command that an update starts is, at the end of its scan, in a slot as Send under the number of that slot leaves it, unless it does not wait at all or has been overwritten; nothing else in the table has its session id |
| `SlotStart.TimeoutInUpdate` | server/RDSTask.cpp:79-149 | The update that starts a command reports its timeout if and only if ceil(T/dt) is 1, with T as Send leaves it |
| `SlotStart.TimeoutFromUpdate` | server/RDSTask.cpp:65-149 | From the update that starts it, that update counted, a command left alone is out after every pass before the ceil(T/dt)-th and is reported with -2 by that one |
| `Blocking.RunKeepsExclusive` | server/RDSTask.cpp:108-140 | In every run at most one of a family of mutually equal commands with flag 0x80 is out |
| `Blocking.InitialIsSound` | server/RDSTask.cpp:42-51 | A new scheduler satisfies what the lemmas about runs assume |
| `Holding.HeldBackIff` | server/base/CommandObject.cpp:103-121 | A command is held back if and only if a slot holds a command of its class with bit 0x80 that, for settings and controllers, goes to the same device, and for motors is no data block and goes to the same joint |
| `Holding.TurnIff` | server/RDSTask.cpp:88-140 | At its turn a command leaves the queue if and only if its delay is over, there is a slot and nothing in the table is in its way, and then it has been started unless it cannot be sent; otherwise it stays with its delay shortened |
| `Holding.FirstStartsIff` | server/RDSTask.cpp:79-147 | An update starts the first command of the queue if and only if its delay is over, a slot is free, nothing is in its way and it can be sent |
| `Removals.StopRemoves` | server/RDSTask.cpp:160-190 | A stop of a class takes exactly its commands out of slots and queue, leaves the others as and where they are, and makes one final report with -3 for each that has gone |
| `Removals.NothingIsLeft` | server/RDSTask.cpp:160-190 | After it no command of the class is queued or out, and every other queued command still is |
| `Removals.CancelRemoves` | server/RDSTask.cpp:191-236 | A cancellation of a session does the same by session id |
| `Removals.CancelAllRemoves` | server/RDSTask.cpp:191-236 | The cancellation of everything ends what is out with one report each, and drops what is queued without any |
| `Removals.ExpiryRemoves` | server/RDSTask.cpp:65-78 | The pass at the end of an update takes its time off every command that is out and ends those that have none left, with one report with -2 each |
| `Outcomes.SendSets` | server/base/CommandObject.cpp:179-545 | Class by class, in numbers: how long a reply is waited for, how many are due, and which device counts |
| `Outcomes.FinishTells` | server/base/CommandObject.cpp:48-72 | What is reported, to whom, with which value and code, when a command is finished, and when it has come to its end |
| `Outcomes.SettingReports` | server/base/CommandObject.cpp:154-178 | A setting that was just sent reports success by the result of its one reply: 0 for turning on and asking about motors, not 0 for asking about sensors |
| `Outcomes.ReplyReaches` | server/RDSTask.cpp:250-276 | The first slot with a command of that task number, or for replies of the control channel of that device, counts down or ends, and all else stays |
| `Outcomes.ReplyMisses` | server/RDSTask.cpp:250-276 | Without such a slot a reply changes nothing |
| `Outcomes.StartedIsFiled` | server/RDSTask.cpp:106-140 | A command that is started goes into the last free slot, or over the one filled before, under its number; or is reported at once, with 0 if it waits for no time and with -4 if it cannot be sent |
| `Outcomes.AddedIff` | server/RDSTask.cpp:148-159 | A command joins the end of the queue, or is refused if and only if motors are disabled |
| `Outcomes.TurnLifts` | server/base/CommandObject.cpp:179-205 | The lock on motors is lifted by the start of a setting that turns them on, and by no other step of the scan |
| `Overflow.OverwritesNothingIff` | server/RDSTask.cpp:82-122 | An update overwrites no occupied slot if and only if the table is full when it begins or has room for every command it would put out |
| `Overflow.RunOverwritesNothingIff` | server/RDSTask.cpp:82-122 | A run overwrites no slot if and only if each of its updates meets that condition |
| `Overflow.OverwriteHappens` | server/RDSTask.cpp:82-122 | A new scheduler is given 252 emotion commands, one more than there are slots, and its first update overwrites a slot |
| `StartOrders.UpdateOvertakesIff` | server/RDSTask.cpp:79-140 | A question about queue, table and passed time alone tells whether the scan of an update starts y after it has passed over x |
| `StartOrders.FirstStartedFirstIff` | server/RDSTask.cpp:79-140 | Of two queued commands that wait for the same thing, the one behind with no shorter delay, it is at no moment of a run started before the other or while that waits, if and only if no update of the run has the answer yes |
| `StartOrders.FirstQueuedFirstStarted` | server/RDSTask.cpp:79-140 | That is so in every run whose updates find the table full or with room for all that they would put out |
| `StartOrders.OvertakenIsReleased` | server/RDSTask.cpp:106-139 | A command that is held back is overtaken only in an update that has overwritten the last command that held it back |
| `StartOrders.OvertakingHappens` | server/RDSTask.cpp:82-140 | A new scheduler is given 250 emotions and four commands more, and its first update starts the last of these while the second, which waits for the same thing, is still queued |
| `RDSTasks.CommandObject.Send` | server/base/CommandObject.cpp:179-545 | On the heap object Send fails exactly for a data block that is not a whole number of units, and otherwise sets timeout, expected replies and device as the value function says, per class |
| `RDSTasks.CommandObject.Finish` | server/base/CommandObject.cpp:48-72 | The reports made are those of the value function, and the return value is positive if and only if the command goes on |
| `RDSTasks.CommandObject.Blocks` | server/base/CommandObject.cpp:103-121 | One command holds another back if and only if they are equal in the sense of the class and flag 0x80 is set |
| `RDSTasks.RDSTask.Update` | server/RDSTask.cpp:79-147 | Over the heap objects the two nested loops leave the queue, the table and the reports that the value function gives, stale free index included |
| `RDSTasks.RDSTask.CheckTimeout` | server/RDSTask.cpp:65-78 | So does the expiry pass |
| `RDSTasks.RDSTask.AddCommand` | server/RDSTask.cpp:148-159 | A command joins the end of the queue, or is refused while motors are disabled |
| `RDSTasks.RDSTask.StopMotion` | server/RDSTask.cpp:160-190 | Every command of the class, out or queued, is finished with -3 and leaves, and no other |
| `RDSTasks.RDSTask.CancelCommand` | server/RDSTask.cpp:191-236 | The same for a session; with session 0 what is out is finished and what is queued is dropped unreported |
| `RDSTasks.RDSTask.OnCommandCompletion` | server/RDSTask.cpp:250-276 | The first slot that matches by task id, or by control command, gets the reply |
| `MotionFiles.StartsAreSums` | server/base/ArmFile.cpp:338-342 | A frame's start is the sum of all durations before it, in 32-bit arithmetic |
| `MotionFiles.WrapIsIdentityIff` | server/base/ArmFile.cpp:338-342 | That is the sum itself if and only if the sum fits 32 bits |
| `MotionFiles.FramesFit` | server/base/ArmFile.cpp:311-358 | The frames that are read, with 12 bytes each and their commands, fit the stream whatever count its header promises; only a last head may be cut short |
| `MotionFiles.LengthIsTenfoldIff` | server/base/ArmFile.cpp:343-355 | The 32-bit length computed for a number of commands is ten times the number if and only if that is at most 214748364; otherwise it is negative or no multiple of ten |
| `MotionFiles.EntryAbortsIff` | server/base/ArmFile.cpp:311-352 | Reading a frame asks for a negative size if and only if the mark is there, the file is older than 0x1606, the head is complete, and its count is above 214748364 with a negative 32-bit length |
| `MotionFiles.ModernNeverAborts` | server/base/ArmFile.cpp:306-358 | No frame list of version 0x1606 or later does |
| `MotionFiles.AbortedIsOld` | server/base/ArmFile.cpp:258-362 | So only an old file can end the process |
| `MotionFiles.CommandsAreWholeIff` | server/base/ArmFile.cpp:319-356 | A frame's command list is a whole number of 10-byte commands if and only if its count passes that bound, which every file of version 0x1606 or later does |
| `MotionFiles.LoadedIsTimeline` | server/base/ArmFile.cpp:258-362 | A loaded file has as many entries as its header says, frames in front and empty entries behind, starts that are sums, and all of it inside the stream; in later versions all command lists are whole |
| `MotionFiles.LengthIsChecked` | server/base/ArmFile.cpp:272-278 | Of two streams one of which is a proper beginning of the other at most one is accepted |
| `MotionBytes.HeaderIsRead` | server/base/ArmFile.cpp:258-305 | At which bytes of a file its version, frame time, number of frames, duration, kind of rate and rhythm are |
| `MotionBytes.FileIsRead` | server/base/ArmFile.cpp:258-305 | By these bytes: when a file is taken as one at all, and what it says of the movie |
| `MotionBytes.FrameIsRead` | server/base/ArmFile.cpp:311-358 | At which bytes of a frame its duration, run time, count and commands are, in both versions, when it is read, and what its duration is taken for |
| `MotionWriters.LoadsWhatIsWritten` | server/base/ArmFile.cpp:258-362 | The loader gives back every movie that a writer of the format puts down, header, frames, start times and command lists, in both versions |
| `MotionWriters.CutFile` | server/base/ArmFile.cpp:343-355 | A whole old file of one frame whose count has a short 32-bit length loads with a command list of that length |
| `MotionWriters.AbortingFile` | server/base/ArmFile.cpp:343-355 | One whose count has a negative 32-bit length ends the process |
| `MotionWriters.SomeCountsGoWrong` | server/base/ArmFile.cpp:343-355 | Two such files: a count of 429496730 loads as four bytes of commands, and a count of 214748365 ends the process |
| `ArmReaders.BinaryReader.Read` | server/base/ArmFile.cpp:94-128 | The loop fills the buffer with the next bytes or uses up those that are left, and never reads past the end |
| `ArmReaders.BinaryReader.ReadCommand` | server/base/ArmFile.cpp:129-153 | So does the one into a new buffer |
| `ArmReaders.BinaryReader.ReadUInt16` | server/base/ArmFile.cpp:174-182 | Little-endian, signed, -1 at the end of the stream |
| `ArmReaders.BinaryReader.ReadUInt32` | server/base/ArmFile.cpp:183-191 | The same for four bytes |
| `ArmReaders.LoadFrames` | server/base/ArmFile.cpp:306-358 | The loop that fills the list of empty entries leaves the frames that the function on bytes gives, up to the first broken one |
| `ArmReaders.LoadFrame` | server/base/ArmFile.cpp:258-362 | For any stream loading ends, stays inside it, and gives the result of the function on bytes |
| `PlayerRuns.RunKeepsPlayable` | server/service/MotionPlayer.cpp:53-241 | Through all calls a player that runs or pauses has frames and stands at one of them or just behind the last, and the error branch of update is not taken |
| `PlayerRuns.NewPlayerIsPlayable` | server/service/MotionPlayer.cpp:19-28 | That holds for every run of a new player |
| `PlayerCalls.UpdateCall` | server/service/MotionPlayer.cpp:53-112 | What an update does and tells the listener, in each status and at each kind of frame |
| `PlayerCalls.RhythmSets` | server/service/MotionPlayer.cpp:80-95 | For each rhythm the duration that goes to the motors with a frame |
| `PlayerCalls.ControlCalls` | server/service/MotionPlayer.cpp:155-220 | What preparing, starting, pausing, resuming and stopping do in each status |
| `PlayerCalls.SeekCall` | server/service/MotionPlayer.cpp:221-241 | Where a seek puts the player, and when it stops it |
| `PlayerRuns.SeekFindsLast` | server/service/MotionPlayer.cpp:221-241 | Seeking finds the last frame that begins in no later second, with division that rounds towards zero, or none if there is none |
| `PlayerRuns.SeekThenUpdate` | server/service/MotionPlayer.cpp:221-241 | A running player goes on after seeking if and only if such a frame exists, and its next update runs that frame at the frame's own time; otherwise it stops |
| `PlayerRuns.PausesOnlyDelay` | server/service/MotionPlayer.cpp:188-203 | Pauses at any times, any number of times, change nothing but the time: the player ends where it would be without the updates that fell into them, with the same frames run at the same positions |
| `PlayerRuns.TickInClosedForm` | server/service/MotionPlayer.cpp:76-110 | The tick of frame k is max(tick of frame k-1 + 1, ceil(time of k / dt)) |
| `PlayerRuns.Performance` | server/service/MotionPlayer.cpp:53-112 | After any number of ticks exactly the frames whose ticks have passed have been run, once each, in order, at the positions of their ticks, and the end is announced once, on the tick after that of the last frame; nothing follows |
| `PlayerRuns.FrameHasItsTick` | server/service/MotionPlayer.cpp:76-110 | Until the end, a frame is still to come if and only if no more ticks than its number have passed |
| `PlayerRuns.PausedPerformance` | server/service/MotionPlayer.cpp:53-203 | The same for a performance with pauses, counting the ticks outside them |
| `PlayerRuns.PromptIff` | server/service/MotionPlayer.cpp:76-110 | Every frame is run as soon as its time has come if and only if each one's earliest tick is after that of the frame before |
| `PlayerRuns.PromptIsOnTime` | server/service/MotionPlayer.cpp:76-110 | Such a frame is less than one tick late |
| `PlayerRuns.LoadedFileIsOnTime` | server/service/MotionPlayer.cpp:53-112 | From the file to the motors: when every frame was read, durations are at least a tick and add up within 32 bits, frame k is run at tick ceil(sum of earlier durations / dt), less than a tick late |
| `MotionPlayers.MotionPlayer.Update` | server/service/MotionPlayer.cpp:53-112 | On the object's fields update is the tick of the state machine |
| `MotionPlayers.MotionPlayer.Prepare` | server/service/MotionPlayer.cpp:155-174 | So is prepare its event, refused without frames |
| `MotionPlayers.MotionPlayer.Start` | server/service/MotionPlayer.cpp:175-187 | And start, which rewinds even when it is refused |
| `MotionPlayers.MotionPlayer.SetPosition` | server/service/MotionPlayer.cpp:221-241 | The loop of setPosition stops at the frame that SeekFindsLast is about |
| `Motors.BlockSplits` | server/base/CommandObject.cpp:302-358 | The frames of a data block are those of its first k units and then those of the rest, for every k |
| `Motors.BlockIsWellFormed` | server/base/CommandObject.cpp:302-358 | A block of m units makes at most m frames, of 4, 5 or 8 bytes, and the second byte of each is its length |
| `Motors.DistanceIsKept` | server/base/CommandObject.cpp:510-578 | A unit for the trajectory controller makes a frame if and only if its distance is not zero; direction is kept, and the 16-bit distance and the speed are kept if and only if the kind of motion has room for them; a unit 0x33 stops the wheels instead |
| `UnitFields.MotorUnit` | server/base/CommandObject.cpp:334-357 | A unit for a motor makes one frame to its board, with its task number, its motor, the angle of the unit, its flags, and as time that of the frame, or else its own |
| `UnitFields.PositionUnit` | server/base/CommandObject.cpp:510-578 | A unit for the wheels, byte by byte: nothing, the stop, or direction, distance and speed |
| `UnitFields.OtherUnit` | server/base/CommandObject.cpp:304-327 | A reset of a part or of the face, a stop of all, and nothing for a device without a board |
| `UnitFields.JointCommand` | server/base/CommandObject.cpp:360-375 | A command for one joint makes one frame with sixteen bits of its angle, two of its flags and its time |
| `UnitFields.UnitIsFound` | server/base/CommandObject.cpp:302-358 | The frames of the k-th unit of a block are found in the block's behind those of the units before it |
| `Motors.RepliesReachCount` | server/base/CommandObject.cpp:286-377 | The frames that carry the command's task id are as many as the replies it waits for if and only if every unit is one that can be answered, and fewer otherwise |
| `Motors.MotorMotion.Send` | server/base/CommandObject.cpp:286-377 | The loop over a data block takes every unit once and in order, stays inside the data and sends exactly the frames of the block; without a block the frame of one joint goes out; and what the scheduler sees of the object, expected replies and device among it, changes as Commands.Sent says for any command, with -1 and no change for a block that is not a whole number of units |
| `Motors.MotorMotion.Run` | server/base/CommandObject.cpp:387-402 | The block that is sent is the one passed in, also when the buffer is reused or the block is empty, and the session id comes back, or -1 if the block is not a whole number of units |
| `MotorPlayers.RunFailsIff` | server/service/MotionPlayer.cpp:97-103 | With the codes that running the frames gives, the player reports -3 in a run if and only if, while someone listens, an update runs a frame whose commands are not a whole number of units |
| `MotorPlayers.ModernNeverFails` | server/service/MotionPlayer.cpp:97-103 | A new player that is given movies of files of version 0x1606 or later only never reports -3 |

## Left out

- Sockets, threads, locks, the CAN bus, files and listeners: a socket's or a motor's answer is a
  parameter, what is sent is a log, and each locked section is one step.
- Binder proxies and stubs, clients, JNI, the other services, FileObject, RobotSession and the switch tables of
  CANSession and ControllerObject: plumbing or flat tables.
- The contents of DeviceTable: lookups are parameters.
- Message objects that are files: the source has no object for them when it receives one.
- Progress callbacks of a message: they do not change the block.
- OutPools.AcceptedLeaves: a message is a new block; sending a block again that has been sent before is not modelled.
- MessageBlocks.MessageBlock.Send: an object that is read to its end is excluded, on which the source goes on without a
  packet; that no run of the pool gets there is proved (OutRuns.Run), and Serialize alone is modelled for it too.
- MessagePools.MessagePool.OnOutMessageEvent: as in UpdateLooper, the block is a value of the queue.
- MessagePools.MessagePool.UpdateLooper: the blocks in this queue are values, because a queue of blocks that share the
  heap is too costly to frame; that blocks and queue are aliased in the source is not
  captured, while each block's own update in place is proved in MessageBlocks.
- MessagePools.MessagePool.SendMessage: message numbers do not wrap around, the model ends before 2^31; a block that has
  been sent before is not sent again.
- OutRounds.AcceptedLeavesInTime: the in-queue side of the loop is not modelled.
- Receivers.Receiver.DeserializeHeader: the offset, which is 0 in every call, is left out.
- Receivers.Receiver.Deserialize: file objects, and a payload whose copy would run past the end, which the source does not
  test; no fragment that a sender makes is one.
- LossyTransfers.LossyTransferArrives: a message of kind 0x8FFE is excluded, for which it is false
  (LossyTransfers.RequestIsReply).
- Arrivals.StruckIsHarmlessIff: what a block that was struck hands on to another queued message is an Incoming event of
  that message, and the listeners' answers are left out.
- OutPools.RunFollows: arriving messages as such are events of Arrivals; here they are what reaches a queued message.
- Receivers.Receiver.OnRecv: file objects and overrunning payloads as in Deserialize; the listeners' answers to a complete
  message are not part of the model.
- DataObjects.BytesObject.Write: new arrays hold zeros, where the source leaves them uninitialised; that the copy fits is
  required, since the source does not test it, and is proved for all fragments a sender makes.
- The retry clock counts visits of 0.1 s in whole numbers, where the source subtracts floats from 10.
- RDSTasks.RDSTask.AddCommand: a null command, or one that has been listed already, is not modelled, and session ids are
  distinct; in the source they are a counter of 32 bits.
- Accounting.ReportedOnceAndGone: commands sent directly, which are in no list, are not counted.
- RDSTasks.CommandObject.Send: the lookups of boards and the frames of classes other than the data block are left out.
- Motors.MotorMotion.Send: what the call of stopMotion does to the scheduler is Scheduler.StopMotion; the two are not joined,
  and the notification that the stopping object makes of itself is left out.
- Motors.MotorMotion.Run: with a joint instead of a data block it is left out; session ids do not overflow.
- ArmReaders.LoadFrame: only the stream side of the reader; the file side is I/O.
- MotionFiles.LoadedIsTimeline: the memory that a huge frame count asks for is not modelled; a negative count gives no entries.
- PlayerRuns.Performance: positions and ticks are unbounded, where the source's position would wrap around after 24 days.
- MotionPlayers.MotionPlayer.Update: calls do not overlap, although start, pause, resume, stop and seek take no lock.
- PlayerRuns.RunKeepsPlayable: seeking without frames, which the source would crash on, is excluded.
- MotionPlayers.MotionPlayer.SetPosition: so it is here.
- Deleting memory, reference counts and leaks.
