# SeaWalker navigation system: message bus and core services, in Dafny

This project models the core of the SeaWalker sailing-robot navigation system in Dafny and proves properties of the model. The core is:

- the publish/subscribe **message bus**: node registration, interest lists, the two swapped message queues and the dispatch loop;
- the **messages** that travel on it: the base message header, the concrete message classes, and serialising and deserialising them;
- the **nodes** and their worker threads, and the **start-up and shut-down** sequence of `main.cpp`;
- the **timer** (a stopwatch over a steady clock);
- the **CAN frame handler** with its sticky error byte;
- the **NMEA 2000 wind-sensor decoders**;
- the **power tracker**, which keeps a solar/engine power balance.

| file | module | models |
|---|---|---|
| `common.dfy` | `Common` | message types, node ids, `Option` |
| `messages.dfy` | `Messages` | `Message` (header, the three value constructors, the deserialising constructor, `Serialise`), the serialiser and deserialiser as a typed token stream |
| `message_kinds.dfy` | `MessageKinds` | MarineSensorDataMsg, PowerTrackMsg, WingSailCommandMsg, RudderCommandMsg, ServerWaypointsReceivedMsg, PowerOffCommand |
| `node.dfy` | `Nodes` | `Node` / `ActiveNode` with its owned thread handle |
| `message_bus.dfy` | `Bus` | `MessageBus` and `RegisteredNode` |
| `startup.dfy` | `Startup` | `initialiseNode`, `nodeList` and `atexit_handler` of `main.cpp` |
| `timer.dfy` | `Timers` | `Timer` |
| `can_message_handler.dfy` | `CanHandler` | `CanMessageHandler` |
| `can_windsensor.dfy` | `WindSensor` | the four PGN parsers and `processPGN` |
| `power_track_node.dfy` | `PowerTracking` | `PowerTrackNode` |

The code mutates state in place in several places, and the model does too:

- The bus is a class. Its registry is a sequence of `RegisteredNode` objects whose interest lists the bus appends to in place.
- The timer, the CAN handler (with an 8-byte array), the power tracker and the nodes are classes.
- The messages are immutable once built, so they are datatype values.
- The wind-sensor parsers are pure functions over the data bytes.

Each stateful method is proved against a specification function of the old state:
- `Register` for registration;
- `Deliveries`/`BatchDeliveries` and `RepliesUpTo`/`BatchReplies` for dispatch;
- `AfterStart`/`AfterReset`/`AfterStop` for the timer;
- `WithError` for the CAN error byte;
- `Track` for the power tracker.

The lemmas are stated about those functions.

What a node sends back onto the bus while it processes a delivery is a parameter of the dispatch, `respond`, a fixed function of the receiving node and the message; the replies land in the front queue for the next swap. Nodes whose replies depend on what they received before are not covered (see "## Left out"). Two ghost logs record what the bus has done: `delivered` (record index and message, in order) and `destroyed`.

Two things follow from the dispatch rule at MessageBus.cpp:126-147:
- A directed message goes to every registered node whose id is its destination, whatever that node subscribed to. The `continue` at line 144 is the last statement of the loop body, so it has no effect. With unique node ids, a directed message is delivered at most once (`DirectedAtMostOnce`).
- Among the node classes whose declarations this model draws on (`Nodes.NodeClass`), none overrides `isActiveNode()`, and `ActiveNode` does not either. So `initialiseNode` never appends a node of those classes to `nodeList`, and `atexit_handler` stops none of them before the bus (`DeclaredClassesReportPassive`, `NothingCollectedWithoutOverride`). Classes whose declarations are not part of this model, such as PowerTrackNode and HTTPSyncNode, are `UndeclaredClass` values, and the model leaves open what they declare.

## Model

| member | source | states |
|---|---|---|
| `Messages.Directed` | NavigationSystem/MessageBus/Message.hpp:34-35 | the three-argument constructor stores type, source and destination and is valid |
| `Messages.FromSource` | NavigationSystem/MessageBus/Message.hpp:43-47 | the two-argument constructor is the three-argument one with destination None: a broadcast, valid |
| `Messages.OfType` | NavigationSystem/MessageBus/Message.hpp:54-55 | the type-only constructor has source and destination None; its validity flag is uninitialised, i.e. arbitrary |
| `Messages.LeadingReads` | NavigationSystem/MessageBus/Message.hpp:58-59 | the short-circuit chain of reads stops at the first failure: the reads before it succeeded, all succeed exactly when the stream fits the layout |
| `Messages.HeaderTokens` | NavigationSystem/MessageBus/Message.hpp:92-96 | Serialise writes a type then two node ids, the header layout |
| `Messages.HeaderAt` | NavigationSystem/MessageBus/Message.hpp:57-62 | a header read in full is valid and carries no payload |
| `Messages.HeaderRoundTrip` | NavigationSystem/MessageBus/Message.hpp:57-96 | reading back what Serialise wrote gives the same header, valid, whatever follows in the stream |
| `Messages.SerialiseHeader` | NavigationSystem/MessageBus/Message.hpp:92-96 | appends type, source, destination to the serialiser, in that order |
| `Messages.DeserialiseHeader` | NavigationSystem/MessageBus/Message.hpp:57-62 | the message is valid iff all three reads succeed; then it is exactly the header read; the cursor advances by the reads that succeeded |
| `Messages.Serialiser.SerialiseType` | NavigationSystem/MessageBus/Message.hpp:93 | appends one type token |
| `Messages.Serialiser.SerialiseId` | NavigationSystem/MessageBus/Message.hpp:94-95 | appends one node-id token |
| `Messages.Serialiser.SerialiseFloat` | NavigationSystem/Messages/PowerTrackMsg.hpp:33 | appends one float token |
| `Messages.Deserialiser.ReadMessageType` | NavigationSystem/MessageBus/Message.hpp:58 | succeeds iff a type is under the cursor, returns it and advances; a failed read leaves the cursor |
| `Messages.Deserialiser.ReadNodeID` | NavigationSystem/MessageBus/Message.hpp:58-59 | succeeds iff a node id is under the cursor, returns it and advances; a failed read leaves the cursor |
| `Messages.Deserialiser.ReadFloat` | NavigationSystem/Messages/PowerTrackMsg.hpp:26 | succeeds iff a float is under the cursor, returns it and advances; a failed read leaves the cursor |
| `Messages.Deserialiser.Copy` | NavigationSystem/Messages/PowerTrackMsg.hpp:25 | passing a deserialiser by value gives a fresh reader at the same position |
| `MessageKinds.NewMarineSensorData` | NavigationSystem/Messages/MarineSensorDataMsg.h:20-30 | (destination, source, four readings): type MarineSensorData, destination first, payload stored, valid |
| `MessageKinds.BroadcastMarineSensorData` | NavigationSystem/Messages/MarineSensorDataMsg.h:32-37 | the readings-only constructor is the full one with None for both nodes |
| `MessageKinds.NewPowerTrack` | NavigationSystem/Messages/PowerTrackMsg.hpp:15-19 | (destination, source, balance): type PowerTrackMsg, destination first, balance stored (getBalance), valid |
| `MessageKinds.BroadcastPowerTrack` | NavigationSystem/Messages/PowerTrackMsg.hpp:21-23 | PowerTrackMsg(balance) has None for source and destination |
| `MessageKinds.NewWingSailCommand` | NavigationSystem/Messages/WingSailCommandMsg.hpp:15-16 | (source, destination, angle): source first, angle stored unclamped (tailAngle), valid |
| `MessageKinds.BroadcastWingSailCommand` | NavigationSystem/Messages/WingSailCommandMsg.hpp:18-20 | WingSailCommandMsg(angle) has None for source and destination |
| `MessageKinds.NewRudderCommand` | NavigationSystem/Messages/RudderCommandMsg.hpp:16-18 | (source, destination, angle): source first, angle stored unclamped (rudderAngle), valid |
| `MessageKinds.BroadcastRudderCommand` | NavigationSystem/Messages/RudderCommandMsg.hpp:20-22 | RudderCommandMsg(angle) has None for source and destination |
| `MessageKinds.NewServerWaypointsReceived` | NavigationSystem/Messages/ServerWaypointsReceivedMsg.h:16-17 | (destination, source): the base constructor with the arguments swapped; the ServerWaypointsReceivedMsg.hpp variant (lines 15-16) is the same |
| `MessageKinds.DefaultServerWaypointsReceived` | NavigationSystem/Messages/ServerWaypointsReceivedMsg.h:19-20 | the default constructor has None for both nodes |
| `MessageKinds.NewPowerOffCommand` | NavigationSystem/Messages/PowerOffCommand.hpp:15-16 | (source, destination): the base constructor in the same order |
| `MessageKinds.PowerOffCommandFrom` | NavigationSystem/Messages/PowerOffCommand.hpp:18-19 | PowerOffCommand(source) is the two-argument one with destination None |
| `MessageKinds.DefaultPowerOffCommand` | NavigationSystem/Messages/PowerOffCommand.hpp:21 | PowerOffCommand() goes through the type-only base constructor: validity arbitrary, otherwise the two-node one with None |
| `MessageKinds.ArgumentOrderDiffers` | NavigationSystem/Messages/PowerTrackMsg.hpp:15-18 | the same first node argument is the destination of PowerTrack/MarineSensor/ServerWaypoints messages but the source of WingSail/Rudder/PowerOff messages |
| `MessageKinds.Serialise` | NavigationSystem/Messages/MarineSensorDataMsg.h:56-63 | writes the header, then the class's payload fields in declaration order |
| `MessageKinds.EncodingRoundTrip` | NavigationSystem/Messages/PowerTrackMsg.hpp:25-34 | the encoding of a message fits its class's layout and decodes to the same message, valid, whatever follows |
| `MessageKinds.DeserialiseMarineSensorData` | NavigationSystem/Messages/MarineSensorDataMsg.h:39-44 | by reference: valid iff header and four floats all read; then exactly the decoded message and the caller's cursor moved by 7; a bad header always invalidates; valid or not, the caller's cursor ends past the header reads that succeeded, then past the float reads that succeeded from there |
| `MessageKinds.ReadReadings` | NavigationSystem/Messages/MarineSensorDataMsg.h:40-41 | the short-circuit chain of four readFloat calls: the cursor moves over the float tokens it meets, at most four, stops at the first token that is not a float, all four succeed exactly when it moved by 4, and then the readings are those tokens |
| `Messages.LeadingReadsIs` | NavigationSystem/MessageBus/Message.hpp:58-59 | a read chain that succeeded k times and then failed (or finished the layout) has read exactly `LeadingReads` tokens |
| `MessageKinds.DeserialiseHeaderAndFloat` | NavigationSystem/Messages/PowerTrackMsg.hpp:25-29 | reads header and one float from a copy: both succeed iff the stream fits, then they are what was read |
| `MessageKinds.DeserialisePowerTrack` | NavigationSystem/Messages/PowerTrackMsg.hpp:25-29 | valid iff header and balance read; then exactly the decoded message; the caller's reader does not move |
| `MessageKinds.DeserialiseWingSailCommand` | NavigationSystem/Messages/WingSailCommandMsg.hpp:22-26 | valid iff header and angle read; then exactly the decoded message |
| `MessageKinds.DeserialiseRudderCommand` | NavigationSystem/Messages/RudderCommandMsg.hpp:24-28 | valid iff header and angle read; then exactly the decoded message |
| `MessageKinds.DeserialiseHeaderOnly` | NavigationSystem/Messages/ServerWaypointsReceivedMsg.h:22 | header only, from a copy: valid iff the header reads (also PowerOffCommand.hpp:23 and ServerWaypointsReceivedMsg.hpp:21) |
| `MessageKinds.RoundTrip` | NavigationSystem/Messages/MarineSensorDataMsg.h:39-63 | serialising into a fresh stream and deserialising with the class's constructor returns the message, valid |
| `Nodes.Node.constructor` | NavigationSystem/MessageBus/Node.hpp:22 | a node keeps its id; no thread, nothing spawned or joined |
| `Nodes.Node.Init` | NavigationSystem/MessageBus/Node.hpp:30 | init() reports the concrete node's outcome; each call is counted |
| `Nodes.IsActiveNodeOf` | NavigationSystem/MessageBus/Node.hpp:46 | virtual dispatch of isActiveNode(): a class's own override decides, and the answer is true only if some class up the hierarchy overrides it to return true; otherwise Node's definition returns false |
| `Nodes.Node.IsActiveNode` | NavigationSystem/MessageBus/Node.hpp:46 | isActiveNode() on a node object is `IsActiveNodeOf` of the class it was built as; its properties are those of `IsActiveNodeOf` and `DeclaredClassesReportPassive` |
| `Nodes.DeclaredClassesReportPassive` | NavigationSystem/MessageBus/ActiveNode.hpp:14-31 | every named node class, the ActiveNode subclasses included, reports itself passive, and exactly ActiveNode and its direct subclasses are ActiveNodes |
| `Nodes.Node.RunThread` | NavigationSystem/MessageBus/ActiveNode.cpp:11-19 | installs a new, distinctly numbered handle running the entry function |
| `Nodes.Node.StopThread` | NavigationSystem/MessageBus/ActiveNode.cpp:21-27 | joins the given node's handle if it has one, and always leaves it null |
| `Nodes.Node.Start` | NavigationSystem/Hardwares/ArduPilotReadNode.cpp:118-122 | raises the running flag and installs a new thread |
| `Nodes.Node.Stop` | NavigationSystem/Hardwares/ArduPilotReadNode.cpp:124-128 | lowers the running flag and joins and clears the thread |
| `Nodes.StartStopStart` | NavigationSystem/MessageBus/ActiveNode.cpp:11-27 | start, stop, start: the second thread is new and the first one has been joined |
| `Bus.Contains` | NavigationSystem/MessageBus/MessageBus.hpp:93-100 | the scan returns true iff the type is in the list |
| `Bus.RegisteredNode.IsInterested` | NavigationSystem/MessageBus/MessageBus.hpp:93-100 | true iff the type is among the record's interests |
| `Bus.Subscribed` | NavigationSystem/MessageBus/MessageBus.hpp:107-112 | the new list holds exactly the old types plus `t`, keeps the old list as a prefix, is unchanged if `t` was there, never holds a duplicate |
| `Bus.RegisteredNode.Subscribe` | NavigationSystem/MessageBus/MessageBus.hpp:107-112 | the interest list becomes `Subscribed(old list, t)` |
| `Bus.RegisteredNode.constructor` | NavigationSystem/MessageBus/MessageBus.hpp:84 | a new record refers to the node and has no interests |
| `Bus.Register` | MessageBus.cpp:50-57 | registering node `n`, optionally for a type: getRegisteredNode then subscribe, as values; its properties are `RegisterShape`, `RegisterPreservesWellFormed`, `RegisterSubscribes` and `RegisterTwiceMerges` |
| `Bus.IndexOf` | MessageBus.cpp:104-110 | the first record whose node is `n`, compared by identity, or the end |
| `Bus.IndexOfFirst` | MessageBus.cpp:104-110 | an index whose earlier records hold other nodes is the index found |
| `Bus.RegisterShape` | MessageBus.cpp:102-116 | registering reuses the node's record or appends one at the end; other records keep place and interests; no interest is lost |
| `Bus.RegisterPreservesWellFormed` | NavigationSystem/MessageBus/MessageBus.hpp:118-123 | registration keeps one record per node and duplicate-free interest lists |
| `Bus.SubscribePreservesWellFormed` | NavigationSystem/MessageBus/MessageBus.hpp:108-111 | subscribing a record keeps the registry well formed |
| `Bus.RegisterIsSubscribe` | MessageBus.cpp:54-55 | registering for a type is getRegisteredNode followed by subscribe on that record |
| `Bus.RegisterSubscribes` | MessageBus.cpp:50-57 | after registering `n` for `t`, the record of `n` is interested in `t` |
| `Bus.RegisterTwiceMerges` | MessageBus.cpp:50-57 | registering a node for two types leaves one record for it, at the same place, interested in both |
| `Bus.MessageBus.constructor` | MessageBus.cpp:24-29 | a new bus is not running, has no records and two empty queues |
| `Bus.MessageBus.GetRegisteredNode` | MessageBus.cpp:102-116 | returns the index of the node's record, appending a fresh record when there is none; the registry becomes `Register(old, n, None)` |
| `Bus.MessageBus.RegisterNode` | MessageBus.cpp:41-48 | only while not running: registers the node; once running nothing changes |
| `Bus.MessageBus.RegisterNodeFor` | MessageBus.cpp:50-57 | only while not running: registers the node and subscribes it to `t`; once running nothing changes |
| `Bus.MessageBus.SubscribeRecord` | MessageBus.cpp:54-55 | only the chosen record's interests change, as subscribe says |
| `Bus.MessageBus.SendMessage` | MessageBus.cpp:59-68 | a null message is ignored; otherwise it is appended to the front queue |
| `Bus.MessageBus.SwapQueues` | MessageBus.cpp:86-95 | the back queue becomes the old front queue and vice versa |
| `Bus.MessageBus.ProcessMessages` | MessageBus.cpp:118-152 | drains the back queue in FIFO order: the deliveries are `BatchDeliveries`, every message is destroyed once, in order, and the nodes' replies join the front queue |
| `Bus.MessageBus.ProcessHead` | MessageBus.cpp:120-151 | one message: distributed, then popped and destroyed |
| `Bus.MessageBus.Distribute` | MessageBus.cpp:126-147 | the scan delivers to the records the dispatch rule picks, in registration order, and collects their replies |
| `Bus.MessageBus.PollStep` | MessageBus.cpp:84-98 | with messages waiting: swap and process them all; otherwise nothing happens |
| `Bus.MessageBus.Run` | MessageBus.cpp:70-100 | run sets the running flag first; the registry never changes while it runs; the front queue, the deliveries and the destroyed messages after `steps` iterations are exactly those of `Polls` |
| `Bus.Polls` | MessageBus.cpp:84-98 | the iterations of run's loop as values: each takes the whole front queue as its batch, delivers and destroys it, and leaves the replies as the next front queue |
| `Bus.PollsQuiet` | MessageBus.cpp:84-98 | with no message waiting, polling delivers and destroys nothing and the front queue stays empty |
| `Bus.PollsCompose` | MessageBus.cpp:70-100 | polling n times and then m times is polling n + m times: the deliveries and destructions of the two runs follow each other |
| `Bus.PollThen` | MessageBus.cpp:84-98 | one more iteration after two runs in a row is that iteration after the second run |
| `Bus.Receives` | MessageBus.cpp:129-145 | the dispatch condition: a broadcast goes to records interested in its type, a directed message to records whose node id is its destination; its meaning is fixed by `DeliveredIff`, `BroadcastRecipients` and `DirectedRecipients` |
| `Bus.DeliveredIff` | MessageBus.cpp:126-147 | a record gets a message exactly when the dispatch rule says so |
| `Bus.DeliveriesOrdered` | MessageBus.cpp:126 | deliveries of one message follow registration order, so no record gets it twice |
| `Bus.BroadcastRecipients` | MessageBus.cpp:129-136 | a broadcast reaches exactly the records interested in its type |
| `Bus.DirectedRecipients` | MessageBus.cpp:138-145 | a directed message reaches exactly the records whose node id is its destination, regardless of interests |
| `Bus.DirectedAtMostOnce` | MessageBus.cpp:140-144 | with unique node ids a directed message is delivered at most once |
| `Bus.BatchDeliveriesAppend` | MessageBus.cpp:120-151 | processing a batch in two parts delivers the same, in the same order |
| `Bus.RepliesFollowDeliveries` | MessageBus.cpp:126-147 | the replies collected by the scan are the replies to its deliveries, in delivery order |
| `Bus.BatchRepliesAppend` | MessageBus.cpp:120-151 | replies to a batch processed in two parts are the replies to each part, in order |
| `Startup.CollectedAreActive` | NavigationSystem/main.cpp:83-88 | every node in nodeList was initialised successfully, reports itself active and is an ActiveNode |
| `Startup.NothingCollectedWithoutOverride` | NavigationSystem/main.cpp:86-87 | nodes of the named classes are never appended to nodeList |
| `Startup.Application.constructor` | NavigationSystem/main.cpp:69 | nodeList starts empty |
| `Startup.Application.InitialiseNode` | NavigationSystem/main.cpp:81-99 | init() runs once; the node is appended iff it succeeded and reports itself active (and is an ActiveNode); a failed critical node exits with EXIT_FAILURE, a failed non-critical one is skipped; a passive node claiming to be active fails the cast |
| `Startup.Application.AtExitHandler` | NavigationSystem/main.cpp:101-114 | stops every listed node, in list order, then the bus; afterwards no listed node runs or holds a thread |
| `Startup.StopEvents` | NavigationSystem/main.cpp:107-111 | one stop per listed node, in list order |
| `Timers.Elapsed` | NavigationSystem/SystemServices/Timer.cpp:69-85 | the time passed is never negative for a sane state |
| `Timers.Truncate` | NavigationSystem/SystemServices/Timer.cpp:105 | the conversion to long truncates toward zero |
| `Timers.FreshIsIdle` | NavigationSystem/SystemServices/Timer.cpp:24-29 | a new timer reports 0 and never reaches any time |
| `Timers.TransitionsStaySane` | NavigationSystem/SystemServices/Timer.cpp:35-62 | start, reset and stop keep the state sane at any later clock reading |
| `Timers.StartWhileRunning` | NavigationSystem/SystemServices/Timer.hpp:20-24 | start() on a running timer changes nothing |
| `Timers.StopFreezes` | NavigationSystem/SystemServices/Timer.cpp:58-62 | after stop() the time passed is frozen at the value reached, and timeReached() holds for no time at all |
| `Timers.RestartCountsFromZero` | NavigationSystem/SystemServices/Timer.cpp:35-42 | start() after stop() counts from zero rather than resuming |
| `Timers.ResetCountsFromZero` | NavigationSystem/SystemServices/Timer.hpp:26-29 | reset() counts from zero whether running or not |
| `Timers.ReachedIffNoTimeLeft` | NavigationSystem/SystemServices/Timer.cpp:114-121 | a time is reached iff the timer runs and there is (strictly) no time left until it |
| `Timers.SleepUntilWakesAtTarget` | NavigationSystem/SystemServices/Timer.cpp:100-107 | sleeping the microseconds sleepUntil asks for wakes less than a microsecond before the target, never after |
| `Timers.Timer.constructor` | NavigationSystem/SystemServices/Timer.cpp:24-29 | starts at the current reading, stopped, nothing passed |
| `Timers.Timer.Start` | NavigationSystem/SystemServices/Timer.cpp:35-42 | the state becomes `AfterStart(old, now)` |
| `Timers.Timer.Reset` | NavigationSystem/SystemServices/Timer.cpp:48-52 | the state becomes `AfterReset(old, now)` |
| `Timers.Timer.Stop` | NavigationSystem/SystemServices/Timer.cpp:58-62 | the state becomes `AfterStop(old, now)` |
| `Timers.Timer.TimePassed` | NavigationSystem/SystemServices/Timer.cpp:69-85 | never negative, and equal to `Elapsed` |
| `Timers.Timer.TimeUntil` | NavigationSystem/SystemServices/Timer.cpp:92-95 | the target minus the time passed |
| `Timers.Timer.SleepUntil` | NavigationSystem/SystemServices/Timer.cpp:100-107 | the duration asked for, in microseconds |
| `Timers.Timer.TimeReached` | NavigationSystem/SystemServices/Timer.cpp:114-121 | running and strictly past the target |
| `Timers.Timer.Started` | NavigationSystem/SystemServices/Timer.hpp:55 | exactly the running flag |
| `CanHandler.CleanData` | NavigationSystem/Hardwares/CAN_Services/CanBusCommon/CanMessageHandler.cpp:26-30 | a fresh frame's data: seven zero bytes and NO_ERRORS in the error byte |
| `CanHandler.WithError` | NavigationSystem/Hardwares/CAN_Services/CanBusCommon/CanMessageHandler.cpp:45-49 | only the error byte may change, and only when it still holds NO_ERRORS |
| `CanHandler.RecordedErrorSticks` | NavigationSystem/Hardwares/CAN_Services/CanBusCommon/CanMessageHandler.cpp:45-49 | once an error is recorded, any further setErrorMessage calls change nothing |
| `CanHandler.FirstErrorWins` | NavigationSystem/Hardwares/CAN_Services/CanBusCommon/CanMessageHandler.cpp:11-12 | from a clean frame, a run of setErrorMessage calls leaves the first actual error (or none) in the error byte and the seven payload bytes untouched |
| `CanHandler.CanMessageHandler.FromMessage` | NavigationSystem/Hardwares/CAN_Services/CanBusCommon/CanMessageHandler.cpp:18-20 | holds the given frame unchanged |
| `CanHandler.CanMessageHandler.constructor` | NavigationSystem/Hardwares/CAN_Services/CanBusCommon/CanMessageHandler.cpp:22-31 | the id given, ide 0, length 8, all data bytes zero, no error |
| `CanHandler.CanMessageHandler.GetMessageId` | NavigationSystem/Hardwares/CAN_Services/CanBusCommon/CanMessageHandler.cpp:33-35 | the stored id |
| `CanHandler.CanMessageHandler.GetMessage` | NavigationSystem/Hardwares/CAN_Services/CanBusCommon/CanMessageHandler.cpp:37-39 | the frame held |
| `CanHandler.CanMessageHandler.GetErrorMessage` | NavigationSystem/Hardwares/CAN_Services/CanBusCommon/CanMessageHandler.cpp:41-43 | the error byte of the frame held |
| `CanHandler.CanMessageHandler.SetErrorMessage` | NavigationSystem/Hardwares/CAN_Services/CanBusCommon/CanMessageHandler.cpp:45-49 | the data becomes `WithError(old data, e)`; id, ide and length unchanged |
| `WindSensor.Le16` | SystemServices/CANWindsensorNode.cpp:79 | `lo \| (hi << 8)` is the little-endian value lo + 256·hi, below 65536 |
| `WindSensor.Le32` | SystemServices/CANWindsensorNode.cpp:122 | the four-byte or-of-shifts is the little-endian 32-bit value |
| `WindSensor.ParseWindData` | SystemServices/CANWindsensorNode.cpp:75-84 | PGN 130306: SID byte 0, raw speed bytes 1-2, raw angle bytes 3-4, reference the low three bits of byte 5 |
| `WindSensor.ParseEnvironmental` | SystemServices/CANWindsensorNode.cpp:86-100 | PGN 130311: temperature instance the low six bits of byte 1 and humidity instance its top two, together recovering byte 1; humidity 0; pressure bytes 6-7 unscaled |
| `WindSensor.ParseTemperature` | SystemServices/CANWindsensorNode.cpp:102-113 | PGN 130312: SID, instance, source bytes 0-2 verbatim; raw actual and set temperatures from bytes 3-4 and 5-6 |
| `WindSensor.ParseActualPressure` | SystemServices/CANWindsensorNode.cpp:115-124 | PGN 130314: SID, instance, source verbatim; raw pressure the 32-bit little-endian value of bytes 3-6 |
| `WindSensor.ProcessPgn` | SystemServices/CANWindsensorNode.cpp:28-73 | decodes exactly the four known PGNs, each with its own parser; any other PGN yields nothing |
| `WindSensor.DecodingIgnoresTrailingBytes` | SystemServices/CANWindsensorNode.cpp:75-124 | only the first eight data bytes matter |
| `PowerTracking.Track` | NavigationSystem/WorldState/PowerTrackNode.cpp:67-93 | processCurrentSensorDataMessage as a function of the fields; its properties are `TrackStoresReading`, `RepeatedElementKeepsBalance`, `SameElementCountsOnce` and `BalanceCountsRunStarts` |
| `PowerTracking.TrackStoresReading` | NavigationSystem/WorldState/PowerTrackNode.cpp:69-72 | every reading stores current, voltage and element, with power = voltage × current |
| `PowerTracking.RepeatedElementKeepsBalance` | NavigationSystem/WorldState/PowerTrackNode.cpp:75 | a reading from the element read last leaves the balance as it is |
| `PowerTracking.SameElementCountsOnce` | NavigationSystem/WorldState/PowerTrackNode.cpp:75-91 | two consecutive readings from one element move the balance once, by the first one's contribution |
| `PowerTracking.BalanceCountsRunStarts` | NavigationSystem/WorldState/PowerTrackNode.cpp:75-92 | over any sequence of readings the balance moves by exactly the contributions of the readings that start a run of one element; solar adds, engine subtracts, others add nothing |
| `PowerTracking.PowerTrackNode.constructor` | NavigationSystem/WorldState/PowerTrackNode.cpp:25-32 | zero readings and balance, no element read yet, node id PowerTrack, and subscribed on the bus to CurrentSensorData unless the bus runs |
| `PowerTracking.PowerTrackNode.ProcessMessage` | NavigationSystem/WorldState/PowerTrackNode.cpp:50-64 | a CurrentSensorData message updates the state as `Track`; any other type leaves it unchanged |
| `PowerTracking.PowerTrackNode.ProcessCurrentSensorDataMessage` | NavigationSystem/WorldState/PowerTrackNode.cpp:67-93 | the state becomes `Track(old state, reading)` |

## Left out

- Threads, the front-queue mutex, the 50 ms poll sleep and the unlocked size check (MessageBus.cpp:21, 63-66, 81, 84, 88-93): a poll step is one atomic step, and `run` is a given number of poll steps rather than an endless loop.
- `MessageBus::stop`: it is declared at NavigationSystem/MessageBus/MessageBus.hpp:76, but its body is not part of this model. `atexit_handler` records it as a `BusStopped` event.
- The message log (`startMessageLog`, `logMessage`, `logMessageConsumer`, timestamps) and every `Logger` call: file and console output.
- `registerNode` is declared returning `bool` (MessageBus.hpp:50, 59) but defined returning `void` (MessageBus.cpp:41, 50). The model returns whether the registration took effect (`!running`). The `.cpp` gives callers no such result.
- `RegisteredNode` keeps a node reference in the header (`nodeRef`) and a node pointer in the `.cpp` (`nodePtr`). The model keeps one object reference, and records are matched by identity.
- Message ownership and `delete`: a destroyed message is recorded in the ghost log `destroyed`; memory is not modelled.
- MessageTypes.hpp, NodeIDs.hpp, MessageSerialiser.hpp and MessageDeserialiser.hpp are not part of this model:
  - the enumerations keep only the values the modelled code names;
  - the serialiser and deserialiser are a stream of typed tokens;
  - a failed read leaves the cursor in place;
  - the byte encoding of each field is not modelled.
- `timeReceived` (Message.hpp:98-100) and the accessors: message fields are datatype fields, so `messageType()`, `getBalance()`, `tailAngle()` and the rest are field selections.
- `Messages.DeserialiseHeader`: a field after a failed read is left uninitialised by the source. The contract promises nothing about it.
- Floating point: `float`/`double` values are reals, so rounding is not modelled.
- `Timers.Timer.SleepUntil` returns the microseconds asked for. The sleep itself, the real steady clock and a `long` overflow for huge durations are not modelled. The clock is a parameter `now`, and the ghost `clock` holds the latest reading; it never decreases.
- `Node::updateConfigsFromDB`, `nodeName` and `processMessage` of the concrete nodes: database access, string formatting, and node-specific behaviour. A node's reply to a delivery is the `respond` parameter of the bus.
- `Bus.MessageBus.Run`, `Bus.MessageBus.ProcessMessages`, `Bus.MessageBus.Distribute` (and the specification functions `RepliesUpTo`, `BatchReplies`, `Polls` they are proved against): the replies a node sends from `processMessage` are `respond(node, message)`, a fixed function of the node and the delivered message with no `reads`. A node whose replies depend on its own fields or on earlier deliveries, as PowerTrackNode's balance does (PowerTrackNode.cpp:67-93), is therefore not covered by these contracts: its replies, and so the later batches they feed, are not what `respond` gives. Within one batch the deliveries and destroyed messages do not depend on replies (`ProcessMessages` takes the batch before any reply is sent), so those parts still hold. The node-side state change of a delivery is modelled separately, by `PowerTracking.PowerTrackNode.ProcessMessage`.
- The worker-thread bodies (e.g. PowerTrackNode.cpp:96-117): timing loops around I/O.
- `Nodes.Node.Start` and `Nodes.Node.Stop` model the `start`/`stop` pattern of the concrete active nodes (a running flag plus `runThread`/`stopThread`). That flag is atomic in the source; here it is a plain field.
- `Nodes.Node.Stop` and `Startup.Application.AtExitHandler`: `atexit_handler` calls `stop()` on an `ActiveNode*` (main.cpp:109), but ActiveNode.hpp:14-31 declares only `start()` and no `stop()`, so as written the call does not compile against that declaration. Nor does every node follow the flag pattern: PowerTrackNode.cpp:44-47 starts its thread with `runThread` alone, sets no running flag, and defines no `stop()`. The model gives every node the flag-plus-thread `Start`/`Stop` of ArduPilotReadNode.cpp:118-128, so it does not capture how a node without such a `stop()` would be shut down.
- The node class hierarchy (`Nodes.NodeClass`) names only classes whose declarations this model draws on. PowerTrackNode's declaration is not part of this model; it derives from ActiveNode (PowerTrackNode.cpp:26) and is taken not to override `isActiveNode()`.
- `exit(EXIT_FAILURE)` and the `std::bad_cast` thrown by a failed `dynamic_cast` are outcomes returned by `InitialiseNode`, not process exits.
- `CanMsg`, `NO_ERRORS` and `INDEX_ERROR_CODE` are declared in headers that are not part of this model. The frame is an id below 2^32, `ide`, `length` and eight data bytes. The error byte is index 7, the last of the eight. `NO_ERRORS` is taken to be 0; the proofs only use that it is one fixed value.
- The commented-out encoder code of CanMessageHandler.cpp (lines 51-136).
- Wind-sensor scaling (CANWindsensorNode.cpp:80, 82, 94, 110, 112, 123) is floating point; the parsers return the raw integer fields. The console output of `processPGN` is not modelled.
- `processPGN` dispatches on the message's own PGN and ignores its `PGN` argument; the model has no such argument. The file does not compile as written (lines 34, 44, 75, 86 name parsers and parameters inconsistently), so the four parsers are modelled as evidently intended.
- `WindSensor.ProcessPgn` requires at least eight data bytes, the payload of a single NMEA 2000 frame. The source does not check the length.
- The `Data[6] << 24` at CANWindsensorNode.cpp:122 is computed on a signed `int`, which overflows when byte 6 is 128 or more. The model uses the unsigned 32-bit value the code evidently intends.
- CurrentSensorDataMsg and the SensedElement enumeration are not part of this model. A `CurrentReading` carries the values of its three accessors beside the message. Only `SOLAR_PANEL` and `ENGINE` are named. "No element read yet" (the `-1` of `m_lastElementRead`) is `None`.
- `PowerTracking.PowerTrackNode.constructor`: the source leaves `m_Power` uninitialised, so nothing is said about it. The element starts as the enumerator with value 0; SensedElement is declared in a header that is not part of this model, so that element is modelled as an unnamed one. `loopTime` and the database handle are stored or unused.
- Numeric widths: the wind sensor's bytes are `bv8` and the CAN frame's bytes and id are `uint8`/`uint32` newtypes. Elsewhere integers are unbounded.
