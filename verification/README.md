# Verification of the EVerest framework's coordination logic

These Dafny modules model how the EVerest framework's manager and modules work together, and
prove what the code relies on. `dafny verify dfyconfig.toml` checks everything.

- **Messaging.** A process has one routing worker, a thread and a queue for each topic, and a
  snapshot of handlers for each message (`MessageHandler`, `MqttClient`, `EntrySelection`); the
  objects behind them are in `MqttAbstraction`. Command calls and their results share one topic (`CallProtocol`,
  `CallSteps`, `CallSafety`, `CallHistory`, `CallProgress`). `CallSystem` puts clients and a broker
  together and refines the call protocol; `CallRuns` and `CallReturns` carry safety and progress
  over to runs of the whole system, in which variables, errors and external messages pass through
  the same workers; `CallConfig` ties its command topics to a loaded config. The broker is
  modelled as ordered, exactly-once channels (sections 4.6 and 4.3.3 of MQTT Version 3.1.1).
  `TopicMatch` relates the topic matcher to section 4.7 of that standard, `FilterCover` finds the
  filters that accept topics under a prefix, and `MissingHandler` those that can end the process.
- **Serial input.** `Cobs` has the byte-at-a-time decoder against an encoder in the form of
  Cheshire and Baker, `CobsInput` what it makes of any bytes, and `Crc32` the checksum
  against section 8 of RFC 1952.
- **Errors.** `ErrorDatabase` and `ErrorBridge` have the database, the manager and the bridge.
- **Config.** `Requirements`, `ModuleCache`, `Probe` and `Config` have the resolution of
  requirements, the loading of manifests with the command cache, and the generated probe manifest.
- **Start-up, code generation, controller.** `ReadyBarrier`; `TypeRefs`, `SchemaTypes` and `Codegen`;
  and `PendingCalls`.

A protocol is a state machine: `Enabled` and `Apply` for a step, `Run` for a sequence of steps,
`Inv` for what every step keeps. A step is what the code does under one lock, so theorems over all
runs are theorems over all interleavings. Objects are classes whose methods are tied to the steps;
loops over a `std::map` take the least key that is left.

Where a property fails in general, the exact condition under which it holds is proved:

- The abort for a message without an entry is reachable exactly if some registered filter has a
  wildcard and a broker forwards some everest topic for it (`MissingHandler.AbortsIff`).
- The command cache is cleared under a module's id (`lib/config.cpp:239`) but filled under the
  name of its type (`lib/config.cpp:289`). A type's commands are lost exactly if a module of
  another type has its name as id and is loaded after all its modules (`Config.WipedIff`).
- The manager's MQTT loop already runs while `modules_ready` is being filled
  (`src/manager.cpp:600`, `src/manager.cpp:273`). The barrier holds exactly if no signal completes
  the flags while a module still to be registered has not signalled (`ReadyBarrier.BarrierHoldsIff`),
  and as modules are registered in the order of ids and spawned after that, it can break exactly
  if the first one is standalone and not the only one (`ReadyBarrier.CanBreakIff`).
- A controller's reply can reach another call exactly if an id is drawn again while an older reply
  for it is outstanding (`PendingCalls.CareIsExact`).
- A packet of 2047 bytes fits the decoder only if its last block is not full
  (`Cobs.DeliveredExactlyIf`).
- The matcher departs from section 4.7.2 of MQTT Version 3.1.1 exactly for topics that begin with
  `$` and filters that begin with a wildcard and match (`TopicMatch.MeetsBothSectionsIff`).

The comment at `lib/mqtt_abstraction_impl.cpp:244` says that everest topics never contain
wildcards; nothing enforces this for registered filters, and the model follows the code.

## Model

| member | source | states |
|---|---|---|
| `TopicMatch.CheckTopicMatches` | lib/mqtt_abstraction_impl.cpp:467-512 | the matcher with its recursion on a final "/#", its splits and its loop ends on all inputs and decides the relation that the next rows are about |
| `TopicMatch.MatcherMeetsStandard` | lib/mqtt_abstraction_impl.cpp:467-512 | for every topic name and every well-formed filter the matcher decides exactly the level-wise match of section 4.7.1 of MQTT Version 3.1.1 |
| `TopicMatch.PlainFilterIsEquality` | lib/mqtt_abstraction_impl.cpp:243-250 | for filters without a wildcard level the matcher is string equality, for every topic: what justifies the direct comparison on everest topics |
| `TopicMatch.MeetsBothSectionsIff` | lib/mqtt_abstraction_impl.cpp:467-512 | for topic names and well-formed filters the matcher agrees with sections 4.7.1 and 4.7.2 together if and only if it is not the case that the topic begins with "$", the filter with a wildcard, and section 4.7.1 accepts |
| `FilterCover.DepartsForSomeTopicIff` | lib/mqtt_abstraction_impl.cpp:467-512 | with a well-formed filter the matcher departs from sections 4.7.1 and 4.7.2, for some topic name, if and only if the filter begins with a wildcard |
| `MessageHandler.DeliveryInOrderExactlyOnce` | lib/message_queue.cpp:58-118 | over every run of an entry: messages are taken in order; each handler gets messages in arrival order, each at most once, and, once a message is done, exactly those whose snapshot held it and whose type, name and id test it passes |
| `MessageHandler.AtMostOneAfterRemoval` | lib/message_queue.cpp:73-83 | after a handler is removed, and unless added again, every run delivers at most one further message to it, the one whose snapshot was taken before |
| `MessageHandler.StepPreservesInv` | lib/message_queue.cpp:58-148 | every step keeps: routed = taken then queued, snapshots are of handlers once added, and the log of calls is ordered, sound and complete |
| `MessageHandler.PositionsIncrease` | lib/message_queue.cpp:84-116 | in an ordered log the messages of one handler come at strictly increasing positions |
| `MessageHandler.HandlersGetTheirOwn` | lib/message_queue.cpp:84-116 | over every run: a variable handler is called only for messages with its own name and gets their data, call and result handlers likewise by type and id, the other kinds get whole messages; and once a message is done each handler of its snapshot that it is for was called with it |
| `MessageHandler.InvokedIff` | lib/message_queue.cpp:84-116 | the test calls a handler exactly if the message is for it, told from the members of the message, with its part of it |
| `MessageHandler.ThrowsIff` | lib/message_queue.cpp:84-116 | it throws exactly if a member is missing that it gets to look at |
| `MqttClient.EndToEndConservation` | lib/message_queue.cpp:16-51 | over every run of a process: messages added = routed, then the one in flight, then queued; each topic entry got the order-preserving selection by topic match of what was routed since it was made; what was published was sent in order or still waits |
| `MqttClient.SubscriptionsFollowHandlers` | lib/mqtt_abstraction_impl.cpp:336-374 | over every run: while connected every topic with a handler is subscribed, and only keys of message_handlers are, through any order of register, unregister and connect |
| `MqttClient.StepSubscribes` | lib/mqtt_abstraction_impl.cpp:273-374 | what every step does to the subscriptions: the first handler subscribes, losing the last one unsubscribes, connecting subscribes every topic with an entry |
| `MqttClient.HandlersGetTheirSelection` | lib/message_queue.cpp:16-118 | over every run of a process, from the network to the handlers: each handler of a topic is called in arrival order, exactly once for each message due, out of the selection routed since the topic's entry was made, with what its test extracts from that message |
| `EntrySelection.EntryGetsItsMessages` | lib/mqtt_abstraction_impl.cpp:213-256 | over every run, of the messages received: an entry outside the prefix got, in order, the payloads as strings of exactly the messages that its filter matches; the entry of a topic name under it the parsed values of exactly the JSON messages on that topic; and each handler just its own of them |
| `EntrySelection.RouteGives` | lib/mqtt_abstraction_impl.cpp:213-261 | routing a message adds its data to the queues of exactly the entries that it goes to, and is fatal exactly if it is decodable and goes to none |
| `MissingHandler.NoMissingHandler` | lib/mqtt_abstraction_impl.cpp:237-261 | if no registered wildcard filter brings everest topics, every forwarded message finds an entry, so the missing-handler abort is unreachable |
| `FilterCover.CoversExactly` | lib/mqtt_abstraction_impl.cpp:243-250 | a level-wise test of filter against prefix decides, for every well-formed filter, whether section 4.7.1 accepts some topic name under the prefix |
| `FilterCover.BringsExactly` | lib/mqtt_abstraction_impl.cpp:243-250 | the same with section 4.7.2, which a broker follows: whether it forwards some topic name under the prefix for this filter |
| `MissingHandler.UnsafeFilterAborts` | lib/mqtt_abstraction_impl.cpp:243-261 | for every filter with a wildcard and every everest topic that a broker forwards for it: register, connect, receive, take, route ends in the abort |
| `MissingHandler.AbortsIff` | lib/mqtt_abstraction_impl.cpp:237-261 | a run that registers filters of a given set ends in the abort, for some order of everything else, if and only if one of them has a wildcard and brings an everest topic |
| `MqttClient.AtMostOneAfterUnregister` | lib/mqtt_abstraction_impl.cpp:352-374 | after unregister_handler for a registered token, and unless registered again, every run of the process delivers at most one further message of that topic to it |
| `MqttClient.RunProjects` | lib/mqtt_abstraction_impl.cpp:213-374 | whatever a client does, each of its entries goes through a run of entry steps, gets handlers only by registering them, and is never erased |
| `MqttClient.StepPreservesInv` | lib/mqtt_abstraction_impl.cpp:107-374 | every step keeps the queue, routing, subscription and publishing invariants together |
| `MqttAbstraction.TopicHandler.Test` | lib/message_queue.cpp:84-116 | the nested tests on type, name and id, in the order the members are read: a handler is called exactly if the message is for it, with the part of it that is meant; else it is skipped, or a missing member throws |
| `MqttAbstraction.TopicHandler.TakeSnapshot` | lib/message_queue.cpp:73-81 | the copied list has each registered handler once and no other |
| `MqttAbstraction.TopicHandler.Distribute` | lib/message_queue.cpp:84-116 | the distribution loop is a run of the entry steps and ends with every copied handler dealt with, or at the first that throws |
| `MqttAbstraction.TopicHandler.Turn` | lib/message_queue.cpp:60-117 | a whole turn of the thread is a run of the entry steps, takes exactly the first message, and calls exactly the registered handlers that it is for |
| `MqttAbstraction.TopicHandler.Add` | lib/message_queue.cpp:120-126 | adding a message is the step Add and nothing else changes |
| `MqttAbstraction.TopicHandler.AddHandler` | lib/message_queue.cpp:136-141 | adding a handler is the step AddHandler and nothing else changes |
| `MqttAbstraction.TopicHandler.RemoveHandler` | lib/message_queue.cpp:143-149 | removing a handler, which must be present, is the step RemoveHandler and nothing else changes |
| `MqttAbstraction.MessageQueue.Add` | lib/message_queue.cpp:37-43 | a received message goes to the end of the queue |
| `MqttAbstraction.MessageQueue.Take` | lib/message_queue.cpp:20-30 | the worker takes the first message of a running queue |
| `MqttAbstraction.MqttAbstraction.Publish` | lib/mqtt_abstraction_impl.cpp:95-127 | a message is sent if connected and waits otherwise |
| `MqttAbstraction.MqttAbstraction.RegisterHandler` | lib/mqtt_abstraction_impl.cpp:303-350 | registering makes the entry if needed, adds the handler to it, subscribes for the first one while connected, and leaves every other entry as it was |
| `MqttAbstraction.MqttAbstraction.UnregisterHandler` | lib/mqtt_abstraction_impl.cpp:352-378 | unregistering keeps the entry, removes the handler if the topic has any, and unsubscribes for the last one while connected |
| `MqttAbstraction.MqttAbstraction.AddToMatching` | lib/mqtt_abstraction_impl.cpp:237-256 | the loop over the entries adds the data to exactly the matching ones, once each, and reports whether there was one |
| `MqttAbstraction.MqttAbstraction.OnMqttMessage` | lib/mqtt_abstraction_impl.cpp:213-271 | undecodable everest payloads are dropped, other messages go to all matching entries, and a message without one is fatal: the step Route of the state machine |
| `MqttAbstraction.MqttAbstraction.OnMqttConnect` | lib/mqtt_abstraction_impl.cpp:273-295 | connecting subscribes to all topics with an entry and sends what waited, in order |
| `CallSafety.CallsGetTheirOwnResults` | lib/everest.cpp:226-278 | in every interleaving of the protocol a call that is fulfilled or returned has what its command's one provider computed for that call's arguments; no promise is set twice; the result handlers registered anywhere are exactly those of calls made there that are in flight or timed out |
| `CallSafety.ServedOnce` | lib/everest.cpp:797-883 | what a provider's handler serves is a published call that is not computed yet, with its own arguments |
| `CallSafety.MessagesOnTopics` | lib/everest.cpp:226-278 | over every run each message on a command topic is a call with its id, name, arguments and caller, or the result computed for one, with its id, name and value and the module that owns the topic |
| `CallHistory.ServedAtMostOnce` | lib/everest.cpp:797-883 | in every interleaving two starts of command handlers, anywhere, are for different calls, whether or not the first one answered |
| `CallSafety.StepPreservesInv` | lib/everest.cpp:797-883 | every step of callers, providers and handler threads keeps the invariant: traces without duplicates, legitimate messages, one provider for a command, results consumed once |
| `CallSteps.ResultOnlyOnce` | lib/message_queue.cpp:93-104 | a result handler that is started on its result belongs to a call whose promise is not set yet |
| `CallSteps.PromiseValue` | lib/everest.cpp:231-243 | starting a result handler on its result sets the promise to the value computed for that call |
| `CallProgress.CallMovesOn` | lib/everest.cpp:259-278 | if nested calls follow an order on command topics, every call in flight has an enabled step that brings it, or a call it depends on, further |
| `CallProgress.StepKeepsLive` | lib/everest.cpp:797-883 | every orderly step keeps the invariant behind progress: what is waited for is pending at the thread that will deal with it |
| `CallProgress.StepDecreases` | lib/everest.cpp:226-278 | every step that makes no new call or offer lowers a lexicographic measure, so such runs are finite |
| `CallProgress.EveryCallComesBack` | lib/everest.cpp:226-278 | from every live state advancing steps lead to one in which no call is in flight and each call that was has returned |
| `CallProgress.NeverStuck` | lib/everest.cpp:226-278 | over every orderly run of the protocol no state with a call in flight is stuck |
| `CallSystem.StepRefines` | lib/mqtt_abstraction_impl.cpp:213-374 | every step of the whole system, with clients, queues, workers, entries and broker, is a step of the call protocol, or moves a message on its way or is foreign to calls (variables, errors, ready signals and external messages through the same workers, with any safe filters) and changes nothing the protocol sees |
| `CallSystem.StepKeepsSystemInv` | lib/mqtt_abstraction_impl.cpp:213-374 | every system step, foreign ones included, keeps clients connected and without fault, and undelivered messages on channels that were subscribed |
| `CallSystem.RoutedIsForwarded` | lib/message_queue.cpp:16-35 | what a topic entry got is the beginning of what the broker forwarded for its topic; the rest is in flight or queued |
| `CallRuns.RunRefines` | lib/everest.cpp:226-278 | every run of the system is a run of the call protocol between its message moves |
| `CallRuns.ResultsAreTheCallsOwn` | lib/everest.cpp:226-278 | in every interleaving of the whole system a returned call has its own result, no promise is set twice, and the result handlers registered at the clients are exactly those of calls made there that are in flight or timed out |
| `CallRuns.ServedAtMostOnce` | lib/everest.cpp:797-883 | in every run of the whole system two starts of command handlers are for different calls |
| `CallRuns.NoClientFaults` | lib/mqtt_abstraction_impl.cpp:237-261 | no client of such a system ever aborts for a missing handler |
| `CallRuns.MessageMovesOn` | lib/message_queue.cpp:16-35 | whenever a forwarded message is not taken yet and its thread is idle, the thread, the routing worker or the broker has an enabled step |
| `CallRuns.StepDecreases` | lib/message_queue.cpp:58-118 | every system step that makes no new call or offer and is not foreign to calls lowers the protocol's measure, or keeps it and shortens the way of the messages |
| `CallRuns.NeverStuck` | lib/mqtt_abstraction_impl.cpp:239-256 | over every orderly run of the whole system no state with a call in flight is stuck: some step is enabled and a lexicographic measure falls |
| `CallReturns.EveryCallComesBack` | lib/everest.cpp:226-278 | from every live state of the whole system a finite run without new calls and foreign messages leaves no call in flight, and each one that was has returned |
| `CallRuns.CommandTopicHasOneOwner` | lib/config.cpp:968-972 | a command topic determines the module and the implementation, as ids have no slash |
| `CallRuns.CommandTopicParts` | lib/config.cpp:968-972 | a command topic is the prefix, the module, the implementation and "cmd", with slashes between |
| `CallConfig.OwnerIsNamed` | lib/config.cpp:968-972 | the owners that a config gives to command topics: the topic of each implementation of each module belongs to that module |
| `CallConfig.OwnersAreCommands` | lib/config.cpp:968-972 | all of them are topic names under the prefix, so every config with ids as the schemas allow gives a system that the theorems on runs are about |
| `CallConfig.ConnectedModuleServes` | lib/everest.cpp:165-278 | in every run of a system whose command topics are those of a loaded config: a call over a connection, at any index, is served only by the connected module, and what it returns was computed there for its arguments |
| `Cobs.Serial.CobsDecodeByte` | lib/serial.cpp:127-163 | on every input byte: no write leaves the 2048 bytes of msg, block does not wrap, and the object follows the machine on values |
| `Cobs.Serial.CobsDecode` | lib/serial.cpp:122-125 | a buffer is decoded byte by byte in order |
| `Cobs.FeedFits` | lib/serial.cpp:127-163 | for every input the text stays below 2048 bytes, packets are only added, and each fits into the buffer |
| `Cobs.ZeroCleans` | lib/serial.cpp:135-159 | a zero byte ends whatever was going on and leaves the decoder between packets |
| `Cobs.DeliveredExactlyIf` | lib/serial.cpp:127-163 | an encoded packet is delivered if and only if it has at most 2046 bytes, or 2047 and no full last block; the one kind of 2047 bytes that fails comes out empty |
| `CobsInput.AnyInput` | lib/serial.cpp:127-163 | between two zeros, any bytes that cannot overflow the buffer: nothing is delivered if they break off inside a block, else exactly one packet, the text of their blocks without its last byte |
| `CobsInput.OverflowStartsOver` | lib/serial.cpp:128-132 | with 2047 bytes of text one more, other than zero, starts over as the code of a block |
| `Cobs.StreamIsDelivered` | lib/serial.cpp:94-98 | from every decoder state, after any bytes that end in zero, a stream of encoded packets is delivered exactly and in order |
| `Cobs.ChunkingIsIrrelevant` | lib/serial.cpp:122-125 | the pieces in which the bytes arrive do not matter |
| `Cobs.BlocksHaveNoZero` | include/utils/serial.hpp:34 | an encoded packet, in the form of Cheshire and Baker with a phantom zero, has no zero in it |
| `Cobs.EncodeIsInjective` | include/utils/serial.hpp:34 | different deliverable packets have different encodings |
| `Crc32.Crc32` | lib/serial.cpp:100-117 | the two loops compute the bitwise complement of the CRC of section 8 of RFC 1952, whose generator has its own definition by exponents, for every buffer |
| `Crc32.PolynomialIsGenerator` | lib/serial.cpp:111 | the constant in the code is the generator with exponents 0, 1, 2, 4, 5, 7, 8, 10, 11, 12, 16, 22, 23, 26 and 32, bit-reversed |
| `Crc32.TableOfGenerator` | lib/serial.cpp:111 | entry 0x80 of the table of the RFC is 0xEDB88320, which by linearity fixes all entries |
| `Crc32.ByteStepIsTableStep` | lib/serial.cpp:107-114 | eight bit steps are one step with the table of the RFC |
| `Crc32.BitStepIsBijective` | lib/serial.cpp:110-112 | the bit step is a bijection on 32-bit words |
| `Crc32.BurstIsDetected` | lib/serial.cpp:100-117 | buffers of equal length that differ only within four consecutive bytes have different checksums |
| `Crc32.AppendedChecksumGivesZero` | lib/serial.cpp:100-117 | a buffer followed by its value in little-endian order has the value 0 |
| `Crc32.FourBytesAreAWord` | lib/serial.cpp:105-115 | four bytes act on the register as one word taken before 32 bit steps |
| `ErrorDatabase.ErrorDatabaseMap.AddError` | lib/error/error_database_map.cpp:16-23 | an error with a uuid in use is rejected and changes nothing; any other is stored under its uuid |
| `ErrorDatabase.ErrorDatabaseMap.GetErrors` | lib/error/error_database_map.cpp:30-81 | fails exactly if some filter is not set; else the result is, in key order, exactly the stored errors that pass all filters, a state filter counting as true |
| `ErrorDatabase.ErrorDatabaseMap.RemoveErrors` | lib/error/error_database_map.cpp:83-97 | returns that selection and removes exactly it; on failure nothing changes |
| `ErrorDatabase.SelectionIsUnique` | lib/error/error_database_map.cpp:33-81 | there is one selection for a set of filters, so their order and repetition are irrelevant |
| `ErrorDatabase.FilterKeeps` | lib/error/error_database_map.cpp:37-76 | what each kind of filter keeps of the stored errors: both ids of an origin, a type, a uuid, the severities from the threshold up, a period with both ends, everything for a state |
| `ErrorDatabase.RemovalSplits` | lib/error/error_database_map.cpp:83-97 | removal splits the stored errors exactly into returned and kept, and keys stay uuids |
| `ErrorDatabase.HandleSelectsAtMostOne` | lib/error/error_database_map.cpp:71-73 | a handle selects at most one error |
| `ErrorBridge.ErrorManager.ClearErrors` | lib/error/error_manager.cpp:39-81 | fails exactly if the arguments break the rules of the option, without effect; else clears exactly the errors of the origin that the option selects |
| `ErrorBridge.BuiltRequestsAreAccepted` | lib/everest.cpp:636-651 | no request that request_clear_error builds fails the manager's argument rules, and it selects what its caller asked for; building fails exactly on a missing implementation, uuid or type |
| `ErrorBridge.OptionRoundTrip` | lib/error/error_manager.cpp:12-35 | options survive the way through their text |
| `ErrorBridge.ClearsByText` | lib/error/error_manager.cpp:24-81 | a request with the text ClearUUID, ClearAllOfTypeOfModule or ClearAllOfModule clears exactly the stored errors of its origin with that uuid, with that type, or all, if just that argument comes with it, else nothing |
| `ErrorBridge.UnderstoodTexts` | lib/error/error_manager.cpp:24-35 | exactly these three texts are understood |
| `ErrorBridge.ClearedTopicParts` | lib/error/error_comm_bridge.cpp:75-79 | the announced topic splits into module, implementation, "error-cleared" and the parts of the type |
| `ErrorBridge.ClearedTopicDetermines` | lib/error/error_comm_bridge.cpp:75-79 | it determines the origin and the type of the error |
| `Strings.LessIff` | lib/error/error_database_map.cpp:33-35 | the order of keys: a text is below its proper extensions, else the first different character decides |
| `ErrorBridge.ErrorCommBridge.HandleError` | lib/error/error_comm_bridge.cpp:39-45 | a reported error is stored unless its uuid is active |
| `ErrorBridge.ErrorCommBridge.HandleRequestClearError` | lib/error/error_comm_bridge.cpp:47-85 | an unknown option has no effect; else what the request selects is cleared, each error announced on its own topic in key order, then one result with the request's id and success exactly if something was cleared |
| `ErrorBridge.ClearedIsStored` | lib/error/error_manager.cpp:39-81 | what is cleared was active and of the request's origin, and errors of other implementations are untouched |
| `ErrorBridge.SendsReply` | lib/error/error_comm_bridge.cpp:75-84 | the request thread left to itself sends the whole reply |
| `ErrorBridge.ErrorsAreConserved` | lib/error/error_comm_bridge.cpp:39-85 | over every run, with errors raised while replies are being sent: errors taken = active plus cleared, counted; announcements are exactly the cleared errors in order on their own topics; each handled request gets exactly one result, success iff it cleared something |
| `ErrorBridge.DistinctErrorsSplit` | lib/error/error_comm_bridge.cpp:39-85 | with distinct uuids nothing is rejected, and raised errors are the active and the cleared ones, disjointly |
| `Requirements.ResolvingOnlyAdds` | lib/config.cpp:1105-1107 | resolving only adds provides and required_interface to connections |
| `Requirements.ResolvingFills` | lib/config.cpp:1105-1107 | after resolving, every connection of every module has as required_interface the interface that its requirement declares and as provides the entry of its target for that implementation, which has the same interface |
| `Requirements.MetIff` | lib/config.cpp:1014-1104 | the requirements are met if and only if none of seven violations occurs: an undeclared connection id, an absent requirement with a minimum, too few, too many, no such module, no such implementation, another interface |
| `Requirements.ResolveFailsIff` | lib/config.cpp:669-697 | the lookup of a requirement fails exactly on an empty list where one single connection is required |
| `Requirements.ResolvedLookup` | lib/config.cpp:669-697 | after resolving, resolve_requirement never fails, at(0) included, and for every declared requirement and index in range gives the configured connection, whose target provides the required interface |
| `Config.Config.ResolveAllRequirements` | lib/config.cpp:1014-1116 | succeeds if and only if connection ids are declared requirements, absent requirements have min 0, list sizes are in bounds and targets provide the required interface; then every connection has the right provides and required_interface and nothing else changed |
| `Config.Config.ResolveRequirementOf` | lib/config.cpp:669-697 | the lookup of a requirement with its cases: unknown module, no connections, the single one, or the list; and exactly an undeclared requirement leaves an entry in the manifest, null or with a null minimum |
| `Config.Config.LoadAndValidateManifest` | lib/config.cpp:236-297 | clears the cache of the id, then fills names, manifests, interfaces and the cache of the type, or fails for a missing manifest or interface |
| `Config.Config.LoadManifests` | lib/config.cpp:506-521 | all modules but the probe are loaded in id order; it succeeds exactly if their manifests and interfaces exist and there is at most one probe |
| `Config.Config.Load` | lib/config.cpp:506-545 | loading succeeds if and only if all manifests and interfaces in use exist, there is at most one probe and its manifest can be generated, and every requirement is met; then every module is loaded, in the order of ids with the probe last, the manifests are those files and the generated one, every interface in use is defined as in its file, and all requirements are resolved |
| `Config.LoadedProbe` | lib/config.cpp:212-234 | after a finished load a module of type ProbeModule has the manifest that its wiring generates: each of its connection lists had exactly one entry and is required once with the interface of its target, and with no connection to it it provides the placeholder |
| `Config.Config.LoadProbe` | lib/config.cpp:212-234 | the probe is loaded if and only if a manifest can be generated for it whose interfaces exist, and then with that manifest |
| `Probe.GeneratedIsUnique` | lib/config.cpp:109-210 | the wiring leaves no choice: there is at most one generated manifest |
| `ModuleCache.LookupExactly` | lib/everest.cpp:952-985 | after loading, looking up a command of any module gives what the files say, in every case, if and only if no module with the type's name as id was loaded after the last module of that type; else it fails |
| `ModuleCache.LoadAllInv` | lib/config.cpp:236-297 | the cache of every name is what the last load that touched it left |
| `ModuleCache.NothingIsWiped` | lib/config.cpp:239 | if no module id is the name of another module's type, no cache is wiped |
| `ModuleCache.OtherIdWipesCache` | lib/config.cpp:239 | two modules, the second with the first one's type name as id: every command lookup of the first fails |
| `Config.WipedIff` | lib/config.cpp:506-545 | the cache of a type is wiped in the order of loading if and only if the config has a module with the type's name as id, of another type, that comes after all modules of the type, by id but the probe last |
| `Config.CallsResolve` | lib/everest.cpp:170-177 | after a finished load, every call through a configured connection, at every index, to every command of the required interface finds that interface's definition if and only if that condition on the config does not hold for the target's type; else it fails |
| `Config.CallsAlwaysResolve` | lib/everest.cpp:170-177 | if no module id is the name of another module's type every such call finds its definition |
| `Config.Config.ProvidesForProbe` | lib/config.cpp:109-155 | rejects exactly undeclared requirements and two connections that want one implementation with different interfaces; else provides exactly what is wanted, or the placeholder |
| `Config.Config.RequirementsForProbe` | lib/config.cpp:157-210 | succeeds exactly if every own connection has a target and those of one requirement agree on the interface |
| `Probe.IncomingConnectionsPass` | lib/config.cpp:1079-1103 | every connection into the generated probe passes the later provides and interface check |
| `Probe.OwnConnectionsPassIff` | lib/config.cpp:1042-1073 | the probe's generated requirements pass the later check if and only if each of its own lists has exactly one entry |
| `ReadyBarrier.Manager.StartModules` | src/manager.cpp:260-388 | the loop registers exactly the modules that are not ignored, in the order of ids, as a run of AddModule steps, and leaves exactly those that are not standalone to be spawned after it |
| `ReadyBarrier.Manager.HandleModuleReady` | src/manager.cpp:289-332 | sets the module's flag and asks for the global ready exactly if all flags are set |
| `ReadyBarrier.Everest.HandleReadySignal` | lib/everest.cpp:757-789 | anything but true and every ready after the first are ignored |
| `ReadyBarrier.BarrierHolds` | lib/everest.cpp:757-789 | over every run, once registration is complete: no ready handler runs before every module that is not ignored has signalled, each runs at most once, and with the loader's order it is set when the global ready arrives |
| `ReadyBarrier.EveryWaitedModuleRuns` | lib/runtime.cpp:490-497 | after the global ready, a module that has taken its messages has run its handler |
| `ReadyBarrier.ExactlyOneGlobalReady` | src/manager.cpp:289-332 | if each module signals true once, at most one global ready is published, and exactly one when all signals are handled |
| `ReadyBarrier.Everest.RegisterOnReadyHandler` | lib/everest.cpp:121-125 | sets the ready handler and nothing else |
| `ReadyBarrier.PublishesTooEarlyIff` | src/manager.cpp:289-332 | handling a signal publishes the global ready too early if and only if it sets the last flag of modules_ready so far and some module that is waited for is neither in it nor has signalled |
| `ReadyBarrier.BarrierHoldsIff` | src/manager.cpp:273-332 | over every run, registration finished or not, the global ready never comes too early if and only if no signal is handled in that situation; then no ready handler runs early |
| `ReadyBarrier.EarlySignalBreaksBarrier` | src/manager.cpp:273-353 | if the module that comes first in the order of ids is standalone and another one is waited for, its signal, handled while modules_ready is still being filled, makes its ready handler run too early |
| `ReadyBarrier.CanBreakIff` | src/manager.cpp:260-388 | signals handled during registration can break the barrier if and only if the first module in the order of ids is standalone and another one is waited for |
| `TypeRefs.RoundTripIff` | everestrs/everestrs-build/src/codegen.rs:173-206 | printing a type reference and reading it again is the identity if and only if its path is not empty, its segments have no slash, the text has no leading slash, and "#/" is in neither part |
| `TypeRefs.ReadIff` | everestrs/everestrs-build/src/codegen.rs:173-187 | a text is read as a reference exactly if behind its leading slashes it is a path of segments, "#/" and a name, with "#/" in neither |
| `TypeRefs.ReadIsWellFormed` | everestrs/everestrs-build/src/codegen.rs:173-187 | every reference that is read survives printing and reading |
| `Codegen.YamlRepo.GetDataTypes` | everestrs/everestrs-build/src/codegen.rs:75-111 | the cache never changes what is found: the one file of that name, or a failure if there is none or several |
| `SchemaTypes.FindExactly` | everestrs/everestrs-build/src/codegen.rs:83-130 | a file is found exactly if it is the only one of its name under all roots |
| `SchemaTypes.ReferenceLeads` | everestrs/everestrs-build/src/codegen.rs:367-385 | a reference of a file and a name around "#/" leads to the type of that name in that file |
| `Codegen.TypeContextFromRef` | everestrs/everestrs-build/src/codegen.rs:367-424 | the definition of a type and the references in it, in every case of its schema, or a failure, as the next row has it |
| `Codegen.DefinitionExactly` | everestrs/everestrs-build/src/codegen.rs:207-424 | a type is defined exactly if it is an object with sound references at every depth of its properties, or an enum; each property has its Rust type, wrapped in Option exactly if it is not required; and it refers to exactly what is read from the texts that occur in its properties, inside array items at any depth |
| `Codegen.NameIsNested` | everestrs/everestrs-build/src/codegen.rs:235-241 | arrays of arrays are named as vectors of vectors, at any depth |
| `Codegen.BaseName` | everestrs/everestrs-build/src/codegen.rs:207-243 | the Rust name of every type that is no array with items |
| `Codegen.PathsAreDistinct` | everestrs/everestrs-build/src/codegen.rs:185-194 | different types have different paths in Rust |
| `Codegen.EmitRound` | everestrs/everestrs-build/src/codegen.rs:585-600 | one round puts each type that is not done into the tree once and collects exactly their references |
| `Codegen.Emit` | everestrs/everestrs-build/src/codegen.rs:581-601 | the work list ends on every input, succeeds if and only if every type that is mentioned from the initial ones on is defined, and then done is the least set with the initial references closed under mentions, told from the texts in the schemas; each type is in the tree exactly once with its definition |
| `Codegen.InsertAt` | everestrs/everestrs-build/src/codegen.rs:590-597 | inserting at a module path adds an object to the objects there, an enum to the enums, and changes no other module |
| `PendingCalls.Rpc.Draw` | src/controller/rpc.cpp:183-187 | the id is the first one drawn that is not pending, and only it is added |
| `PendingCalls.Rpc.HandleReply` | src/controller/rpc.cpp:117-136 | a reply sets an unset pending promise and otherwise changes nothing |
| `PendingCalls.TableIsPendingCalls` | src/controller/rpc.cpp:183-201 | in every run the pending map has exactly the ids of the calls not yet erased, each of one call |
| `PendingCalls.RepliesReachTheirCalls` | src/controller/rpc.cpp:117-206 | if no id is drawn again while an old reply is outstanding, every returned value is the reply to that very call, promises are set once, and late replies are ignored |
| `PendingCalls.RedrawnIdGetsOldReply` | src/controller/rpc.cpp:117-206 | from every state, an id drawn while the reply to an earlier call with it is on its way brings that reply to the new call |
| `PendingCalls.CareIsExact` | src/controller/rpc.cpp:117-206 | in every state drawing an id can lead to a reply that reaches the wrong call if and only if a reply to an earlier call with that id is still to come |

## Left out

- Sockets, the MQTT-C library, polling, event descriptors and the connect loop: the broker is a set of subscribed filters and queues of messages.
- The race in `publish` between testing the connected flag and taking the lock: publishing and connecting are taken as one step each.
- Command calls and offers (`call_cmd`, `provide_cmd`) and the bridge's interleavings are modelled on values, as steps of state machines, because they block while other threads run; the fields of `Everest` that they update are in those states.
- A module offers its commands from one thread: the test on `registered_cmds` and the registration are one step.
- Late results after a `call_cmd` time-out touch a promise that is gone; a time-out is an outcome that keeps the token registered.
- In `CallSystem` all clients are connected throughout; connecting and disconnecting are covered for one client in `MqttClient`.
- In `CallSystem` what is foreign to calls comes in any order and number, but never on a command topic; how it got to the broker is not modelled.
- A signal that a standalone module sends before its topic is subscribed may be lost; the barrier keeps it for the manager, so it has those runs too, as runs in which it is not handled.
- The lookup of a module's binary or script in `start_modules`, which throws if there is none.
- Stopping a queue or an entry: the protocol runs have no stop steps, the single objects do.
- JSON text: a message carries its parsed form, and publishing a value and parsing it gives the value back.
- JSON schema validation, default values, YAML loading and path handling: parsed, validated and patched records are the input, and config values are not modelled.
- The fill of a JSON array by an index out of range in `call_cmd`: the lookups are stated for indices in range.
- Handler calls that end in an exception: the entry's thread stops, and the process would end; the runs of the error bridge go on after a rejected raise.
- Errors that do not parse and requests without an id or origin: their handlers throw; the text of timestamps is opaque.
- The body of `handlePacket` is empty in the code: a packet is appended to a log.
- Ready messages that are not booleans: the manager's handler throws.
- Restarts of modules and `shutdown_modules`: each module process starts once in the ready barrier.
- Interface, command and config contexts and the Jinja templates of the code generator: the work list starts from given references.
- Which of several failures the code generator reports first: a failure is a failure.
- The notification path of `RPC::run`, JSON-RPC formatting and the web server.
- Random ids and uuids: distinct values, with the hypotheses stated.
- Bindings for Node, Python and Rust, logging, process spawning, capabilities and the status fifo.
