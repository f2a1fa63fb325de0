# A verified model of the ns-3 / Sim Mobility client

sm4ns3 connects the ns-3 network simulator to Sim Mobility. It exchanges
bundles of JSON messages with a server over TCP, keeps a registry of agents,
handles one round of messages per simulated tick, and can replay a recorded
trace instead of a live server. This project models that client in Dafny and
proves what it does on every input, every run and every interleaving.

The model follows the source file by file. Objects the source updates in place
are classes, each proved against a function on values (`View()` ties the two);
the laws are lemmas about those functions.

| file | models |
|---|---|
| `Octets.dfy` | byte strings, cutting and joining, results |
| `JsonText.dfy`, `JsonWriter.dfy`, `JsonReader.dfy` | the single-line JSON writer, an RFC 8259 reader, and their inverse law |
| `JsonDoubles.dfy`, `JsonPrefixes.dfy`, `JsonLaws.dfy` | what is not read back: doubles that are not finite, and texts cut short; the escapes one by one |
| `BundleVersion.dfy`, `Bits.dfy` | the eight-byte header, v1 and v0, and its shifts, masks and ors |
| `Serializer.dfy`, `Conglomerate.dfy`, `Deserializer.dfy` | building, decoding and re-using v1 bundles |
| `OldFormat.dfy`, `PrintedBundles.dfy` | v0 bundles, which bundles of printed messages survive decoding, and how the formats agree |
| `Session.dfy` | synchronous and asynchronous framing of a byte stream |
| `Messages.dfy`, `AgentRegistry.dfy`, `AgentHistory.dfy`, `MessageLaws.dfy` | messages, handlers, the life of one agent id, and what each kind of message does |
| `Broker.dfy`, `BrokerRuns.dfy`, `LockStep.dfy`, `Closing.dfy`, `EndToEnd.dfy` | the two-thread tick protocol, over all runs, against a peer that waits, to the end of the connection, and down to the wire in both directions |
| `Trace.dfy`, `TraceFormat.dfy`, `TraceHistory.dfy` | the trace file: format, parser, contents |
| `ReplayClock.dfy`, `ReplayContent.dfy`, `Replay.dfy`, `ReplayWorld.dfy`, `ReplayRun.dfy` | replay: the clock, one tick through the codec, the whole run, its agents, and the run of a given trace |
| `Ordering.dfy`, `Roles.dfy`, `Handshake.dfy` | ordered maps, Wi-Fi Direct roles, registration |

Results a reader of the code may not expect:

- The outgoing bundle is built on one object whose bytes are never cleared, so
  from the second non-empty round on it carries old messages under new lengths,
  and its header counts messages modulo 256. A round reaches the peer as its own
  messages exactly when it has fewer than 256 of them, each is shorter than 2^24
  bytes, and its bytes are a prefix of everything ever forwarded
  (`BrokerRuns.OutgoingDecodes`); 256 messages arrive as none
  (`BrokerRuns.FullRoundIsLost`), and every second message as long as the first
  repeats the first (`Deserializer.ReuseRepeats`).
- Strings are printed as C strings, so a NUL ends them
  (`JsonReader.PrintThenParse`). The identity token that registration answers
  with is therefore an echo exactly when it holds no NUL
  (`Handshake.EchoDecodes`). Between short ids the two bundle formats agree over the wire
  exactly when the sender's id holds no NUL, there are fewer than 256 messages
  and each is short enough (`PrintedBundles.FormatsAgreeOverWire`).
- An infinite coordinate, or a message of 2^24 bytes or more, makes its whole
  bundle undecodable (`PrintedBundles.PrintedRoundTrip`).
- Looking up an unknown agent leaves a null entry that blocks every later
  addition of that id, and removing the id then brings the client down
  (`AgentHistory.LookUpBlocks`, `AgentHistory.RaisesExactlyOnNull`).
- A replay reaches its stop exactly when the trace names at least as many agents
  as there are nodes, has at least ten ticks, every kept multicast line lists a
  recipient, every coordinate in use is finite and no message is too long
  (`ReplayRun.TraceReplays`). With too few agents making the nodes reads past the
  end of their set. With too few ticks the replay ends in a division by zero, or,
  without any, in a read past the end of the trace, unless its first tick is at
  time zero and raises before that (`ReplayClock.ShortBreaks`). Otherwise it ends in an exception at
  the first tick that is not sound (`Replay.ReplayFails`).
- Whatever the trace asks for, a replay that stops has sent packets only if an
  agent is called `987654321`, and then one per live recipient (`ReplayRun.ReplayPackets`).
- The comment on `pushToQueue` and the name of its parameter suggest that a
  replayed multicast keeps its sender; the code writes a fixed id, and so does the model.

## Model

| member | source | states |
|---|---|---|
| JsonReader.PrintThenParse | model/message/serialize.cc:592-657 | for every printable tree and every following text that does not extend a number, reading what was printed returns the tree cut at NUL and exactly the following text; it returns the tree itself if and only if the tree holds no NUL |
| JsonReader.PrintInjective | model/message/serialize.cc:603-657 | two trees printed alike differ at most behind a NUL |
| JsonReader.ParsePrint | model/message/serialize.cc:603-657 | the induction behind it, for arrays, objects, strings, integers and doubles at any depth |
| JsonReader.EscapeRoundTrip | model/message/serialize.cc:619-621 | every escaped string is read back byte for byte up to its closing quotation mark |
| JsonReader.UnicodeEscape | model/message/serialize.cc:619-621 | every `\u` escape of a 16-bit code unit is read as the UTF-8 bytes that stand for it, from which it can be recovered |
| JsonReader.DecimalRoundTrip | model/message/serialize.cc:610-615 | every integer's decimal text is an integer token of that value |
| JsonText.ClipFixed | model/message/serialize.cc:620 | cutting a tree's C strings changes nothing exactly when the tree holds no NUL |
| JsonText.CStringPrefix | model/message/serialize.cc:620 | a text is cut at its first NUL and nowhere else |
| JsonDoubles.PrintedIsReadIffFinite | model/message/serialize.cc:616-618 | whatever doubles a tree holds, its text is read back exactly when all of them are finite |
| JsonPrefixes.CutValue | model/message/serialize.cc:603-657 | a printed array or object cut short at any byte is not read at all; any other value cut short is at most a number that ends the text |
| JsonLaws.EscapeForms | model/message/serialize.cc:619-621 | which bytes are written as they are, which behind a backslash, and which as the escape of their number |
| JsonLaws.ShortEscapes | model/message/serialize.cc:619-621 | the short escapes read are exactly those written, and the slash |
| JsonLaws.HexCases | model/message/serialize.cc:619-621 | escapes by number are written with upper-case digits and read in both cases |
| JsonLaws.BadEscape | model/message/serialize.cc:316-325 | every other letter behind a backslash is refused |
| JsonLaws.CommasNeeded | model/message/serialize.cc:316-325 | elements need commas between them and none behind the last |
| JsonLaws.MemberParts | model/message/serialize.cc:316-325 | a member needs a quoted name and a colon |
| JsonLaws.SpaceBefore | model/message/serialize.cc:316-325 | spaces, tabs and line breaks are skipped in front of everything |
| JsonLaws.PrintedPlain | model/message/serialize.cc:603-657 | no printed text holds a control byte, so none holds a line break or a NUL |
| JsonWriter.SingleLineWriter.Write | model/message/serialize.cc:592-600 | the buffer is emptied first, the result is the printed tree with the optional newline, and it reads back as the tree |
| JsonWriter.SingleLineWriter.WriteValue | model/message/serialize.cc:603-657 | appends the value's text to the buffer and nothing else |
| JsonWriter.SingleLineWriter.WriteItems | model/message/serialize.cc:627-634 | the index loop appends the comma-separated items |
| JsonWriter.SingleLineWriter.WriteMembers | model/message/serialize.cc:640-652 | the iterator loop appends the comma-separated members |
| BundleVersion.V1ReadMake | model/bundle_version.cc:31-62 | for every header, reading what was made returns the three small fields modulo 256 and all 32 bits of the length |
| BundleVersion.V1MakeRead | model/bundle_version.cc:31-62 | the other direction: every eight bytes of version 1 are read and made again unchanged, and no others are read |
| BundleVersion.MakeV1Counts | model/bundle_version.cc:35-38 | the version is one, and the low bytes of the sender's, destination's and message counts follow in this order |
| BundleVersion.MakeV1Bits | model/bundle_version.cc:40-43 | the length bytes made are those that the source's shifts and masks take out of the length |
| BundleVersion.ReadV1Bits | model/bundle_version.cc:59 | the length read is the one that the source's shifts and ors put together |
| BundleVersion.V0ReadMake | model/bundle_version.cc:67-86 | for every 32-bit length the padded hexadecimal form has exactly eight characters and reads back unchanged |
| BundleVersion.V0Shape | model/bundle_version.cc:67-76 | the text is spaces and then lower-case digits without leading zeros |
| BundleVersion.V0Garbage | model/bundle_version.cc:80-86 | a header that holds no number announces nothing |
| Serializer.OngoingSerialization.SerializeBegin | model/message/serialize.cc:134-139 | sets the ids and clears the lengths, and keeps the bytes collected before |
| Serializer.OngoingSerialization.AddGeneric | model/message/serialize.cc:560-572 | appends the message and its length |
| Serializer.OngoingSerialization.SerializeEnd | model/message/serialize.cc:147-183 | filling the buffer byte by byte yields both ids, the three-byte length table and every collected byte, and a header with their counts |
| Serializer.OngoingSerialization.WriteLengths | model/message/serialize.cc:163-168 | the running offset ends exactly at the end of the buffer |
| Serializer.ReusedBody | model/message/serialize.cc:129-183 | after any number of rounds on one object, the next body is a header for that round's lengths followed by every byte added since construction |
| Conglomerate.MessageConglomerate.AddMessageV1 | model/message/serialize.cc:31-70 | stores one range, tree and type or raises, and on every exit keeps the three vectors parallel and every range inside the text |
| Conglomerate.AddMessageLayout | model/message/serialize.cc:31-70 | that invariant on values, and that the text once set is never replaced |
| Conglomerate.AddMessageRefuses | model/message/serialize.cc:34-48 | what is raised, and that nothing is stored, when the text is missing, set twice, or too short for the range |
| Conglomerate.FindsLast | model/message/serialize.cc:66-80 | of several members with one name the last counts |
| Conglomerate.AddRangesCut | model/message/serialize.cc:282-285 | adding a table of lengths succeeds exactly when every piece it cuts is an accepted message, and then stores their trees and types in order |
| Deserializer.CopyId | model/message/serialize.cc:261-272 | the byte loop copies exactly the id's bytes, or reports a read past the end |
| Deserializer.CopyLengths | model/message/serialize.cc:275-279 | the table loop reads all three-byte lengths, or reports a read past the end |
| Deserializer.DeserializeV1 | model/message/serialize.cc:255-288 | the decoder equals its specification on every header and text, including every failure, and keeps the layout |
| Deserializer.DecodeLayout | model/message/serialize.cc:255-288 | from an empty object every decode, also a raising one, leaves parallel vectors and ranges inside the text; a successful one leaves as many ranges as announced, starting right behind the varying header, contiguous and disjoint |
| Serializer.Length3Bits | model/message/serialize.cc:164-166 | the three length bytes are those that the source's shifts and masks take out of the length |
| Deserializer.ReadLengthBits | model/message/serialize.cc:276 | the length read is the one that the source's shifts and ors put together from three bytes |
| Deserializer.TableRead | model/message/serialize.cc:163-168 | reading the length table back yields each length modulo 2^24 |
| Deserializer.DecodeEncoded | model/message/serialize.cc:147-183 | decoding any serialized object succeeds exactly when the pieces its table cuts are accepted messages, and then holds the sender, those slices, their trees and their types |
| Deserializer.FreshRoundTrip | model/message/serialize.cc:141-288 | a bundle of any messages built on a fresh object decodes to the pieces that the low three bytes of their lengths cut, exactly when all of those are JSON objects carrying `msg_type`; they are the messages themselves if and only if each is shorter than 2^24 bytes |
| Deserializer.ReusedDecode | model/message/serialize.cc:129-183 | on a reused object any round decodes to the pieces that the low three bytes of its lengths cut from everything ever added, and to its own messages if and only if each is shorter than 2^24 bytes and its bytes are a prefix of all bytes |
| Deserializer.ReusedOnWire | model/bundle_version.cc:36-38 | under the header the peer reads, a round arrives as its number of messages modulo 256, cut from all that follows the lengths read, and as its own if and only if it has fewer than 256 as well |
| Deserializer.ReuseRepeats | model/message/serialize.cc:134-139 | for any two printed messages of the same length, sent in two rounds on one object, the second bundle decodes to the first message |
| Deserializer.ReuseHappens | model/message/serialize.cc:134-139 | there are two different messages like that |
| Deserializer.PrintedAccepted | model/message/serialize.cc:59-66 | a printed object is an accepted message exactly when its `msg_type` is usable, and then decodes to its own tree |
| Deserializer.OneRefused | model/message/serialize.cc:57-71 | what decoding a bundle of one message comes to, by its first byte, its text and its type |
| Deserializer.NarrowKeeps | model/bundle_version.cc:36-38 | the header carries ids and count unharmed exactly when all are below 256 |
| OldFormat.OldRoundTrip | model/message/serialize.cc:186-253 | for every list of proper messages the v0 array text reads as an array, and the packet decodes to the sender and the messages, cut at NUL |
| OldFormat.OldAddresses | model/message/serialize.cc:186-216 | the packet names its sender and its destination, cut at NUL, each under its own key |
| OldFormat.OldEmpty | model/message/serialize.cc:225-253 | a text that is no JSON is no failure, and a packet without messages brings none |
| PrintedBundles.PrintedRoundTrip | model/message/serialize.cc:141-288 | for every list of printed objects, a bundle decodes exactly when all doubles are finite, all types usable and all texts below 2^24 bytes, and then to the sender and the objects, cut at NUL |
| PrintedBundles.OneRoundTrip | model/message/serialize.cc:141-288 | the same for one object, with its single range |
| PrintedBundles.FormatsAgree | model/message/serialize.cc:141-288 | serialized and deserialized with the header in memory, the old format takes every list of proper messages and the new one exactly those whose texts fit the length table; then both deliver the same messages and types, and the same sender if and only if its id holds no NUL |
| PrintedBundles.FormatsAgreeOverWire | model/bundle_version.cc:31-62 | with the header the peer reads and ids below 256 bytes, the formats agree if and only if, further, there are fewer than 256 messages |
| Session.Connection.Receive | model/network/smb_session.h:127-182 | the callbacks run for one arriving chunk until no read is due |
| Session.Connection.HandleReadHeader | model/network/smb_session.h:139-160 | a full header arms the data read, halts the reader when it announces no data, or throws on a wrong version |
| Session.Connection.HandleReadData | model/network/smb_session.h:163-182 | full data is handed on with its header and the header read is armed again |
| Session.Connection.ReadEof | model/network/smb_connection.cc:53-68 | the end of the stream closes the socket and hands on one empty text |
| Session.SyncSession.Write | model/network/smb_session.cc:33-46 | appends header and body to the stream |
| Session.SyncSession.ReadBundle | model/network/smb_session.cc:49-79 | reads one frame, fails on a short stream or a header without data, and throws on a wrong version |
| Session.AnyChunking | model/network/smb_session.h:127-182 | the reader's final state does not depend on how the bytes were cut into chunks |
| Session.AsyncIsSync | model/network/smb_session.cc:49-79 | for every byte stream in every chunking the asynchronous reader hands on exactly the frames that repeated synchronous reads return |
| Session.EofIsLast | model/network/smb_connection.cc:53-68 | at the end of the stream exactly one empty text follows the complete frames, and nothing follows it |
| Session.StreamRoundTrip | model/network/smb_session.h:127-182 | any list of bundles written one after another arrives, in any chunking, as the same senders and messages in order, with nothing left over |
| Session.AnyStream | model/network/smb_session.cc:33-46 | whatever bundles between short ids are written, each arrives in order in any chunking, and is read as `Deserializer.ReusedOnWire` says, so as its own messages if and only if it has fewer than 256 and each is shorter than 2^24 bytes |
| Messages.NewAgentsBack | model/message/serialize.cc:329-358 | an agents message gives back its add and remove lists, and missing lists are empty |
| MessageLaws.AgentsHandled | model/message/handlers.cc:49-63 | in every world and for every object with either list, both or none: a `new_agents` message raises exactly when it removes a null entry; otherwise removed ids are absent, added ones that were absent are new agents, all others are as before, and nothing is sent |
| MessageLaws.AgentsNeedLists | model/message/serialize.cc:337-351 | a list that is no array raises |
| MessageLaws.StringConversions | model/message/serialize.cc:341 | which values convert to a string, and to which |
| MessageLaws.IntegerCoordinate | model/message/serialize.cc:381-382 | an integer coordinate is the double of its value |
| MessageLaws.NumbersAsFlags | model/message/serialize.cc:405 | a number counts as true exactly when it is not zero, as an integer and as a double |
| MessageLaws.OtherCoordinates | model/message/serialize.cc:381-382 | nothing counts as zero and a flag as zero or one; text and containers are no coordinates |
| MessageLaws.OtherFlags | model/message/serialize.cc:405 | nothing and what is empty counts as false |
| MessageLaws.LocationsHandled | model/message/handlers.cc:66-88 | in every world: each live agent that an `all_locations` message names moves to its last entry, whole or fractional, and nothing else changes |
| MessageLaws.LocationsNeedFields | model/message/serialize.cc:369 | a location message without its list raises |
| MessageLaws.PlaceNeedsFields | model/message/serialize.cc:375-377 | and so does one with an entry that misses a field |
| MessageLaws.SendParses | model/message/serialize.cc:392-422 | every object with the six fields parses to exactly their values, unless it is a broadcast that names recipients |
| MessageLaws.SendHandled | model/message/handlers.cc:92-139 | in every world: one packet from the message's own sender to each live recipient occurrence in order if the sender is live, none otherwise; ids looked up in vain get a null entry |
| MessageLaws.SendNeedsFields | model/message/serialize.cc:399-401 | a send raises when any of its six fields is missing or its recipients are no list |
| MessageLaws.TickedHandled | model/message/handlers.cc:21 | `ticked_simmob` changes no world and never raises, whatever it holds |
| MessageLaws.OthersRaise | model/message/handlers.cc:24-46 | the two old types raise as obsolete, and every other type as unknown |
| MessageLaws.BinaryRaises | model/message/serialize.cc:354-419 | a message that is not JSON raises in every handler that looks at it |
| AgentRegistry.Registry.GetAgent | model/smb_agent.cc:131-137 | returns the entry and leaves a null one under an absent id |
| AgentRegistry.Registry.HandleAgentsInfo | model/message/handlers.cc:49-63 | all additions, then all removals; never overwrites; raises on removing a null entry |
| AgentRegistry.Registry.HandleAllLocations | model/message/handlers.cc:66-88 | moves exactly the live agents named, in whatever order the map is walked |
| AgentRegistry.Registry.HandleOpaqueSend | model/message/handlers.cc:92-139 | sends to each live recipient if the sender is live, and leaves null entries for the absent ones |
| AgentRegistry.Registry.HandleMessage | model/message/handlers.cc:38-46 | finds the handler by type and does what the laws of `MessageLaws` say of it |
| AgentHistory.RegistryRefinesHistory | model/message/handlers.cc:49-139 | after every run each id is what its own events since its last removal decide, read off the commands alone: live at its latest position if an addition came first, blocked if a look-up came first, absent otherwise |
| AgentHistory.FollowDecides | model/smb_agent.cc:223-235 | following events one at a time agrees with that verdict on whole histories |
| AgentHistory.RaisesExactlyOnNull | model/smb_agent.cc:228-235 | a message raises in the registry if and only if it removes an id whose entry is null |
| AgentHistory.LookUpBlocks | model/smb_agent.cc:131-137 | a run in which a look-up blocks an addition and makes the removal raise |
| AgentHistory.CommandSends | model/message/handlers.cc:117-138 | a send changes no live agent and sends one packet per live recipient occurrence, in order; no other message sends |
| AgentHistory.PacketConservation | model/smb_agent.cc:270-284 | over every run the packet counter grows by the live recipient occurrences of the sends whose sender was live |
| Broker.ThreadSafeQueue.Push | model/thread_safe_queue.h:47-53 | the item joins at the back |
| Broker.ThreadSafeQueue.Pop | model/thread_safe_queue.h:55-66 | the item at the front leaves, if there is one |
| Broker.ThreadSafeQueue.Size | model/thread_safe_queue.h:69-75 | the number of queued items |
| Broker.ThreadSafeQueue.Clear | model/thread_safe_queue.h:77-83 | nothing is queued |
| Broker.MessageBroker.ParsePacket | model/smb_broker.cc:219-247 | an empty input queues nothing, a decoded bundle is queued, the result says whether it holds `ticked_simmob` |
| Broker.MessageBroker.OnMessageReceived | model/smb_broker.cc:43-56 | the network thread's atomic step: the flag is cleared whatever the packet says, unless decoding raises |
| Broker.MessageBroker.ProcessIncoming | model/smb_broker.cc:180-195 | empties the queue in order, handling every message of every bundle |
| Broker.MessageBroker.SendOutgoing | model/smb_broker.cc:198-213 | sends what was collected and begins again on the same object |
| Broker.MessageBroker.Pause | model/smb_broker.cc:128-176 | the simulation thread's atomic step: waits, leaves on a closed connection, or runs one complete round |
| Broker.MessageBroker.CloseSocket | model/network/smb_connection.cc:57-61 | the network thread's other step: the connection is closed and nothing else changes |
| Broker.MessageBroker.ForwardMessage | model/smb_agent.cc:216-217 | a received packet's message joins what is collected for the server |
| BrokerRuns.EveryRun | model/smb_broker.cc:43-176 | every interleaving without an exception keeps: queued bundles mean a cleared flag, handled then queued bundles are the decoded ones, rounds do not outnumber deliveries, every round sent its bundle and then its acknowledgement |
| BrokerRuns.WakeUpDelivers | model/smb_broker.cc:135-170 | no lost wake-up: with bundles queued on an open connection the next turn handles all of them and empties the queue |
| BrokerRuns.CrashHasCause | model/smb_broker.cc:43-56 | a run is brought down only by a delivery that does not decode or by handling, in order, the bundles decoded before |
| BrokerRuns.UndecodableCrashes | model/smb_broker.cc:219-247 | a delivery that does not decode always brings the run down |
| Closing.NothingAfterClose | model/smb_broker.cc:142-145 | over every run: once the connection is closed nothing more is sent, counted or handled |
| Closing.LeavesAfterClose | model/smb_broker.cc:128-145 | after the close, the first turn of the simulation thread behind the next delivery makes it leave for good |
| Closing.LeavesOnlyClosed | model/smb_broker.cc:142-145 | it leaves in no other case |
| BrokerRuns.FifoOver | model/smb_broker.cc:180-247 | exactly-once delivery in arrival order, and the world is what handling in that order makes it |
| BrokerRuns.TickAccounting | model/smb_broker.cc:153-167 | the tick equals the rounds and the acknowledgements sent, each after its outgoing bundle, and never exceeds the deliveries |
| LockStep.LockStepTicks | model/smb_broker.cc:128-176 | in every run against a peer that sends only after reading an acknowledgement for every bundle it sent, the counts of acknowledgements read, rounds, deliveries and bundles sent never differ by more than one, and at most one bundle is under way or queued |
| LockStep.QuietBetweenTicks | model/smb_broker.cc:128-176 | whenever that peer may send again, the client has handled everything it was sent, with one round and one acknowledgement each |
| LockStep.NeverStuck | model/smb_broker.cc:128-176 | the two never wait for each other |
| BrokerRuns.OutgoingDecodes | model/smb_broker.cc:198-213 | under the header the peer reads, what the outgoing bundle of each round of each run decodes to, and exactly when that is the round's own messages |
| BrokerRuns.FullRoundIsLost | model/bundle_version.cc:38 | a round of 256 messages, or a multiple, decodes to none |
| EndToEnd.PeerReads | model/smb_broker.cc:198-213 | over every run, in any chunking, the peer reads round by round exactly the outgoing bundle and then its acknowledgement |
| BrokerRuns.AcknowledgementDecodes | model/message/serialize.cc:445-459 | under the header the peer reads, the acknowledgement decodes to one message of type `ticked_client` from the client |
| EndToEnd.SingleSendable | model/message/serialize.cc:546-557 | any printed object with a usable `msg_type` and a text below 2^24 bytes makes a bundle the stream law covers |
| EndToEnd.WrittenIsHandled | model/network/smb_connection.cc:53-68 | bundles the peer writes, in any chunking and any interleaving of the threads, whether or not the stream then ends, are handled or queued once each, in order, with their senders and messages |
| Trace.TraceParser.ParseLine | model/testing/rr_baseline.cc:236-318 | one line's effect or failure, including signed times, resets by tick lines and the agent cap |
| Trace.TraceParser.Parse | model/testing/rr_baseline.cc:207-234 | earlier ticks are dropped, then a file is its lines in order, up to the first that fails |
| Trace.ParseIsRun | model/testing/rr_baseline.cc:218-224 | a file that parses gives the state its lexed lines build up |
| TraceFormat.LexTickLine | model/testing/rr_baseline.cc:243-247 | every time written on a line of its own is read as that tick |
| TraceFormat.LexDataLine | model/testing/rr_baseline.cc:239-262 | a written data line is read back with its kind, time, agent and fields |
| TraceFormat.CastBack | model/testing/rr_baseline.cc:295-310 | a multicast's recipients and data are read back as written |
| TraceFormat.AddLineBack | model/testing/rr_baseline.cc:263-275 | for every written line of additions: the cap, the known agents and the tick after it |
| TraceFormat.UpdateLineBack | model/testing/rr_baseline.cc:276-290 | for every written line of updates: its first number is the x and its second the y of its agent at its time; it raises exactly when one is no number, and is skipped when switched off or for an unknown agent |
| TraceFormat.CastLineBack | model/testing/rr_baseline.cc:292-314 | for every written line of multicasts: its agent is the sender, its named recipients and data are added in order; it is skipped when switched off or for an unknown agent |
| TraceFormat.SignedTime | model/testing/rr_baseline.cc:244-255 | a minus sign wraps a time around 2^32 and a plus sign changes nothing |
| TraceFormat.BadTime | model/testing/rr_baseline.cc:244-255 | a time that is empty, too large or not made of digits raises |
| TraceFormat.TimeWithoutUnit | model/testing/rr_baseline.cc:254 | without its unit a time reaches to the end of its field |
| TraceFormat.FieldWithoutColon | model/testing/rr_baseline.cc:258-299 | without a colon an agent is its whole field and a value all but its last byte |
| TraceFormat.OtherWord | model/testing/rr_baseline.cc:262 | a line of any other word is taken for a multicast |
| TraceFormat.ShortLines | model/testing/rr_baseline.cc:283-310 | an update or multicast of a known agent with fewer than five fields is read past its end |
| TraceFormat.TwoFields | model/testing/rr_baseline.cc:258 | a line of two fields has no agent to read |
| TraceFormat.SplitJoin | model/testing/rr_baseline.cc:240 | splitting undoes joining for parts without the separator |
| TraceHistory.AgentCap | model/testing/rr_baseline.cc:263-275 | after any lines both agent sets are exactly the first `maxNOFAgents` distinct ids of the add lines |
| TraceHistory.FirstDistinctSize | model/testing/rr_baseline.cc:264-266 | the cap is kept, and used up when there are enough ids |
| TraceHistory.StoredAgents | model/testing/rr_baseline.cc:263-314 | every stored addition, update and multicast is of an agent inside the cap |
| TraceHistory.TickContents | model/testing/rr_baseline.cc:236-318 | after any lines a tick exists exactly when it had a tick line or a kept line, and holds exactly its kept lines since its latest tick line: additions and multicasts in order, and each agent's latest update |
| TraceHistory.OrderlyKeepsAll | model/testing/rr_baseline.cc:242-247 | when tick lines precede their data and are not repeated, no kept line is lost |
| ReplayRun.TimesOfTrace | model/testing/rr_baseline.h:64 | the replayed times are ascending, one per tick |
| ReplayClock.ReplayStops | model/testing/rr_baseline.cc:322-363 | whatever pushing and handling do, the replay step reaches its stop if and only if there are at least ten ticks and none raises; then there is one run per tick in order, at time t_k - t_0, and only the last stops |
| ReplayClock.FailsAtFirst | model/testing/rr_baseline.cc:322-363 | otherwise a long trace ends with the exception of its first tick that raises, after every tick before it has run on time |
| ReplayClock.ShortBreaks | model/testing/rr_baseline.cc:322-343 | how a trace of fewer than ten ticks ends, within two runs: by a read past the end, a division by zero, or the exception of a first tick at time zero |
| Replay.TickHandled | model/testing/rr_baseline.cc:330-347 | a tick is pushed exactly when its coordinates are finite and its messages short; it is then handled exactly when every multicast has a recipient, and that is applying its commands |
| Replay.ReplayOutcome | model/testing/rr_baseline.cc:322-363 | for every list of ticks and every world the replay stops if and only if there are at least ten ticks and all are healthy; then the runs are on time and the world is what the ticks' commands make of it |
| Replay.ReplayFails | model/testing/rr_baseline.cc:322-363 | otherwise a long replay fails at the first tick that is not healthy, having run exactly those before |
| Replay.Replayer.PushToQueue | model/testing/rr_baseline.cc:62-89 | the queue gains the decoded form of the tick's messages, or decoding raises and it gains nothing |
| Replay.Replayer.Pause | model/testing/rr_baseline.cc:322-363 | one run: the divisions, the push, the interval, the handling, the next schedule or the stop |
| Replay.Replayer.Start | model/testing/rr_baseline.cc:193-204 | the self-rescheduling runs end, in a stop exactly for ten or more ticks that are all healthy, and then with the expected runs and world |
| ReplayWorld.CreateNodes | model/testing/rr_baseline.cc:165-178 | one agent per node, by ascending ids, none of them replacing another; false exactly when the ids run out before the nodes; an unknown protocol raises |
| ReplayContent.PushTick | model/testing/rr_baseline.cc:62-89 | the pushed bundle is the decoded form of the tick's messages |
| ReplayContent.TickAddressed | model/testing/rr_baseline.cc:66 | a tick's bundle goes from the server's id to the client's |
| ReplayContent.MakeLocations | model/message/serialize.cc:462-485 | the loop lists every agent's place |
| ReplayContent.LocationsBack | model/message/serialize.cc:362-389 | listed places parse back to the map they stand for, the last entry of an id winning |
| ReplayContent.SendBack | model/message/serialize.cc:392-422 | a made send parses if and only if it has recipients, and then to the same recipients and data with the fixed sender |
| ReplayContent.SendParsed | model/message/serialize.cc:502-508 | a multicast without recipients raises in the parser, for want of `to_ids`; any other parses to its own send |
| ReplayContent.TickArrives | model/testing/rr_baseline.cc:62-89 | pushing a tick raises exactly when a coordinate is not finite or a message is too long; otherwise the handlers read one location map, if the tick has any, then one send per multicast, in order, each as the writer cuts it |
| ReplayContent.TickKept | model/testing/rr_baseline.cc:62-89 | the commands handled are the tick's own, the same location map and the same recipients and data, if and only if its strings hold no NUL |
| ReplayRun.TraceReplays | model/testing/rr_baseline.cc:185-363 | for every trace that parses: its nodes are made and its replay stops if and only if its add lines name at least as many distinct agents as there are nodes, it has at least ten ticks, every kept multicast line lists a recipient, each agent's latest update in a tick is finite and no message is too long; then it starts with exactly the known agents, every tick ran once at its time and the world is what the ticks' commands make of it |
| ReplayRun.MovesAreLive | model/message/handlers.cc:66-88 | every place that the replay of a tick hands to the handlers is that of a live agent |
| ReplayRun.AgentsEndAtLatest | model/testing/rr_baseline.cc:276-290 | after those commands every known agent stands at its latest update over all ticks, read off the lines |
| ReplayRun.WalkTicks | model/testing/rr_baseline.h:64 | the map of ticks is walked by ascending times, and each tick's map of places by ascending ids |
| ReplayRun.StartReplay | model/testing/rr_baseline.cc:185-363 | reading a file, making the nodes and replaying it raises exactly when the file does not parse or the protocol is unknown, and otherwise ends as `TraceReplays` says, with the world it says |
| ReplayRun.CommandsAreOwn | model/testing/rr_baseline.cc:322-363 | those commands are the trace's own if and only if no string in it holds a NUL |
| ReplayRun.ReplayPackets | model/message/serialize.cc:493-497 | a replay that stops leaves the live agents as they were and has sent one packet per live recipient if an agent has the client's own id, and none otherwise |
| ReplayRun.OwnSends | model/message/handlers.cc:66-139 | in every world, location updates and sends in the client's own name never fail |
| Ordering.WalkOf | model/testing/rr_baseline.h:36 | an ordered map is walked by ascending keys, each once |
| Ordering.LexMeans | model/smb_agent.h:95-96 | ids are ordered byte by byte, a proper prefix first |
| Ordering.WalkUnique | model/smb_agent.h:95-96 | there is only one such walk |
| Roles.GroupAssignment.DoRoleAssignment | model/network/registration.cc:229-245 | one group owned by the first entry with every agent as member; raises on an empty registry |
| Roles.WfdAgent.FigureOutGroup | model/smb_agent.cc:362-366 | an agent is owner exactly when its id is the first entry's |
| Roles.RolesAgree | model/network/registration.cc:229-245 | both computations name the same single owner, the least id, and members and membership cover exactly all agents |
| Handshake.Registration.DoConnect | model/network/registration.cc:44-60 | true exactly when an attempt within the limit connects after refusals only, raising exactly when one does not find the server |
| Handshake.Registration.Expect | model/message/serialize.cc:291-314 | takes exactly the bundles that hold one message of the expected type, and raises exactly when the read or the decoding does |
| Handshake.FirstRead | model/network/registration.cc:62-72 | a stream that ends before the identity request makes registration fail, and one that is no bundle makes it raise |
| Handshake.TakesOneAlone | model/message/serialize.cc:291-314 | from a bundle of proper messages the one message is taken exactly when it is alone and of the expected type |
| Handshake.AnnouncedIds | model/network/registration.cc:131-136 | the ids of an agents message are taken exactly when it adds some |
| Handshake.Registration.DoWhoAreYou | model/network/registration.cc:62-105 | true exactly when an `id_request` with a token came and the answer was written; what was written is the bundle of the answer to that token |
| Handshake.EchoDecodes | model/message/serialize.cc:425-443 | for every token that bundle decodes to one `id_response`, unless it is too long, with the token up to its first NUL; it echoes the token if and only if the token holds no NUL |
| Handshake.AnswerFields | model/message/serialize.cc:430-435 | what the peer finds in the answer: its id, type, service and token, each under its own name |
| Handshake.Registration.DoAgentsInfo | model/network/registration.cc:107-151 | true exactly when `new_agents` with a non-empty list came, raising exactly when reading or its message does; the agents are then exactly the announced ids |
| Handshake.Registration.InitAgents | model/network/registration.cc:153-159 | every agent works out its role and joins the nodes of that role, in order |
| Handshake.Registration.DoInitialization | model/network/registration.cc:200-225 | for Wi-Fi Direct, one group of all agents owned by the least id, the owner alone among the owners and everyone else among the clients, is written as a bundle; otherwise nothing is set or sent |
| Handshake.GroupDecodes | model/message/serialize.cc:519-544 | for every group that bundle decodes to one `go_client`, unless it is too long, and to the group's own ids if and only if none holds a NUL |
| Handshake.AnnouncementFields | model/message/serialize.cc:526-536 | what the peer finds in the announcement: one group with the owner under `go` and all members under `clients`, in order |
| Handshake.Registration.DoReady | model/network/registration.cc:162-180 | true exactly when `id_ack` came |
| Handshake.Registration.Start | model/network/registration.cc:27-41 | for every script of connection results, bundles and write results, true if and only if all of these hold, with the three messages taken and the one or two bundles written in exactly this order; it raises exactly when a step does after all before it succeeded |

## Left out

- ns-3 devices, addresses, mobility models and sockets, what `createNodes` does beyond giving its nodes to the agents, `configAll`, and `Agent::init` beyond the Wi-Fi Direct roles: configuration of library objects.
- Boost.Asio: a read completes exactly when its buffer is full, and a write appends header and body; a socket closed inside the simulation thread's critical section, so that its write throws, is not modelled.
- jsoncpp: quoting follows section 7 of RFC 8259, an object is its list of members in printed order, a reader takes the first value of a text and ignores the rest; it also takes leading zeros and raw control bytes in strings, as the library does; comments, surrogate pairs and the grammar of fractions and exponents are not modelled.
- Doubles: a double is the text the writer prints for it, also for an infinity or a value that is not a number; rounding is not modelled, and converting a trace's coordinate to such a text is a parameter.
- `Agent::ReceivePacket` beyond the message it adds to the outgoing object.
- Exceptions that leave a thread end the run (`Crashed`, `Thrown`); what other threads still do then is not modelled.
- Machine widths: offsets are unbounded, so overflow of `int` sums beyond 2^31 is not modelled; header fields, lengths and times are cut or bounded as in the source.
- Conglomerate.MessageConglomerate.AddMessageV1: the length is a natural number, since the only caller passes three-byte lengths; the offset is any integer.
- Replay.Replayer.Pause: after an exception in a handler only that fact is promised, not what it had handled before; the feedback it prints is not modelled.
- Session.AnyStream: is stated while the header's 32 bits can count each bundle's bytes.
- EndToEnd.PeerReads: is stated while the header's 32 bits can count each bundle's bytes.
- PrintedBundles.FormatsAgreeOverWire: is stated for ids below 256 bytes, since the program's own have nine and one.
- ReplayRun.AgentsEndAtLatest: is stated for ids without NUL, since the writer cuts the others.
- BundleVersion.V0ReadMake: the header reader does not model signs or a `0x` prefix, which the writer never prints.
- Session.StreamRoundTrip: asks for a non-empty body, because the reader halts on a header that announces no data.
- Sleeping, fairness of the busy wait, console output, profiling, example programs, build scripts and destructors.
