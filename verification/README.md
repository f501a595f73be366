# rk_quic: what the endpoint guarantees, proved

rk_quic runs a WebTransport endpoint in Rust and drives it from Dart through a C boundary. The wire
and the cryptography belong to its dependencies; what the package decides for itself is the order in
which its maps, queues, locks, reference counts and reply ids change. This project models those
decisions and proves what the comments, the changelog and the tests promise about them, over every
interleaving of tasks, callers and pollers.

The files, from the middle outwards:

- `sequences.dfy`, `events.dfy`, `event_bus.dfy`: shared words, the events, and the bounded queue they
  wait in, with a log of everything ever offered.
- `endpoint_machine.dfy`, `endpoint_theorems.dfy`, `endpoint_witnesses.dfy`: one endpoint as a step
  machine. Each critical section of a session's task, a stream's reader, a call, the poller and the
  drop is one step, and a run is any interleaving of steps. The theorems hold in every reachable
  state, and the witnesses are runs that reach their exceptions.
- `endpoint_calls.dfy`, `endpoint_object.dfy`: the steps of a call spelt out, and the same endpoint as
  the object the library keeps, changed in place by methods. A ghost trace ties every method to the
  steps of the machine it stands for, so whatever the theorems say holds of the object.
- `registry.dfy`, `endpoint_lifetime.dfy`: handles, the shared counter and the reference counts that
  decide when an endpoint is freed, as a machine and as the object; and the registry and one endpoint
  moving together.
- `stream_writes.dfy`, `utf8.dfy`, `exchange.dfy`: concurrent writers on one stream under its lock,
  a network that takes bytes in arbitrary pieces, UTF-8 (section 4 of RFC 3629), and the reader at
  the far end. QUIC is taken to be an ordered byte stream per direction (section 2.2 of RFC 9000)
  whose stream ids never repeat on a connection (section 2.1 of RFC 9000).
- `command_channel.dfy`, `order_matching.dfy`, `facade.dfy`, `channel_object.dfy`: the Dart side.
  Replies matched by id, matching by order as the channel's comment compares them, the stop flag with
  the worker behind it, and the objects with their completers.
- `json.dfy`, `json_grammar.dfy`, `json_numbers.dfy`, `json_texts.dfy`: a JSON reader, the writer of
  flat objects, and the grammar of RFC 8259, which the reader accepts exactly.
- `c_strings.dfy`, `event_codec.dfy`: native strings, and events across the boundary.
- `boundary.dfy`, `poll_loop.dfy`, `poll_theorems.dfy`: the last-error slot and the native entry points;
  native strings and the poller; the poller over the registry and the endpoint it polls.
- `fingerprint.dfy`: certificate hashes.

Where the code and its prose differ, the model follows the code:

- The comments on the queue say the oldest event is dropped when it is full; `emit` drops the arriving
  one (`EventBus.OfferMatchesItsComment` says exactly when the two agree).
- The end of a session sweeps its streams only in the task `accept_loop` spawns. The client's task
  forgets the session and leaves every stream in the map (`EndpointTheorems.ClientTeardownLeavesStreams`).
- `open_stream` inserts after a wait without a lock, so it can bring a stream in after the sweep of its
  session. The state keeps those streams in `late`; the close barrier holds for all the others, and
  for all streams where `open_stream` is not used (`EndpointTheorems.NothingIsLate`).
- The error slot's message is meant to reach the reply of the call that set it. One that holds a NUL
  arrives as the lossy text instead, and some messages print their input raw
  (`Boundary.DetailIsOwnMessage`, `Boundary.SomeDetailIsLost`).
- The fingerprint parser asks for hex digits in its message and also accepts a plus sign before a
  single digit (`Fingerprint.PlusIsAccepted`). Text of 64 bytes that cannot be cut into pairs makes it
  panic instead of answering with a sentence (`Fingerprint.SomeTextPanics`); the boundary turns that
  into a status.

## Model

| member | source | states |
|---|---|---|
| `EventBus.QueueRefinesLog` | rust/src/transport.rs:764-774 | What is delivered and queued is an order-preserving part of everything emitted; emitted is delivered, queued and discarded together; if every event found a receiver and room, nothing is missing |
| `EventBus.OfferMatchesItsComment` | rust/src/transport.rs:37-44 | Dropping the arriving event and dropping the oldest come to the same if and only if there is room or every waiting event equals the new one |
| `EventBus.OldestIsNotDropped` | rust/src/transport.rs:764-774 | A full queue exists that keeps all its old events and loses the newcomer, where the documented queue would hold it |
| `EndpointWitnesses.FullQueueKeepsTheOldest` | rust/src/transport.rs:764-774 | A run of any client reaches its opening and 1023 datagrams unread; that queue loses the next datagram, where the documented queue would lose the opening |
| `EndpointMachine.StepKeepsInv` | rust/src/transport.rs:596-762 | Every step of every actor keeps the books of the stream map, the close barrier, the words of streams and sessions, and the bounded queue |
| `EndpointMachine.ClosedMeansFinished` | rust/src/transport.rs:658-665 | Once a session's close is in the log its task has nothing left to do |
| `EndpointTheorems.CloseBarrier` | rust/src/transport.rs:648-665 | In every reachable state, once a session's close is announced it is in no map, except for streams `open_stream` inserted after the sweep |
| `EndpointTheorems.ClosedForEver` | rust/src/transport.rs:658-665 | No run from there brings a closed session back into either map, with the same exception |
| `EndpointTheorems.LeftBehind` | rust/src/transport.rs:521-526 | Exactly which streams the map still holds of a closed session: on a server the late ones nobody closed, on a client all that nobody closed |
| `EndpointTheorems.LookAfterClose` | rust/src/transport.rs:145-152 | In every reachable state in which a session's close is announced, the lookup of a call that names it succeeds exactly for a stream call whose stream nobody has closed and which is late (on a server) or was ever inserted (on a client) |
| `EndpointTheorems.LaterCallsAreRefused` | rust/src/transport.rs:100-107 | In every run, a call begun after its caller read the session's close is refused if and only if it does not look while its stream is still held in that sense; `send` and `open_stream` are always refused |
| `EndpointTheorems.NothingIsLate` | rust/src/transport.rs:712-718 | Without `open_stream` no run ever makes a stream late, so the barrier has no exception |
| `EndpointTheorems.OneConsumer` | rust/src/transport.rs:170-177 | Each inserted stream is present, or was taken by exactly one close, or was swept exactly once, and never two of these |
| `EndpointTheorems.StreamGrammar` | rust/src/transport.rs:707-726 | A stream's events are a prefix of opened (peer-opened only), at most one whole message, closed; it was inserted before it says anything; the caller reads a subsequence of that word |
| `EndpointTheorems.SessionBracket` | rust/src/transport.rs:633-665 | A session opens at most once and closes at most once, and everything its own task says stands between the two |
| `EndpointTheorems.StreamOrder` | rust/src/transport.rs:707-726 | Of any two events about one stream none precedes its opening, none follows its close, and at most one is its message |
| `EndpointTheorems.ClientHearsOpenedFirst` | rust/src/transport.rs:432-443 | In every run of a client the first event read is the opening, under the id `connect` returned |
| `EndpointTheorems.EveryRunRefinesLog` | rust/src/transport.rs:83-92 | In every reachable state at most 1024 events wait and the queue refines the log; until the drop an event is discarded only by a full queue, and after it every event is |
| `EndpointTheorems.RoomDecides` | rust/src/transport.rs:37-44 | In every reachable state before the drop, whatever is said joins the end of the queue while fewer than 1024 events wait, and is lost when 1024 do |
| `EndpointTheorems.ClientTeardownLeavesStreams` | rust/src/transport.rs:448-454 | From any state a client's teardown announces the close and leaves the stream map as it was |
| `EndpointTheorems.ClientLeavesStreams` | rust/src/transport.rs:448-454 | A reachable client state holds a stream of a session whose close is announced |
| `EndpointTheorems.LateOpenLeavesStream` | rust/src/transport.rs:513-526 | On a server an `open_stream` still waiting when its session closes leaves a stream behind |
| `EndpointWitnesses.ServerCallFindsLateStream` | rust/src/transport.rs:513-526 | A run of a server reaches such a state, and a write begun after the close was read gets hold of the late stream |
| `EndpointWitnesses.ClientCallFindsStream` | rust/src/transport.rs:448-454 | For any client and any stream its peer opens, a run reaches a write begun after the close was read that gets hold of it |
| `EndpointObject.Endpoint.Start` | rust/src/transport.rs:313-340 | A started endpoint is the machine's server state |
| `EndpointObject.Endpoint.Connect` | rust/src/transport.rs:425-464 | A connected one has its session listed and its opening queued before anyone sees it |
| `EndpointObject.Endpoint.Emit` | rust/src/transport.rs:769-774 | The event joins the queue while fewer than 1024 wait and the endpoint is not dropped, and is lost otherwise |
| `EndpointObject.Endpoint.NextEvent` | rust/src/transport.rs:83-92 | Takes exactly the oldest waiting event, and nothing when none waits |
| `EndpointObject.Endpoint.SendTo` | rust/src/transport.rs:100-133 | `unknownHandle` exactly for an unlisted session, otherwise `ok` or `peerGone` as the network part goes; the machine's call is answered the same |
| `EndpointObject.Endpoint.SendOn` | rust/src/transport.rs:145-162 | The same for a stream not in the map, and the map is left alone |
| `EndpointObject.Endpoint.CloseStream` | rust/src/transport.rs:170-183 | Takes the stream out of the map whatever becomes of the finish; a second close finds nothing |
| `EndpointObject.Endpoint.OpenStream` | rust/src/transport.rs:490-531 | Its three answers and the one entry it adds; four steps of the machine |
| `EndpointObject.Endpoint.CloseSessions` | rust/src/transport.rs:190-194 | Every listed session is told once and the map is empty |
| `EndpointObject.Endpoint.DropEndpoint` | rust/src/transport.rs:186-202 | Tells every session before the runtime goes, and is one drop of the machine |
| `EndpointObject.Endpoint.TakeNumber` | rust/src/transport.rs:633-633 | The session id handed out is in no map and in no stream key |
| `EndpointObject.Endpoint.OpenSession` | rust/src/transport.rs:633-644 | The session is listed when its opening is emitted |
| `EndpointObject.Endpoint.TellOpen` | rust/src/transport.rs:637-644 | Announces a listed session, and starts serving it |
| `EndpointObject.Endpoint.AcceptStream` | rust/src/transport.rs:707-726 | The stream is in the map when its opening is emitted, and its reader comes last |
| `EndpointObject.Endpoint.AnnounceAndRead` | rust/src/transport.rs:719-725 | Announces an inserted stream and hands it to its reader |
| `EndpointObject.Endpoint.Turn` | rust/src/transport.rs:684-729 | A datagram is told as a datagram, a one-way stream as a message, a two-way stream as an opening; broken or incomplete text is not told |
| `EndpointObject.TrafficTells` | rust/src/transport.rs:683-730 | Each arrival with something to tell stands at its own place among what is told, as what it is, and there is nothing else |
| `EndpointObject.Endpoint.SessionLoop` | rust/src/transport.rs:675-731 | For any arrivals the log grows by one event for each that has something to tell, at its place and as what it is, and the map by exactly the streams the peer opened |
| `EndpointObject.Endpoint.Sweep` | rust/src/transport.rs:655-657 | Takes exactly the streams of the ended session |
| `EndpointObject.Endpoint.ForgetSession` | rust/src/transport.rs:648-650 | The session leaves the map before anything is said about it |
| `EndpointObject.Endpoint.CloseSession` | rust/src/transport.rs:648-665 | Forgets the session, then its streams, then announces the close |
| `EndpointObject.Endpoint.TellClose` | rust/src/transport.rs:665-665 | Announces the close; on a server it can only be called once the session's streams are swept |
| `EndpointObject.Endpoint.ServeSession` | rust/src/transport.rs:612-666 | A whole session leaves both maps as they were and says opened, its traffic, closed |
| `EndpointObject.Endpoint.ServeClient` | rust/src/transport.rs:448-454 | The client's task says its traffic and the close, and leaves every stream the peer opened in the map |
| `EndpointObject.TrackCall` | rust/src/transport.rs:100-183 | A call running by itself is two or three steps of the machine and reaches the state the method describes |
| `EndpointObject.TrackOpen` | rust/src/transport.rs:490-531 | So is an `open_stream`, in each of its three outcomes |
| `Registry.IdsDistinct` | rust/src/transport.rs:211-214 | The first n values of the wrapping 64-bit counter differ pairwise if and only if n is at most 2^64 |
| `Registry.IdsCount` | rust/src/transport.rs:211-214 | They count from one, and zero comes exactly when the counter wraps |
| `Registry.DropsOnceWhenLastReferenceGoes` | rust/src/transport.rs:186-202 | An endpoint's drop body has run once if it is out of the registry and no call holds it, and not at all otherwise |
| `Registry.CallersFindRuntime` | rust/src/transport.rs:216-220 | Whoever holds a reference finds the runtime in place, so no method inside a call can see it missing |
| `Registry.IdsNeverRepeat` | rust/src/transport.rs:429-456 | Handles and client session ids are pairwise distinct over the whole run |
| `Registry.BooksBalance` | rust/src/transport.rs:238-242 | Live endpoints are the started less the stopped, and nothing is started or stopped twice |
| `Registry.StoppedForEver` | rust/src/transport.rs:222-236 | After its one `ok` stop a handle is found by no lookup and no stop, whatever runs in between |
| `EndpointLifetime.EndStepIsEnabled` | rust/src/transport.rs:56-65 | The registry and one endpoint together: no call or poll by a holder meets a dropped endpoint, and the drop, in the step that gives the last reference back, meets no call in flight |
| `EndpointLifetime.StepKeepsInv` | rust/src/transport.rs:186-236 | Every joint step keeps both parts reachable by themselves, the drops of both in agreement, and every open call's reference held |
| `EndpointLifetime.DroppedWhenNobodyHoldsIt` | rust/src/transport.rs:186-202 | In every reachable joint state the endpoint is dropped if and only if it is out of the registry and nobody holds it, with every call returned |
| `EndpointLifetime.NobodyMeetsTheDrop` | rust/src/transport.rs:153-153 | In every reachable joint state, what a joint step asks of the endpoint is allowed by the endpoint's machine |
| `EndpointLifetime.StartedIsRegistered` | rust/src/transport.rs:332-347 | Registering a started server is such a joint state to begin with |
| `Registry.Library.NextHandle` | rust/src/transport.rs:211-214 | The id handed out is the counter's value, was never given before, and the counter goes on by one modulo 2^64 |
| `Registry.Library.Insert` | rust/src/transport.rs:341-347 | Registers the endpoint with one reference, its runtime running |
| `Registry.Library.Lookup` | rust/src/transport.rs:218-220 | Finds exactly what is registered, takes a reference, and what it finds is running |
| `Registry.Library.LetGo` | rust/src/transport.rs:229-233 | Gives a reference back; the runtime goes with the last one and only then |
| `Registry.Library.Stop` | rust/src/transport.rs:224-236 | `ok` exactly for a registered handle, `notRunning` and no change otherwise; with nobody inside a call the runtime is gone on return |
| `Utf8.EncodedForm` | rust/src/transport.rs:748-750 | How many bytes a character takes, their ranges, and the character as the sum they stand for (section 3 of RFC 3629) |
| `Utf8.DecodeEncoded` | rust/src/transport.rs:750-750 | Validating the bytes of any text gives that text back |
| `Utf8.EncodeDecoded` | rust/src/transport.rs:750-750 | Bytes that validate are the encoding of what they decode to, so validation accepts nothing else |
| `Utf8.DecodeJoins` | rust/src/transport.rs:748-750 | Valid UTF-8 joined to valid UTF-8 is valid and means the joined texts |
| `StreamWrites.StepKeepsTail` | rust/src/transport.rs:155-161 | Behind a failed write no writer ever adds a byte |
| `StreamWrites.WritesAreAtomic` | rust/src/transport.rs:155-161 | For any writers and any partial writes, the wire carries the whole texts of the successful sends in lock order, and after them at most a piece of one unsuccessful send |
| `StreamWrites.FinishedIsWhole` | rust/src/transport.rs:170-182 | A finished stream carries the successful sends and nothing else, and at most one close exists |
| `StreamWrites.FinishedStays` | rust/src/transport.rs:179-182 | Nothing follows the finish in any run |
| `StreamWrites.WireGrows` | rust/src/transport.rs:155-161 | In every run what is on the wire stays in front of what follows, and so does the order of the lock |
| `StreamWrites.DeliveredJoins` | rust/src/transport.rs:155-161 | The successful texts of one stretch of the lock order come before those of the next |
| `Exchange.JoinedJoins` | rust/src/transport.rs:748-749 | Pieces are joined in the order they come, however they are grouped |
| `Exchange.ReadBiStream` | rust/src/transport.rs:740-762 | If what was read ended well and is UTF-8: the one text it encodes, then the close; otherwise the close alone |
| `Exchange.WholeMessage` | rust/src/transport.rs:733-762 | However a finished stream is cut into pieces, even inside a character, the reader says the joined successful texts once |
| `Exchange.ReaderReports` | rust/src/transport.rs:740-762 | In any state of the receiving endpoint a reader that is reading can deliver its report, and by its steps alone the log grows by just that |
| `Exchange.RunSaysWhatItsReaderSays` | rust/src/transport.rs:740-762 | In every run, whatever else happens in between, what is said about a stream that has its reader is what the reader's own steps say, in order |
| `Exchange.EveryRunReports` | rust/src/transport.rs:740-762 | In every run, a reader that has carried out part of what it owes has said that part of its report, and all of it when it is through; for a stream that failed that is the close alone |
| `Exchange.ExchangeArrives` | rust/src/transport.rs:135-183 | In every run of the receiving endpoint: sender's writes, network pieces and reader put together, the far log says about the stream the whole text once and then the close, and a beginning of that before the reader is through |
| `CommandChannel.EveryCallHasItsFate` | lib/src/endpoint_io.dart:115-118 | From any state the result of a call is what its own history alone decides |
| `CommandChannel.OwnReply` | lib/src/endpoint_io.dart:94-112 | For any overlap, loss, repetition and reordering each call is completed at most once and with its own reply |
| `CommandChannel.FirstDecides` | lib/src/endpoint_io.dart:115-118 | Read off the history: the first reply with a call's id that arrives after the call and while replies are heard decides it, or a settling that comes first; undecided, it has no result |
| `CommandChannel.NothingIsMadeUp` | lib/src/endpoint_io.dart:150-162 | Any result but `notRunning` with "the endpoint was stopped", `ok` among them, came in a reply with that call's id |
| `CommandChannel.LossIsLocal` | lib/src/endpoint_io.dart:108-112 | Taking one reply out of any history changes the result of no other call |
| `CommandChannel.SettleCompletesOrphans` | lib/src/endpoint_io.dart:150-162 | Disposing completes exactly the calls that still wait, with `notRunning` and "the endpoint was stopped", and keeps every other result |
| `OrderMatching.SameWhileNoneIsLost` | lib/src/endpoint_io.dart:108-110 | With a worker that answers in turn and no loss, matching by id and by order complete the same calls with the same replies |
| `OrderMatching.OneLossShiftsOrderMatching` | lib/src/endpoint_io.dart:110-112 | When one reply is lost, order matching gives that call and each later one its successor's reply; id matching leaves one call unanswered |
| `Facade.NativeCallsInProgramOrder` | lib/src/server_io.dart:171-234 | In every run the worker's native calls are a prefix of the calls in program order, and nothing is sent behind a stop |
| `Facade.SentIsAsked` | lib/src/server_io.dart:171-234 | In every run what goes out is what was asked for, in order and each once, up to and with the first stop, and nothing after it |
| `Facade.StopSettlesEverything` | lib/src/server_io.dart:227-234 | When the stop's future is complete, every call has the answer of its own native call and disposing finds nobody waiting |
| `Facade.StopIsTheLastNativeCall` | lib/src/client_io.dart:190-197 | No native call follows the stop's |
| `Facade.WaitingCallsAreServed` | lib/src/endpoint_io.dart:248-401 | While a call waits, worker or listener can move, and each such move lowers a measure |
| `Facade.StopCompletes` | lib/src/server_io.dart:227-234 | From any state with a stop out, in every order of worker and listener and for any answers: no more moves than the measure says, one of them can move while fewer are made, and then the stop is complete |
| `ChannelObject.Completer.Complete` | lib/src/endpoint_io.dart:117-117 | A completer is completed once |
| `ChannelObject.Commands.Send` | lib/src/endpoint_io.dart:142-148 | Gives each call its own id and its own completer, and sends one envelope |
| `ChannelObject.Commands.OnReply` | lib/src/endpoint_io.dart:115-118 | While replies are heard, the one call the reply names holds its payload if it waited; every other completer holds what it held |
| `ChannelObject.Commands.StopListening` | lib/src/endpoint_io.dart:151-152 | No reply is heard afterwards, and nobody is completed by this |
| `ChannelObject.Commands.Waiting` | lib/src/endpoint_io.dart:155-155 | Exactly the calls still waiting, in the order they were made |
| `ChannelObject.CompleteAll` | lib/src/endpoint_io.dart:157-161 | Completes exactly the completers of the given calls, each once, with `notRunning` and "the endpoint was stopped" |
| `ChannelObject.Commands.CompleteOrphans` | lib/src/endpoint_io.dart:155-161 | Every waiting completer then holds `notRunning` and "the endpoint was stopped", every other what it held, and nobody waits |
| `ChannelObject.Handle.Ask` | lib/src/server_io.dart:171-222 | A stopped handle refuses without sending; otherwise exactly one command goes out |
| `ChannelObject.Handle.Stop` | lib/src/client_io.dart:190-197 | Sends one stop, and answers a second one `notRunning` on a server and `ok` on a client |
| `Json.ObjectReads` | lib/src/quic_event.dart:15-32 | The JSON reader, on any flat object the writer writes, gives its fields back, whatever characters they hold |
| `JsonTexts.TreeReads` | lib/src/quic_event.dart:17-19 | Every way RFC 8259 has of spelling a value, blanks, escapes, surrogate pairs, nesting and all, is read as that value |
| `JsonTexts.ReadIsTheGrammar` | lib/src/quic_event.dart:17-32 | The reader takes a text for a value if and only if that grammar spells the value so; every other text is unparsable |
| `Json.FieldsArePrintable` | rust/src/ffi.rs:81-91 | What the writer writes holds no control character (section 7 of RFC 8259) |
| `EventCodec.EventIsRead` | lib/src/quic_event.dart:15-89 | What Dart reads of any event at all: equal texts, and each id unless it needs more than 63 bits, where it reads -1 |
| `EventCodec.RoundTrip` | rust/src/event.rs:24-74 | Decoding an encoded event gives the matching event with equal fields if and only if its ids are below 2^63 |
| `EventCodec.NothingIsConfused` | lib/src/quic_event.dart:55-88 | Two events with such ids and the same text are the same event |
| `EventCodec.NativeTexts` | rust/src/event.rs:24-74 | The text of each event, member by member: the kind's name and the field names as the attributes make them |
| `EventCodec.FieldReadsAs` | lib/src/quic_event.dart:45-53 | A field that is absent or of another type reads as -1 or the empty text, and any other as itself |
| `EventCodec.DartReads` | lib/src/quic_event.dart:55-88 | For any JSON object with a kind: the eight names and which field goes where; any other name is kept with the whole text |
| `EventCodec.DartKeepsTheRest` | lib/src/quic_event.dart:15-37 | For any text at all: the three other unknown events each in exactly their case, the whole text kept, and a known event if and only if the text is an object with one of the eight names |
| `CStrings.CStringCarries` | rust/src/ffi.rs:81-91 | Text without a NUL crosses as a C string unchanged |
| `CStrings.StringArrives` | rust/src/ffi.rs:81-91 | Any text arrives as a C string: itself, or the lossy text if it holds a NUL |
| `CStrings.ReceivedIsSent` | rust/src/ffi.rs:81-91 | It arrives as it was sent if and only if it holds no NUL |
| `EventCodec.JsonCrossesWhole` | rust/src/server_ffi.rs:149-160 | Serialised events never hold a NUL, so the lossy replacement is never used for them |
| `Boundary.SlotKeepsReadOnce` | rust/src/lib.rs:50-76 | Setting, clearing and taking keep this: no setting of the slot is read twice, nor after a later one |
| `Boundary.WriteOut` | rust/src/ffi.rs:132-137 | Writes through a pointer, and does nothing through null |
| `Boundary.Thread.ClearLastError` | rust/src/lib.rs:57-59 | The slot is empty afterwards |
| `Boundary.Thread.SetLastError` | rust/src/lib.rs:51-54 | The slot holds the new message only |
| `Boundary.Thread.TakeLastError` | rust/src/lib.rs:69-76 | Hands the message out as a native string and empties the slot; the lossy text arrives where the message holds a NUL |
| `Boundary.Thread.RkQuicServerStart` | rust/src/server_ffi.rs:40-78 | Leaves its own message or none; writes the handle with `ok` and only then |
| `Boundary.Thread.RkQuicClientConnect` | rust/src/client_ffi.rs:44-84 | The same, with both ids written with `ok` and neither otherwise |
| `Boundary.Thread.RkQuicClientOpenStream` | rust/src/client_ffi.rs:94-113 | The same for a stream id |
| `Boundary.Thread.RkQuicSend` | rust/src/server_ffi.rs:178-243 | Unreadable text is refused with its own message before the handle is looked up; any other failure leaves no message |
| `Boundary.Thread.RkQuicStreamClose` | rust/src/server_ffi.rs:252-267 | Leaves no message, whatever the slot held |
| `Boundary.Thread.RkQuicServerStop` | rust/src/server_ffi.rs:86-91 | Leaves no message, whatever the slot held |
| `Boundary.Thread.Detail` | lib/src/bindings_io.dart:169-175 | The message is asked for only after a failure, and is then gone |
| `Boundary.DetailIsOwnMessage` | rust/src/lib.rs:69-76 | A reply's detail is the message its own call set if and only if that message holds no NUL, and the lossy text otherwise |
| `Boundary.SomeDetailIsLost` | rust/src/config.rs:99-104 | A path with a NUL in it is refused with a message that does not arrive |
| `Boundary.Thread.Serve` | lib/src/endpoint_io.dart:248-391 | The worker's branches give the reply the call deserves |
| `Boundary.Thread.Work` | lib/src/endpoint_io.dart:248-391 | The reply, field by field, from the native call alone, whatever the slot held: handle, port, session and stream in their places, each failure with its own status, and a detail that is absent or what arrives of the message that call set |
| `Boundary.Thread.WorkAll` | lib/src/endpoint_io.dart:248-391 | The same for any sequence of commands, and no message is read twice |
| `PollLoop.Heap.Allocate` | rust/src/ffi.rs:81-91 | A new live string at an address never used before |
| `PollLoop.Heap.Free` | rust/src/ffi.rs:71-79 | Frees a live string once; null frees nothing |
| `PollLoop.RkQuicServerPoll` | rust/src/server_ffi.rs:134-164 | Allocates with `ok` and only then; on every other status the cell is null |
| `PollLoop.PollOnce` | lib/src/endpoint_io.dart:65-88 | Each turn frees what it was given and leaves the heap as it found it |
| `PollLoop.Poll` | lib/src/endpoint_io.dart:59-92 | Left to itself: forwards exactly the dequeued events, once and in order; every string is freed once; leaves at the first poll that finds the endpoint gone and for no other reason |
| `PollLoop.KilledTurn` | lib/src/server_io.dart:231-231 | A turn killed after its native call leaves one string unfreed if an event had come and the kill was before the freeing, and none otherwise |
| `PollLoop.PollUntilKilled` | lib/src/client_io.dart:194-194 | The loop killed in any turn: what was dequeued before that turn is sent, and at most one string is never freed, exactly in that case |
| `PollTheorems.GoneMeansStopped` | rust/src/transport.rs:218-236 | In any run of the registry, a poll finds a started endpoint gone if and only if a stop has taken its handle out |
| `PollTheorems.LeavesWithTheStop` | lib/src/endpoint_io.dart:65-88 | Over any run of the registry between the polls, the loop leaves only after a stop, and at the first poll that looks the handle up after it |
| `PollTheorems.DequeuedIsDelivered` | rust/src/server_ffi.rs:143-162 | Over any run of the endpoint between the polls, what the loop takes out is what the endpoint delivers in that time |
| `PollTheorems.CallerHearsTheEndpoint` | lib/src/endpoint_io.dart:59-92 | A poller from the start sends on exactly what the endpoint delivered, in order; it is a part of everything emitted; each text reads as its event, for ids below 2^63 |
| `PollLoop.CallerReadsWhatWasDequeued` | lib/src/server_io.dart:152-154 | Parsing what the poller sent gives each dequeued event once, in order and equal in every field, for ids below 2^63 |
| `Fingerprint.ParseHash` | rust/src/client_config.rs:120-143 | Accepts exactly 64 bytes after trimming whose 32 pairs are all in the number grammar, gives their bytes, and otherwise says which of three ways it ends, with the first bad pair |
| `Fingerprint.AcceptedIsHexWithoutPlus` | rust/src/client_config.rs:132-141 | What is accepted is 64 hex digits if and only if it holds no plus sign |
| `Fingerprint.DigitsAre` | rust/src/client_config.rs:135-135 | Each digit's value, in either case |
| `Fingerprint.OnlyDigitsAre` | rust/src/client_config.rs:135-135 | No other byte is a digit |
| `Fingerprint.PairGrammar` | rust/src/client_config.rs:134-135 | Which pairs are numbers, and which numbers they are |
| `Fingerprint.PlusIsAccepted` | rust/src/client_config.rs:115-119 | Some text is accepted whose characters are not all hex digits |
| `Fingerprint.UncuttableIsNoHash` | rust/src/client_config.rs:134-135 | Where the text cannot be cut there is no hash |
| `Fingerprint.HexTextReads` | rust/tests/client_to_server.rs:34-46 | The hex text of any 32 bytes, in any mix of cases and between any blanks, is read back as those bytes |
| `Fingerprint.CaseDoesNotMatter` | rust/src/client_config.rs:120-143 | For ASCII text, changing the case of letters changes neither acceptance nor the bytes |
| `Fingerprint.SomeTextPanics` | rust/src/client_config.rs:134-134 | Some text of the right length is cut inside a character |

## Left out

- TLS, certificates, PEM reading, the reading of error texts in `connect_status` and `bind_status`: the work of other libraries.
- Sockets, dual stack, idle timeouts, keep-alive and real time: a session may end at any step, with any reason.
- Mutex poisoning and panics inside a lock: locks are taken to be held and given back. `guard` is not modelled; a panic is not a step.
- Fairness of the schedulers: a task may stop for good at any step. The progress results are about what can still happen, not about when.
- `ServerConfig::parse`, status names, version checks, `ClientConfig::parse` apart from the hash: single branches.
- Loading and probing of the library, the web halves, build scripts: plumbing.
- The worker for a missing library, the reply to an unknown command and messages that are not envelopes: constant answers.
- The connections and write halves stored in the maps are plain numbers in class `Endpoint`; what is done through them is a parameter.
- Unidirectional streams as byte streams: `send` is one call that goes through or does not, and an incoming one is its text or nothing.
- What still waits in the queue when an endpoint is dropped is kept in the state as a history; nobody can take it any more.
- Ids are natural numbers, except for the counter in `registry.dfy`, which wraps at 64 bits; its machine stops handing out ids after 2^64.
- Text that Dart passes down with an inner NUL is cut there by the C string; no such text is modelled.
- The detail text of an unknown event in Dart is not modelled, only its kind and its raw text.
- Json.ObjectReads: the reader follows RFC 8259 as Dart's decoder does, except that an unpaired surrogate escape reads as U+FFFD, because a text here is made of Unicode scalar values; nothing the writer writes contains one.
- PollLoop.Poll: watched for any finite number of turns, since the loop itself need not end; a failure to serialise an event, which `serde_json` cannot have for these types, is not a turn.
- EndpointObject.Endpoint.SendTo: like every call on the endpoint it is for an endpoint whose drop has not begun; nobody can call into one that is being dropped, which is what `EndpointLifetime.EndStepIsEnabled` proves, so `notRunning` is no answer here.
- EndpointObject.Endpoint.OpenStream: the id it is given is new on its connection (section 2.1 of RFC 9000).
- Handshakes that fail and requests for another path: they never become sessions.
- EndpointObject.Endpoint.ServeSession: runs the task with nobody else in between; what interleaving does to it is what the theorems on the step machine say.
- EndpointObject.Endpoint.ServeClient: the same for the client's task.
- EndpointTheorems.SessionBracket: the detached readers' events are outside the bracket and may follow the close, as in the code.
