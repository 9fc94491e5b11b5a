# hyprwire, modelled and proved

hyprwire is an object protocol over a stream socket. A client greets a server, learns which
protocols it is offered, binds objects, and from then on both sides call each other's methods;
calls carry typed arguments and file descriptors. This project models the two endpoints from the
bytes on the socket up to whole sessions and proves what they keep.

It is built in four layers.

* **Wire** (`Bytes`, `VarInt`, `Arguments`, `GenericMessage`, `WireObject`, `CallRoundTrip`,
  `Messages`, `MessageCodecs`, `Framing`, `Accepted`). One reference reading of the argument grammar
  (`Arguments.ParseArgs`); the three cursor loops of the source (scan, type check, decode) and the
  marshalling loop are methods proved against it, so they agree with each other on every argument
  boundary. Variable-length numbers are the unsigned LEB128 of section 7.6 of DWARF Version 5.
* **Endpoints** (`Specs`, `SpecNames`, `Server`, `Client`, `Dispatch`, `Waits`, `ServerLaws`,
  `ClientLaws`, `ServerSafety`). What one message, one call of the application, or one received
  batch does to either endpoint, as functions on its state. `ServerLaws` and `ClientLaws` say what
  these functions decide without naming them: which bytes, messages, requests and calls are
  refused and how, what is sent, what changes and what stays. `Waits` says when the waiting loops
  return. `ServerSafety` proves what holds of a server's view of a client whatever that client sends.
* **Classes** (`ServerClients`, `ServerSockets`, `ServerRounds`, `ClientSockets`). The source's
  objects with their fields updated in place and their loops; every method is proved equal to the
  endpoint functions, and the bytes it gave to the socket are proved to be the encoding of the
  messages the state says were sent. What poll reports and what is read from a socket are arguments.
* **Sessions** (`Session`, `Invariant`, `ServerSteps`, `ClientTables`, `ClientSteps`,
  `SessionSteps`, `SessionSafety`, `SessionTheorems`, `ClientLosses`, `Deliveries`, `Deferred`,
  `Logs`, `Farewells`, `Progress`, `Answers`, `Identities`, `WaitedRuns`, `Scenarios`). A client and a
  server over two FIFO channels, as a state machine over the steps of both sides, in every
  interleaving and with batches of every size. `Session.Enabled` is what honest callers respect;
  `Invariant.Inv` is kept by all thirteen kinds of step; the theorems follow for every run.

The honest conditions of a session are all things a caller can check beforehand: bind only what the
handshake listed, with 1 <= version <= the protocol's version; do not call an object whose
destructor was called; arguments of the method's types, strings shorter than 2^28 bytes, arrays
shorter than 10000 elements; create the object a listener was asked for, of the protocol, type and
version of the request; stay below 2^32 sequence numbers and ids.

Three things one might expect do not hold, and the model says exactly when they do.

* A listener that calls a method on an object that got its id earlier in the same batch, while calls
  of that object are still kept back, puts its call in front of those. With a destructor this ends
  the connection: `Deferred.OvertakingCondition` proves that the server fails on what the client has
  sent when the batch is over if and only if something was kept back, and `Deferred.OvertakingFails`
  that no behaviour of the server's application saves it, however the batch goes on, as long as the
  object still has its id in the client's table when the batch is over (if an event in the rest of
  the batch destroys the object on the client, the kept-back calls are dropped with it);
  `Session.HonestCall` excludes exactly that call. With any other method the order is lost, unless
  all the calls are the same (`Deferred.OvertakingReorders`). `Scenarios.OvertakingHappens` and
  `Scenarios.OrderLost` reach such states from the start.
* An event the server may send is not always delivered to a registered listener: only if the
  client's own version of the object has the method (`SessionTheorems.EventReaches`), and every
  object a call returned has version 0 on the client. `Scenarios.EventDropped` is a run in which an
  event is lost this way.
* An honest client can get into error and lose its connection: exactly when it reads an event whose
  id is not in its table (`ClientLosses.StepCosts` for every step, `ClientLosses.ClientLossCondition`
  for whole runs). `ClientLosses.WhyLost` says when that is: no object of the client has the number
  the id was announced for (the client let it go, or never made it because it does not know the
  type), or the object that has the number got another id by a second answer to the same request.
  `Scenarios.EventTooLate` and `Scenarios.EventRenamed` are runs in which this happens.

Where the code and its documentation differ the model follows the code: the length of a string is
low group first, although the headers call it a VLQ; `BIND_PROTOCOL` carries name and version apart,
not `name@version`; a refused call is answered with the object's id as error id, not with -1.

Nothing here was executed; the claims are those of the Dafny verifier.

## Model

| member | source | states |
|---|---|---|
| VarInt.EncodeVarInt | src/core/message/MessageParser.cpp:304-318 | the four shifts and the trimming loop give the base-128 digits, low group first, of the number modulo 2^28 |
| VarInt.ParseVarInt | src/core/message/MessageParser.cpp:286-302 | the rolling loop computes the reference reading at any offset |
| VarInt.GroupsAreDigits | src/core/message/MessageParser.cpp:307-310 | shifting left and right again selects exactly the base-128 digits of the low 28 bits |
| VarInt.ReadEncoded | src/core/message/MessageParser.cpp:292-318 | an encoded number reads back as itself and its own length, whatever bytes follow |
| VarInt.DigitsAreShortest | src/core/message/MessageParser.cpp:311-315 | no other encoding of the same number that the reader accepts is shorter |
| VarInt.ReadVarIntBound | src/core/message/MessageParser.cpp:292-302 | what is read from at most four groups is below 2^28 and lies inside the buffer |
| Arguments.ReadValueEncoded | src/core/message/messages/GenericProtocolMessage.cpp:32-107 | any argument within the limits reads back exactly, taking exactly its own descriptors from the queue |
| Arguments.ParseArgsEncoded | src/core/message/messages/GenericProtocolMessage.cpp:30-108 | any list of arguments reads back exactly, with the rest of the queue untouched |
| Arguments.ParseArgsFds | src/core/message/messages/GenericProtocolMessage.cpp:70-102 | on arbitrary bytes, the old queue is the arguments' descriptors followed by the remaining queue |
| Arguments.ParseArgsSendable | src/core/message/messages/GenericProtocolMessage.cpp:30-108 | on arbitrary bytes, whatever is accepted is within the limits of what could have been sent |
| Arguments.ParseArgsAgree | src/core/message/messages/GenericProtocolMessage.cpp:30-112 | the same bytes elsewhere, with other bytes and descriptors behind, parse to the same arguments at the same places |
| GenericMessage.ScanTexts | src/core/message/messages/GenericProtocolMessage.cpp:62-69 | the length-adding loop over strings stops where the reference reading does, or fails with it |
| GenericMessage.ScanArguments | src/core/message/messages/GenericProtocolMessage.cpp:30-108 | the scan accepts exactly what the grammar does, ends at the same END with its cursor at the same argument boundaries, and splits the queue without losing or reordering a descriptor, also when it rejects |
| GenericMessage.GenericProtocolMessage.Parse | src/core/message/messages/GenericProtocolMessage.cpp:13-118 | the parsing constructor: fields, span, length and descriptors are those of the reference reading; message descriptors followed by queue are the old queue in every case |
| GenericMessage.GenericProtocolMessage.Build | src/core/message/messages/GenericProtocolMessage.cpp:120-123 | an outgoing message holds the bytes and descriptors it was built from |
| GenericMessage.GenericProtocolMessage.ResolveSeq | src/core/message/messages/GenericProtocolMessage.cpp:129-133 | bytes 2 to 5 become the id, the others stay |
| GenericMessage.LateBinding | src/core/client/ClientSocket.cpp:182-184 | a call marshalled with object id 0 and resolved later is byte for byte the call marshalled with the real id |
| GenericMessage.ReadMarshalled | src/core/wireObject/IWireObject.cpp:81-213 | what `call` marshals is accepted anywhere in a batch: same object, method, arguments, own descriptors, own length |
| GenericMessage.ReadGenericAgree | src/core/message/messages/GenericProtocolMessage.cpp:13-118 | an accepted message parses the same wherever its bytes stand and whatever follows them |
| GenericMessage.AppendedBytesIgnored | src/core/message/messages/GenericProtocolMessage.cpp:13-118 | an accepted message parses the same with any bytes appended and any descriptors queued behind its own |
| WireObject.MarshalArgs | src/core/wireObject/IWireObject.cpp:112-209 | the marshalling loop over parameters and arguments yields the encoding and the side list of descriptors; it fails exactly on an array of unsupported elements |
| WireObject.SkipValue | src/core/wireObject/IWireObject.cpp:293-373 | one move of the type-check walk ends where the reference reading of that argument ends |
| WireObject.TypeCheck | src/core/wireObject/IWireObject.cpp:276-374 | the walk passes if and only if the parameters are a prefix of the arguments' type codes; the positions its cursor passed, returned as a list, are the parser's argument boundaries; its own size and overrun checks never fire on an accepted payload; and it pushes the argument types, array as pointer and length |
| WireObject.Decode | src/core/wireObject/IWireObject.cpp:402-541 | the decode walk pushes every argument's values, the positions its cursor passed are the parser's argument boundaries, and it never runs out of descriptors |
| WireObject.Called | src/core/wireObject/IWireObject.cpp:246-547 | bad method, no listener, version too old, wrong types, or the frame handed to the listener: decided in this order, for every accepted payload |
| WireObject.FrameAligned | src/core/wireObject/IWireObject.cpp:290-330 | the k-th pushed type describes the k-th pushed value |
| CallRoundTrip.SpanParses | src/core/message/messages/GenericProtocolMessage.cpp:110-112 | the span handed to `called`, with the message's own descriptors, holds the same arguments at the same boundaries |
| CallRoundTrip.FrameReadsBack | src/core/wireObject/IWireObject.cpp:402-544 | a frame read with the method's parameters gives back the argument list |
| CallRoundTrip.CallDelivers | src/core/wireObject/IWireObject.cpp:81-213 | marshal, scan, check and decode deliver exactly the arguments sent, the new object's number first when the method returns one |
| CallRoundTrip.DeliveredFrameAligned | src/core/wireObject/IWireObject.cpp:376-544 | whenever a listener is called, types and values of the call frame match position by position |
| Messages.ReadMessageProgress | src/core/message/MessageParser.cpp:28-61 | every accepted message has positive length and ends inside the batch |
| Messages.ReadMessageEncoded | src/core/message/MessageParser.cpp:63-284 | every message kind within its limits reads back exactly, with its own descriptors from the front of the queue |
| MessageCodecs.EncodeHandshakeBegin | src/core/message/messages/HandshakeBegin.cpp:54-76 | the bytes are those of the wire format |
| MessageCodecs.ParseHandshakeBegin | src/core/message/messages/HandshakeBegin.cpp:12-52 | the loop reads the version array, or rejects 256 and more |
| MessageCodecs.EncodeHandshakeProtocols | src/core/message/messages/HandshakeProtocols.cpp:55-72 | the bytes are those of the wire format |
| MessageCodecs.ParseHandshakeProtocols | src/core/message/messages/HandshakeProtocols.cpp:12-53 | the loop reads the strings, or rejects 2048 and more |
| MessageCodecs.EncodeBindProtocol | src/core/message/messages/BindProtocol.cpp:59-78 | the bytes are those of the wire format |
| MessageCodecs.ParseBindProtocol | src/core/message/messages/BindProtocol.cpp:13-57 | number, name and version are read, version 0 is rejected |
| MessageCodecs.EncodeFatalError | src/core/message/messages/FatalProtocolError.cpp:63-74 | the bytes are those of the wire format |
| MessageCodecs.ParseFatalError | src/core/message/messages/FatalProtocolError.cpp:14-53 | object, error id and text are read |
| MessageCodecs.MarshalCall | src/core/wireObject/IWireObject.cpp:81-213 | the bytes and descriptors of a call are the encoding of its message |
| Framing.BatchFraming | src/core/message/MessageParser.cpp:28-61 | a batch of any messages is cut back into exactly those messages, each with its own descriptors, none left over |
| Framing.BatchSplit | src/core/message/MessageParser.cpp:28-61 | cutting one batch or the two halves at a message boundary gives the same messages |
| Accepted.ReadMessageSound | src/core/message/MessageParser.cpp:63-284 | nothing but messages is accepted: what is read is within the limits, takes exactly its own descriptors from the front of the queue, and has at least as many bytes as its encoding, and if as many, those bytes |
| SpecNames.SpecRoundTrip | src/core/client/ClientSocket.cpp:244-256 | printing `name@version` and splitting at the last `@` undo each other, also for names with `@` |
| SpecNames.StoulDecimal | src/core/client/ClientSocket.cpp:248 | the number parser reads back every printed version |
| SpecNames.SpecVerdict | src/core/client/ClientSocket.cpp:244-256 | by positions, for any string: name and version are what stands before and behind the last `@`, and the string is bad exactly if no digits follow the spaces and the sign there, or too many for 64 bits |
| ServerClients.ServerClient.constructor | src/core/server/ServerClient.cpp:28-30 | a new client has the initial state |
| ServerClients.ServerClient.SendMessage | src/core/server/ServerClient.cpp:85-129 | the bytes and descriptors given to the socket stay the encoding of the messages sent |
| ServerClients.ServerClient.SetupExposedProtocols | src/core/server/ServerClient.cpp:243-261 | the loop appends exactly the registered names that pass the filter |
| ServerClients.ServerClient.DispatchFirstPoll | src/core/server/ServerClient.cpp:40-83 | exposure happens once |
| ServerClients.ServerClient.ListProtocols | src/core/message/MessageParser.cpp:93-103 | the list sent is `name@version` of the exposed implementations, in registration order |
| ServerClients.ServerClient.CreateObject | src/core/server/ServerClient.cpp:131-190 | the new state: next id, table entry as far as it got, announcement or fatal error |
| ServerClients.ServerClient.DestroyObject | src/core/server/ServerClient.cpp:192-194 | the objects with the id leave, the others keep their order |
| ServerClients.ServerClient.CallObject | src/core/wireObject/IWireObject.cpp:246-547 | an incoming call, decoded from its bytes, has the specified effect: error, silence, or the listener's frame, then destruction |
| ServerClients.ServerClient.Call | src/core/wireObject/IWireObject.cpp:49-237 | an event: refused with an error if the server has no such method at the object's version or it returns an object; else its message goes to the socket, and a destructor marks the object |
| ServerClients.ServerClient.OnGeneric | src/core/server/ServerClient.cpp:214-233 | look-up and call, or a fatal error for an unknown object |
| ServerClients.ServerClient.ParseSingleMessage | src/core/message/MessageParser.cpp:63-173 | one message by its type code: its length and its effect, or 0 |
| ServerClients.ServerClient.HandleMessage | src/core/message/MessageParser.cpp:28-44 | the loop over a batch is the reference handling, verdict included |
| ServerClients.ServerClient.DispatchClient | src/core/server/ServerSocket.cpp:330-354 | what one read from the socket does to a client is the reference dispatch, the answer to the last roundtrip request included; `ServerLaws.DispatchVerdict` says which bytes that makes an error of |
| ServerSockets.ServerSocket.RecheckPollFds | src/core/server/ServerSocket.cpp:246-272 | the poll list is the internal entries followed by one entry for each client, in order |
| ServerSockets.ServerSocket.CreateClient | src/core/server/ServerSocket.cpp:209-219 | an open descriptor becomes a new client at the end of the table |
| ServerSockets.ServerSocket.AddClient | src/core/server/ServerSocket.cpp:221-230 | the same with the poll list aligned again |
| ServerSockets.ServerSocket.RemoveClient | src/core/server/ServerSocket.cpp:232-239 | exactly the clients of the descriptor leave, the others keep their order, alignment holds |
| ServerSockets.ServerSocket.DispatchNewConnections | src/core/server/ServerSocket.cpp:274-295 | a waiting connection becomes a client, alignment holds |
| ServerSockets.ServerSocket.Poll | src/core/server/ServerSocket.cpp:145-151 | poll writes what it reports to each entry and nothing else; alignment holds |
| ServerSockets.ServerSocket.DispatchReadable | src/core/server/ServerSocket.cpp:301-320 | each readable client is dispatched once against its own entry and input, the others not at all |
| ServerSockets.ServerSocket.DispatchExistingConnections | src/core/server/ServerSocket.cpp:297-328 | the round: if a dispatched client failed or hung up, the clients in error leave and the others keep their order; alignment holds after; the table, client by client with its state, is that of the reference round `RoundOf`; who keeps a place in it: `ServerRounds.SeatKept` |
| ServerSockets.ServerSocket.CreateObject | src/core/server/ServerSocket.cpp:436-449 | a child is created with its parent's protocol and version |
| ServerSockets.HealthyAreClients | src/core/server/ServerSocket.cpp:323 | what a round keeps are exactly the clients without error, each once |
| ServerSockets.FailedLeave | src/core/server/ServerSocket.cpp:316-325 | no client that was dispatched and failed is left after the round |
| ServerRounds.FailureIsFinal | src/core/server/ServerSocket.cpp:316-348 | for any bytes a client of the table sends, and any number of rounds after with clients coming and going in between: the messages handled stand at the front of the bytes and only the last of them can set the error; and if the client's error is set then, it is never at the table again |
| ServerRounds.ErrorStopsForGood | src/core/server/ServerSocket.cpp:316-348 | bytes that begin with messages of which the last sets the error, followed by anything: exactly those messages are handled, and after the round the client is never at the table again |
| ServerRounds.NeverBack | src/core/server/ServerSocket.cpp:297-328 | a client that is not at the table does not get there again |
| ServerRounds.SeatKept | src/core/server/ServerSocket.cpp:301-325 | a dispatched client keeps its place exactly if it did not hang up and its dispatch left no error |
| ServerRounds.HangupIsFinal | src/core/server/ServerSocket.cpp:309-314 | a client that is dispatched and hung up is never at the table again, whatever was read from it and whoever comes and goes after |
| ServerRounds.BytesKeepSeat | src/core/server/ServerSocket.cpp:301-354 | for any bytes: the client keeps its place exactly if it did not hang up, none of the messages at the front sets the error, they end where the last of these ends, and no descriptor is left; else it is never at the table again |
| ServerRounds.IdleStays | src/core/server/ServerSocket.cpp:301-303 | a client without error and without input keeps its place and its state |
| ServerLaws.DispatchVerdict | src/core/server/ServerSocket.cpp:330-354 | for any bytes: the messages at their front are handled, and the client's error is set then exactly if one of them set it, or the bytes do not end where the last of them ends, or a descriptor is left; in the last two cases exactly one fatal error goes out, else exactly the answer to the last request |
| ServerLaws.NoInput | src/core/server/ServerSocket.cpp:330-340 | a read that fails is an error with one fatal error sent; one that yields no bytes changes nothing |
| ServerLaws.ErrorIsTold | src/core/message/MessageParser.cpp:63-173 | whatever is read from a client: if it costs the client its place, a fatal error is among what is sent to it |
| ServerLaws.OfferedExactly | src/core/message/MessageParser.cpp:93-103 | the list sent names exactly the registered protocols whose names are exposed to the client, with their versions |
| ServerLaws.CreateVerdict | src/core/server/ServerClient.cpp:131-190 | a request is granted exactly if the protocol is exposed, it has the type, and the version is not newer; granted, it is announced under the next id; refused, a fatal error with that id goes out and the error is set; either way the id is used up |
| ServerLaws.CreatedEntry | src/core/server/ServerClient.cpp:131-190 | the new object is of the first type of the name in the first protocol of the name, at the version asked for |
| ServerLaws.CallVerdict | src/core/wireObject/IWireObject.cpp:246-547 | a call of a client: wrong, exactly a fatal error in the object's name and nothing else; right, the listener, if there is one, gets a frame that reads back to the arguments in front, nothing is sent, and the object leaves exactly if the method is a destructor |
| ServerLaws.UnknownVerdict | src/core/server/ServerClient.cpp:214-233 | a call for an id no object of the table has is a fatal error with that id, and nothing else happens |
| ServerLaws.ListenerHears | src/core/wireObject/IWireObject.cpp:246-264 | a listener that was registered is called by a right call |
| ServerLaws.EventVerdict | src/core/wireObject/IWireObject.cpp:49-237 | a call of the application: refused exactly for a missing method, one too new for the object, or one that returns an object, with a fatal error; else exactly its message goes out and a destructor marks the object |
| ServerLaws.MarshallableExactly | src/core/wireObject/IWireObject.cpp:112-209 | of arguments within the limits only an array of sequence numbers cannot be marshalled |
| ServerSafety.ExposureSafety | src/core/server/ServerClient.cpp:131-190 | whatever a client sends and the application does: while there is no error, every object is of a registered protocol that passes the filter, in a version it has, and nothing exists before the first SUP |
| ServerSafety.AfterKeepsExposure | src/core/server/ServerClient.cpp:40-56 | the exposed list is empty before the first SUP and the filtered names ever after |
| ServerSafety.ExposedExactly | src/core/server/ServerClient.cpp:243-261 | a name is exposed if and only if it is registered and passes the filter |
| ServerSafety.IdsDistinct | src/core/server/ServerClient.cpp:131-136 | ids are nonzero, pairwise distinct and below the counter, in every run that does not exhaust 32 bits |
| ServerSafety.GoneForever | src/core/server/ServerClient.cpp:192-194 | an id given out and no longer in the table never comes back |
| ServerSafety.DestructionIsFinal | src/core/server/ServerClient.cpp:192-233 | after a destructor was handled nothing finds the object again, and a stale call gets a fatal error |
| ServerSafety.StaleCallFails | src/core/wireObject/IWireObject.cpp:24-44 | a batch with a destructor and, later, a call of the same object ends in error whatever stands between |
| ServerSafety.LateCallFails | src/core/server/ServerClient.cpp:192-233 | a client that is heard to call a destructor and later the same object ends in error, whatever else it sends and whatever the application creates, calls or listens to in between |
| ServerSafety.AfterTyped | src/core/server/ServerClient.cpp:131-136 | an id given out never comes to stand for an object of another type |
| ServerSafety.ErrorStop | src/core/message/MessageParser.cpp:30-36 | the message that sets the error is the last with an effect, in its batch and in any later one |
| ServerSafety.HandleAllSplit | src/core/message/MessageParser.cpp:28-44 | handling a list in pieces is handling the whole |
| Dispatch.ServerBatchHandles | src/core/message/MessageParser.cpp:28-44 | the loop over the bytes of a batch is handling its messages in order up to the first error |
| Dispatch.DispatchHandles | src/core/server/ServerSocket.cpp:342-353 | a batch handled without error ends with the answer to its last roundtrip request |
| Dispatch.BytesHandled | src/core/message/MessageParser.cpp:28-44 | on arbitrary bytes the loop handles messages that stand at their front, none behind the first that sets the error; all else it may do is to set the error |
| Dispatch.ClientBatchHandles | src/core/message/MessageParser.cpp:46-61 | the client's loop over the bytes of a batch is handling its messages in order |
| ClientSockets.ClientSocket.constructor | src/core/client/ClientSocket.cpp:89-103 | an open socket has sent its greeting and nothing else |
| ClientSockets.ClientSocket.SendMessage | src/core/client/ClientSocket.cpp:193-238 | the bytes given to the socket stay the encoding of the messages sent; nothing is sent once it is closed |
| ClientSockets.ClientSocket.OnSeq | src/core/client/ClientSocket.cpp:281-290 | the first object with the number gets the id |
| ClientSockets.ClientSocket.BindProtocol | src/core/client/ClientSocket.cpp:292-313 | a new object with the next number, the bind message, and the wait, which comes back only once the object has its id, or there was an error, or no reports are left, and takes no report after; a version too new disconnects |
| ClientSockets.ClientSocket.AwaitObject | src/core/client/ClientSocket.cpp:343-349 | the loop dispatches until the object has its id or there is an error, and no longer |
| ClientSockets.ClientSocket.MakeObject | src/core/client/ClientSocket.cpp:315-341 | the first matching type of the first matching protocol, at version 0, or no object |
| ClientSockets.ClientSocket.CallOn | src/core/wireObject/IWireObject.cpp:58-237 | marshalled with a fresh number if the method returns an object, then sent or kept back |
| ClientSockets.ClientSocket.Call | src/core/wireObject/IWireObject.cpp:49-237 | checks first; a destructor marks the object even if the message is kept back |
| ClientSockets.ClientSocket.Farewell | src/core/client/ClientObject.cpp:20-47 | the loop finds the first destructor the version allows and calls it, unless it needs arguments or returns an object; by positions: `Farewells.CollectSays` |
| ClientSockets.ClientSocket.CollectOrphanedObjects | src/core/client/ClientSocket.cpp:374-389 | objects with an id that nobody holds leave and say farewell |
| ClientSockets.FarewellBlind | src/core/client/ClientObject.cpp:20-47 | a farewell neither looks at the table nor changes it, so its place within the removal does not matter |
| ClientSockets.ClientSocket.DestroyObject | src/core/client/ClientSocket.cpp:370-372 | the objects with the id leave, the others keep their order |
| ClientSockets.ClientSocket.OnGeneric | src/core/client/ClientSocket.cpp:351-368 | look-up and call, or disconnection for an unknown object |
| ClientSockets.ClientSocket.ServerSpecs | src/core/client/ClientSocket.cpp:244-256 | the specs in front of the first string that does not parse are kept; the handshake counts as done in either case |
| ClientSockets.ClientSocket.ParseSingleMessage | src/core/message/MessageParser.cpp:175-284 | one message by its type code: its length and its effect, or 0; which messages end the connection: `ClientLaws.HandleVerdict`, and what a fatal error does: `ClientLaws.FatalIsFinal` |
| ClientSockets.ClientSocket.HandleMessage | src/core/message/MessageParser.cpp:46-61 | the loop goes on after an error, until a message does not parse |
| ClientSockets.ClientSocket.FlushOne | src/core/client/ClientSocket.cpp:173-186 | a kept-back message is dropped, kept, or given its id and sent |
| ClientSockets.ClientSocket.Flush | src/core/client/ClientSocket.cpp:173-186 | all kept-back messages, in order |
| ClientSockets.ClientSocket.DispatchEvents | src/core/client/ClientSocket.cpp:118-191 | one dispatch: refused after an error, collection of orphans before and after, handling and flush of what was read, and the result it returns |
| ClientSockets.ClientSocket.Roundtrip | src/core/client/ClientSocket.cpp:412-423 | nothing after an error; else a request with the next number, and a wait that comes back only once it is acknowledged, or a dispatch failed, or no reports are left, and takes no report once it is acknowledged |
| ClientSockets.ClientSocket.WaitForHandshake | src/core/client/ClientSocket.cpp:258-267 | comes back only once the handshake is done, or there is an error, or a dispatch failed, or no reports are left, takes no report after, and returns whether there is no error |
| Waits.AnswerWaited | src/core/client/ClientSocket.cpp:419-422 | the wait has dispatched on the first reports and on no others; before each the request was not acknowledged and all dispatches had succeeded; at the end it is acknowledged, or the last dispatch failed, or no reports are left |
| Waits.ObjectWaited | src/core/client/ClientSocket.cpp:343-349 | the same for an object's id |
| Waits.HandshakeWaited | src/core/client/ClientSocket.cpp:258-267 | the same for the handshake |
| ClientLaws.HandleVerdict | src/core/message/MessageParser.cpp:175-284 | a message leaves the client in error, or is refused, exactly if it was in error or the message is a greeting without version 1, a list with a bad string, an event for an id not in the table, a fatal error, or of a kind only clients send |
| ClientLaws.GreetingVerdict | src/core/message/MessageParser.cpp:184-201 | a greeting with version 1 is acknowledged once; any other is refused without a word |
| ClientLaws.ProtocolsVerdict | src/core/client/ClientSocket.cpp:244-256 | the client learns the strings up to the first bad one, which costs it the connection; the handshake counts as done in either case |
| ClientLaws.AnnouncementVerdict | src/core/client/ClientSocket.cpp:281-290 | the first object with the number gets the id, nothing else changes |
| ClientLaws.EventVerdict | src/core/wireObject/IWireObject.cpp:246-547 | an event for an object of the table: wrong, no effect at all; right, the listener, if there is one, gets a frame that reads back to the arguments in front, and the object leaves exactly if the method is a destructor |
| ClientLaws.ListenerHears | src/core/wireObject/IWireObject.cpp:246-264 | a listener that was registered is called by a right event |
| ClientLaws.OtherVerdicts | src/core/message/MessageParser.cpp:175-284 | an answer is noted and nothing else; a fatal error sets the error; kinds only clients send set it and are refused; an event for an id no object of the table has costs the connection |
| ClientLaws.BytesVerdict | src/core/client/ClientSocket.cpp:118-191 | for any bytes: the messages at their front are handled; the batch ends with flush and collection if none was refused, the bytes end where the last of them ends, and no descriptor is left, and with disconnection otherwise; the result is true exactly if there is no error |
| ClientLaws.ReportVerdicts | src/core/client/ClientSocket.cpp:118-163 | the other reports: after an error nothing happens; a failed read disconnects; a read without bytes, or nothing to read with the other end gone, returns false; with nothing to read orphans are let go of |
| ClientLaws.OrphansLeave | src/core/client/ClientSocket.cpp:374-389 | after a dispatch that succeeds the table holds no object that has an id and no holder |
| ClientLaws.FatalIsFinal | src/core/message/MessageParser.cpp:253-259 | a client that reads messages with a fatal error among them, whatever bytes and descriptors follow, ends in error and its dispatch returns false; from then on no dispatch and no roundtrip has any effect |
| ClientLaws.ServerEndsClient | src/core/message/MessageParser.cpp:253-259 | both ends: whatever was read from a client, if it costs the client its place, a client that reads what the server has sent is in error and its dispatch returns false |
| ClientLaws.CallVerdict | src/core/wireObject/IWireObject.cpp:49-237 | a call of the application: without effect if the object's version has no such method; else exactly its message, the new number in front if the method returns an object, is sent, or kept back while the object has no id; a destructor marks its object |
| ClientLaws.ChildVerdict | src/core/client/ClientSocket.cpp:315-341 | a call that returns an object makes one of the first type of the name in the first protocol of the name, without id, at version 0 |
| ClientLaws.KnownChild | src/core/client/ClientSocket.cpp:315-341 | and only if the client knows that type |
| ClientLaws.BindVerdict | src/core/client/ClientSocket.cpp:292-313 | a bind newer than the protocol disconnects and sends nothing; any other adds an object with the next number and sends its request |
| Farewells.CollectSays | src/core/client/ClientObject.cpp:20-47 | by positions: exactly the objects with an id that nobody holds leave the table, and of these exactly those not destroyed whose first destructor at their version neither takes arguments nor returns an object call it, in table order, while the connection is open |
| Farewells.HeldStays | src/core/client/ClientSocket.cpp:374-389 | whether an object stays in the table depends only on its id and on whether somebody holds it |
| Farewells.SurvivorsOrder | src/core/client/ClientSocket.cpp:374-389 | what stays in the table keeps its order |
| Farewells.OrphanIsGone | src/core/client/ClientObject.cpp:20-47 | from every reachable state: such an object's call is in the client's log after the collection, and however the run goes on, once the server has taken it the object is not in its table |
| ClientSockets.KeptResolves | src/core/client/ClientSocket.cpp:182-184 | the kept bytes, resolved, are those of the call on the real id |
| SessionSafety.StepKeeps | src/core/message/MessageParser.cpp:63-284 | every honest step of either side keeps the invariant |
| SessionSafety.RunKeeps | src/core/message/MessageParser.cpp:63-284 | so does every honest run |
| SessionTheorems.HonestRunsNeverFail | src/core/server/ServerClient.cpp:131-233 | in no honest run does the server set its error or send a fatal error |
| SessionTheorems.CallsArrive | src/core/wireObject/IWireObject.cpp:246-374 | the next call finds a living object of the type that was called, passes method, version and type checks, and reaches its listener with exactly the arguments sent |
| SessionTheorems.BatchesArrive | src/core/message/MessageParser.cpp:28-44 | any number of the messages under way, received as the bytes of one batch, are cut back exactly and dispatched without error |
| SessionTheorems.EventsArrive | src/core/message/MessageParser.cpp:46-61 | any number of the server's messages under way, received as the bytes of one batch, are cut back exactly |
| Deliveries.EventsDispatched | src/core/client/ClientSocket.cpp:118-191 | dispatching those bytes is reading the messages one by one, as steps of the run, and then ending the batch |
| SessionTheorems.IdsAreAssigned | src/core/client/ClientSocket.cpp:281-310 | client numbers are counted, and an object's id is one the server announced for that number |
| SessionTheorems.IdsInjective | src/core/client/ClientSocket.cpp:281-310 | no two client objects share a number or an id |
| SessionTheorems.TwinsAgree | src/core/server/ServerSocket.cpp:436-449 | the two halves of an object agree on type and protocol, and the client's version is not newer |
| SessionTheorems.EventReaches | src/core/client/ClientSocket.cpp:351-368 | in every reachable state the next event belongs to an object announced before; if its id is in the client's table, error flag and connection stay as they are, method and argument types are right, and a registered listener gets exactly the arguments sent if and only if the client's own version has the method, else nothing happens; if it is not, the client disconnects |
| ClientLosses.StepCosts | src/core/client/ClientSocket.cpp:351-368 | of all honest steps only the reading of an event whose id is not in the client's table costs the client its connection and sets its error; every other step leaves both as they are |
| ClientLosses.ClientLossCondition | src/core/client/ClientSocket.cpp:351-368 | an honest run leaves the client in error, or without its connection, if and only if somewhere in it such an event was read |
| ClientLosses.WhyLost | src/core/client/ClientSocket.cpp:281-341 | the event's id was announced for a number; it is missing from the table if and only if no object has the number, or the object that has it got another id |
| SessionTheorems.DestructorIsLast | src/core/client/ClientObject.cpp:20-44 | behind an object's destructor the client sends nothing for it, be it called, kept back, or sent by an orphan |
| SessionTheorems.FlagsAreRight | src/core/wireObject/IWireObject.cpp:78-79 | the log marks as destructors exactly the calls of destructor methods |
| SessionTheorems.DestructorIsGone | src/core/wireObject/IWireObject.cpp:24-44 | a destructor the server has taken has removed the object |
| SessionTheorems.HandshakeAgreement | src/core/message/MessageParser.cpp:67-106 | when the client takes the handshake for done, the server has recorded version 1 and the client's spec list is what the server exposes, in order |
| SessionTheorems.RoundtripBarrier | src/core/client/ClientSocket.cpp:412-423 | once a request is acknowledged, the server has taken every message before it and the client has read all the server had sent by then |
| SessionTheorems.AckedWithinSent | src/core/message/MessageParser.cpp:265-277 | the acknowledged number never exceeds the last one sent |
| SessionTheorems.AckedNeverFalls | src/core/message/MessageParser.cpp:265-277 | nor does it ever fall |
| SessionTheorems.AnswersRise | src/core/server/ServerSocket.cpp:350-353 | the numbers of the server's answers rise, so no request is answered twice |
| WaitedRuns.DispatchIsRun | src/core/client/ClientSocket.cpp:118-191 | a dispatch, with nothing to read or with any number of messages, is a piece of an honest run, and returns whether the client has no error |
| WaitedRuns.RoundtripReturns | src/core/client/ClientSocket.cpp:412-423 | from every reachable state, whatever the server does in between: `roundtrip` has made its request and comes back where an honest run leads, because the request is acknowledged, or the client read an event that cost it the connection, or all that was delivered is read without an answer in it; acknowledged, the server has taken the request and the client has read all it had sent by then |
| WaitedRuns.BindReturns | src/core/client/ClientSocket.cpp:292-313 | the same for `bindProtocol`: it comes back because the new object has its id, or the client read an event that cost it the connection, or all that was delivered is read and no announcement for the object is in it |
| Identities.RunGives | src/core/client/ClientSocket.cpp:281-310 | over every honest run: an object's id is never taken back, and once the announcement for a number is read no object with the number is without id |
| Deferred.FlushFate | src/core/client/ClientSocket.cpp:173-186 | object by object, kept-back calls go out once each in order to the object's id, stay in order while there is none, or are dropped only if the object is gone |
| Deferred.DeferredCalls | src/core/wireObject/IWireObject.cpp:215-234 | over whole runs: between dispatches a call is kept back only for an object in the table without id, and the calls of every object stay in the order they were made unless a listener overtook some |
| Deferred.OvertakingCondition | src/core/client/ClientSocket.cpp:165-186 | from every reachable state: the server fails on what is unread of the client's log after a destructor call on an object with an id and the end of the batch, if and only if a call of the object is still kept back; and exactly then a call stands behind its object's destructor in the log |
| Deferred.OvertakingFails | src/core/client/ClientSocket.cpp:165-186 | after a destructor that overtook, however the batch goes on: if the object still has its id in the client's table when the batch is over, the server ends in error whatever its application does and whatever the client sends after |
| Deferred.OvertakingReorders | src/core/wireObject/IWireObject.cpp:215-234 | a call that overtakes loses the order in which the object's calls were made, unless all of them are the same call |
| Scenarios.OvertakingHappens | src/core/client/ClientSocket.cpp:165-186 | an honest run reaches a state in which a listener's destructor call overtakes, and the server fails on the result |
| Scenarios.OrderLost | src/core/client/ClientSocket.cpp:165-186 | an honest run reaches a state in which an honest call overtakes and the order is lost |
| Scenarios.EventDropped | src/core/client/ClientSocket.cpp:338 | an honest run in which an event of version 1 is dropped by a listening client, whose half of the child has version 0 |
| Scenarios.EventTooLate | src/core/client/ClientSocket.cpp:351-389 | an honest run in which an event finds its object collected and the client disconnects |
| Scenarios.EventRenamed | src/core/client/ClientSocket.cpp:281-290 | an honest run in which a request is answered twice, and the client disconnects over an event for the first id, although it holds the object |
| Progress.HandshakeCompletes | src/core/client/ClientSocket.cpp:258-267 | four dispatches complete the handshake whatever is registered |
| Progress.BindIsAnswered | src/core/client/ClientSocket.cpp:343-349 | on an idle connection a bind is answered with the next id |
| Progress.RoundtripIsAnswered | src/core/client/ClientSocket.cpp:412-423 | on an idle connection a roundtrip request is answered and acknowledged |
| Answers.BindGetsAnswered | src/core/client/ClientSocket.cpp:292-313 | from every reachable state without error, however much is under way: some honest run that makes a bind ends with the object having its id and the server having its other half |
| Answers.RoundtripGetsAnswered | src/core/client/ClientSocket.cpp:412-423 | from every reachable state without error, however much is under way: some honest run that makes a roundtrip request ends with its acknowledgement |

## Left out

- Sockets, sendmsg and recvmsg, partial sends, buffer and descriptor limits of the kernel, timeouts (also that of the handshake), process ids, paths: a channel delivers whole messages with their descriptors, in batches of any size.
- The poll thread with its mutexes and condition variable, `dispatchPending` and its repetition, event and wakeup descriptors.
- libffi, va_list, malloc and pointer lifetimes: a call is a list of typed values, floats are their 32 bits.
- Host byte order: little-endian.
- VarInt.ParseVarInt: a number cut off by the end of the buffer or longer than four groups is a rejection, where the source returns a partial or overflowing sum; the overload that takes an offset behind the end is a rejection too.
- Reads outside the received bytes, and spans longer than them: rejections.
- Strings with NUL bytes: a string is its bytes.
- Texts of fatal errors: empty; the `error` of a client object has no effect in the source and none here.
- CServerObject, CClientObject: entries of the tables are values replaced in place, so a reference the application keeps to an object that left the table is not modelled; `held` stands for there being one.
- ClientSockets.ClientSocket.CollectOrphanedObjects: the farewells come in table order, which is the order in which `erase_if` lets go of the entries, but after the whole removal instead of within it; `ClientSockets.FarewellBlind` shows that this makes no difference to them.
- ClientSockets.ClientSocket.BindProtocol: when the reports of poll given to it run out, it comes back without the id, where the source would go on waiting.
- ClientSockets.ClientSocket.Roundtrip: the same, without the acknowledgement.
- A listener runs after the removal of an object by the destructor it listens to, in the source before; what a listener does in reaction is a step of the session between two messages, the classes record that it was called.
- Listeners that re-enter a dispatch or change the client table during it.
- ServerClients.ServerClient.DispatchFirstPoll: the new-client handler is represented by the filter it may set.
- Implementations are fixed before clients connect.
- Method descriptions the code generator does not produce: parameter lists with END in them or ending in ARRAY, and, on the client, methods not numbered by position. The source reads past the list or calls another method there; the classes require their absence (`ServerClients.AllServable`, `ClientSockets.AllUsable`).
- `setOnDestroy` callbacks, `setData`, logging, tracing, `parseData`, environment, the code generator in `scanner/`.
- HELLO, HANDSHAKE_ACK, NEW_OBJECT, ROUNDTRIP_REQUEST and ROUNDTRIP_DONE have no method of their own; their fixed layouts are part of `Messages.ReadMessageEncoded`.
