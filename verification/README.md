# DOTS: a replicated object cache, modelled and proved

DOTS keeps one container of keyed, partially updatable instances per type at a host and mirrors it
at any number of guests. This project models that system and proves what it promises, from the
bytes on a stream up to the contents of the containers.

| file | what it models |
|---|---|
| `Replica.dfy` | a container as a value: partial updates, narrowed transmissions, snapshots |
| `Container.dfy` | the container of one type, updated in place |
| `HostState.dfy`, `HostTransceiver.dfy` | the host: publishing, forwarding, joins, clearing, and the cascade of failing connections and cleanups |
| `Convergence.dfy`, `HostExamples.dfy` | what the host's invariant means for its guests: convergence, prefix consistency, preload completeness; and states that show what it leaves open |
| `Handshake.dfy`, `Connection.dfy` | both ends of a connection as a pair of state machines over two queues, and one end in place |
| `Preloading.dfy` | the handshake joined to the host's containers: what a connected guest holds |
| `Dispatch.dfy`, `Dispatcher.dfy` | handlers that add and remove handlers while they are being called, and what subscribers see |
| `Cbor.dfy`, `CborRoundTrip.dfy`, `CborStandard.dfy`, `CborStream.dfy` | nested values on the wire, round trips, skipping, the bytes of section 3 of RFC 8949, writer and reader in place |
| `Frames.dfy`, `StreamReader.dfy`, `StreamWriter.dfy` | frames of a stream in format version 2, reassembly from any chunks, double-buffered writing and the shared payload cache |
| `Types.dfy`, `Registry.dfy`, `TypeExport.dfy`, `TypeChannel.dfy` | descriptors, their registration, and their exchange between two ends |
| `StructAlgebra.dfy`, `DynamicStruct.dfy` | copying, merging, differences and the order of structs; static folds against dynamic loops |
| `Layout.dfy` | offsets of dynamic structs and paths through nested ones |

## How the host is modelled

A guest's queue is never thrown away: `sent` lists every message its channel took, so what a guest
that has read the first n of them holds is the fold of `sent[..n]`, and the rest is under way. Which
transmits fail is an arbitrary function of guest and attempt, so every pattern of failing
connections is covered. `past` lists every content the host's pool ever had.

The convergence laws hold under these hypotheses:

- A guest that left a group may join it again, but is then no longer claimed to converge
  (`astray`): `Replica.RejoinKeepsRemoved` gives an instance that stays for good, and
  `Replica.SnapshotExact` says exactly when a snapshot is enough.
- A host publish whose property set is narrower than the valid properties of a new instance leaves
  host and members apart, because the host stores the whole instance: `Replica.WireFaithful` gives
  the exact condition, and the members of that moment become `astray`. The same goes for a guest
  that publishes properties outside its attributes, which this code never does.
- What guests publish is of a registered type that is not substruct-only. The type of clear-cache
  requests itself is not cached.
- No host handler publishes, because dispatching comes before forwarding.

## Findings

- `lib/include/dots/serialization/formats/CborReader.h:210-232`: skipping an item whose length does
  not fit its first byte reads the bytes of the length and then consumes as many once more. A
  receiver that does not know a text of 24 bytes or more therefore misreads what follows
  (`CborRoundTrip.UnknownText`, `CborRoundTrip.SkipBytes`).
- `lib/src/io/Channel.cpp:81-86`: a transmission that is passed on exports only what a description
  inside it is about, never the type of the instance itself, unlike the other overload. The receiver
  reads it if and only if the type was registered there or under way already
  (`TypeChannels.PassedOnIsRead`), and fails otherwise (`TypeChannels.PassedOnFails`); what is sent
  by the other overload is always read (`TypeChannels.SentIsRead`).
- `lib/src/Connection.cpp:339-354`: the guest ignores whether it was accepted; every rejected guest
  that stays open preloads and waits (`Handshake.RejectedPreloads`), though none becomes connected
  (`Handshake.RejectedNeverConnects`).
- `lib/src/GuestTransceiver.cpp:62-97`: a publish before the hello arrived makes the host drop the
  connection (`Handshake.EarlyPublish`).
- `lib/src/HostTransceiver.cpp:295-318`: clearing collects pointers to instances first. If removing
  one makes a guest fail whose cleanup removes another collected one, that pointer dangles. The
  model skips such an instance and reports it as `gone`. That cannot happen if no named cleanup
  container holds an instance last updated by an open guest, and it does happen if such a guest is
  to be told of an earlier removal and its channel refuses
  (`HostTransceivers.HostTransceiver.HandleClearCache`); with two instances of such a guest it
  happens in every order (`HostExamples.ClearOwned`).
- `lib/include/dots/type/TypeVisitor.h:45-51`: the visiting level is not taken back by an exception,
  so a deserializer that is used again ignores its included set
  (`CborStream.CborReader.Deserialize`, `CborStream.ReadTwice`); `CborStream.UsedAgain` says exactly
  when the result differs.
- `lib/src/HostTransceiver.cpp:107-113`: a guest whose channel refused a message may, before it is
  closed, still be sent removals from the cleanup of other guests, and then holds what the host
  never had (`HostExamples.RefusedThenServed`).
- `lib/include/dots/Dispatcher.h:110-114` promises that a new transmission handler is called with
  each contained instance; `lib/src/Dispatcher.cpp:47-54` does not do that. The model follows the
  code: `Dispatchers.Dispatcher.AddHandler` leaves the log of such a handler empty.

## Model

| member | source | states |
|---|---|---|
| Convergence.Converges | lib/src/HostTransceiver.cpp:142-179 | However far an open member of a cached type has read, folding the messages still under way to it into its container gives exactly the host's container: instances, last updater and time. |
| Convergence.PrefixConsistent | lib/src/HostTransceiver.cpp:249-263 | After an end marker has been consumed, every later container of the guest is one the host had at some point, and these points never go back. From the first message its channel refused, instances may be missing from it, and that guest is closed when the request has been handled. |
| Preloading.ConnectedComplete | lib/src/GuestTransceiver.cpp:129-149 | For every connected guest of a reachable handshake and every run of its host: for each type it subscribes to, what it holds on consuming the end of the preloading is exactly the host's container of the moment that was sent, unless its channel had failed or the pair had gone astray by then. That it joined before and left none in between is derived from the handshake. |
| Convergence.PreloadCompleteness | lib/src/GuestTransceiver.cpp:129-149 | In every run of requests, a guest that joined a cached type before its preloading ended holds, on consuming the end of the preloading, exactly the host's container of the moment it was sent. |
| Convergence.ClosedIsForgotten | lib/src/HostTransceiver.cpp:181-220 | A closed guest is in no group, and no cleanup container holds an instance it updated last. |
| HostExamples.RefusedThenServed | lib/src/HostTransceiver.cpp:107-113 | Missing instances cannot be ruled out: in a state that keeps the invariant a guest that refused one message and then got the removal of another instance holds, past an end marker, what the host never had. |
| Convergence.StaysMember | lib/src/HostTransceiver.cpp:222-265 | A member of a group stays one through any run in which it neither leaves nor closes. |
| Convergence.SentGrows | lib/src/HostTransceiver.cpp:87-114 | In any run the messages taken by a channel only grow at the end. |
| Convergence.OtherMoves | lib/src/HostTransceiver.cpp:40-75 | A publish of the host, the arrival of a guest, and a guest that fails or leaves by itself are steps of such runs. |
| Replica.UpdateComposition | lib/src/Container.cpp:223-265 | Any sequence of partial updates to one instance equals one update whose property set is the union and in which later updates win. |
| Replica.UpdateTwice | lib/src/Container.cpp:223-265 | Two partial updates in a row equal one combined update. |
| Replica.CombineIncludes | lib/src/Container.cpp:223-265 | The combined update includes exactly the properties some update included. |
| Replica.UpdateKeepsKey | lib/src/Container.cpp:158-172 | An update never changes the key properties of an instance. |
| Replica.ApplyKeepsKeyed | lib/src/Container.cpp:138-191 | Inserting and removing keep every instance under its own key. |
| Replica.ApplyKeepsDescribed | lib/src/Container.cpp:138-191 | Inserting and removing keep the key properties valid and all properties inside the descriptor. |
| Replica.WireFaithful | lib/src/HostTransceiver.cpp:52-74 | Applying a transmission cut down to its attributes ends where applying the whole instance ends if and only if it removes, or updates a known instance, or includes every valid property. |
| Replica.SnapshotExact | lib/src/HostTransceiver.cpp:330-353 | A replica that consumes a whole snapshot of the host's container holds exactly that container if and only if it knew no other key and no other valid property before. |
| Replica.SnapshotCounts | lib/src/HostTransceiver.cpp:343-352 | Every snapshot message is a whole entry with all its valid properties, under the sender and time of its last update, and counts the messages still to come. |
| Replica.UpdateReplaces | lib/src/Container.cpp:223-265 | After a partial update the included plain properties are those of the update, valid or not, and all others, keys included, are as before. |
| Replica.SnapshotOverlays | lib/src/HostTransceiver.cpp:343-352 | After the first n snapshot messages the replica holds the first n entries laid over what it had. |
| Replica.OverlayAllExact | lib/src/Container.cpp:158-172 | Laying all entries over a replica gives the host's container if and only if they cover what the replica had. |
| Replica.OverlaySelf | lib/src/HostTransceiver.cpp:249-252 | A replica that already mirrors the container is left alone by every snapshot entry, so a repeated join does no harm. |
| Replica.RejoinKeepsRemoved | lib/src/GuestTransceiver.cpp:99-121 | Leaving and joining again does not converge: an instance removed in between stays with the guest. |
| HostState.SendKeeps | lib/src/HostTransceiver.cpp:92-105 | Handing one message to one open guest keeps the whole invariant, whether or not the channel takes it. |
| HostState.DispatchKeeps | lib/src/HostTransceiver.cpp:175-176 | Updating the container before forwarding keeps the invariant for everyone but the members that still have to be served. |
| HostState.ShutKeeps | lib/src/HostTransceiver.cpp:185-190 | Closing a guest and taking it out of all groups keeps the invariant, with its cleanup under way. |
| HostState.CleanupDone | lib/src/HostTransceiver.cpp:192-213 | Once what a closed guest updated last has been removed, its cleanup is over. |
| HostState.AfterTrans | lib/src/HostTransceiver.cpp:87-114 | Cascades compose: removed entries, closed guests and the cleanups they cause add up. |
| HostState.CloseAfter | lib/src/HostTransceiver.cpp:185-213 | Closing a guest and its cleanup, in whatever cascade, is itself one such cascade. |
| HostState.JoinKeeps | lib/src/HostTransceiver.cpp:240-252 | Putting a guest into a group keeps the invariant for all others. |
| HostState.LeaveKeeps | lib/src/HostTransceiver.cpp:231-237 | Leaving a group keeps the invariant; the pair is no longer claimed to converge. |
| HostState.AfterRemains | lib/src/HostTransceiver.cpp:181-220 | Through any cascade guests keep what they were sent, closed ones stay closed, and open ones stay in their groups. |
| HostState.AfterExact | lib/src/HostTransceiver.cpp:181-220 | A cascade takes away exactly the entries that were to be removed and, of cleanup types, those last updated by a guest that was closed on the way; every other entry is left as it was. |
| HostTransceivers.HostTransceiver.Publish | lib/src/HostTransceiver.cpp:40-75 | A host publish is refused for exactly the three reasons of the code. Otherwise its header names exactly the properties that are keys or were asked for, or the valid ones; the members get the instance narrowed to these or are closed; afterwards the named plain properties of a known entry are those of the instance, valid or not, and all others are as before; and nobody goes astray over a known entry. |
| HostTransceivers.HostTransceiver.Transmit | lib/src/HostTransceiver.cpp:87-114 | Every member gets the transmission or is closed; failing guests are collected first, and the cascade of closes and cleanups ends. |
| HostTransceivers.HostTransceiver.Forward | lib/src/HostTransceiver.cpp:92-105 | The sending loop: who took the message, who refused it. |
| HostTransceivers.HostTransceiver.HandleError | lib/src/Connection.cpp:203-229 | A failing guest is sent the error exactly if it was connected and its channel takes it, gets nothing more, is closed, and its cleanup cascade ends with the invariant restored. |
| HostTransceivers.HostTransceiver.HandleClose | lib/src/Connection.cpp:307-312 | Closing a guest runs its cleanup, and this terminates because fewer guests stay open. |
| HostTransceivers.HostTransceiver.HandleTransition | lib/src/HostTransceiver.cpp:181-220 | The closed guest leaves every group; exactly the cleanup instances it updated last, and those of guests closed on the way, are removed. |
| HostTransceivers.HostTransceiver.CollectCleanup | lib/src/HostTransceiver.cpp:192-206 | Exactly the cleanup instances the guest updated last are collected. |
| HostTransceivers.HostTransceiver.Remove | lib/src/Transceiver.cpp:169-172 | Removing an instance dispatches and transmits its removal; only its entry and those of guests closed on the way go. |
| HostTransceivers.HostTransceiver.Dispatch | lib/src/Dispatcher.cpp:144-182 | The container part of a dispatch; only removing an uncached instance fails. |
| HostTransceivers.HostTransceiver.TransmitContainer | lib/src/HostTransceiver.cpp:330-353 | A snapshot sends every entry once, counts down to zero, and stops where the channel refuses. |
| HostTransceivers.HostTransceiver.Serve | lib/src/HostTransceiver.cpp:251-263 | After container content and end marker the guest holds the host's container. |
| HostTransceivers.HostTransceiver.HandleJoin | lib/src/HostTransceiver.cpp:238-263 | A join, first or repeated, makes the guest a member that was sent a full snapshot and an end marker, or closes it. |
| HostTransceivers.HostTransceiver.HandleLeave | lib/src/HostTransceiver.cpp:231-237 | A leave takes the guest out of the group, known or not. |
| HostTransceivers.HostTransceiver.HandleClearCache | lib/src/HostTransceiver.cpp:295-318 | Everything in the named containers is removed, plus the cleanups of guests closed on the way. A collected instance is gone before its turn only if a named cleanup container held, before the call, one last updated by an open guest; and it is gone whenever, in the order visited, something of its type goes first and the guest that updated it last is to be told and refuses. |
| HostExamples.ClearOwned | lib/src/HostTransceiver.cpp:303-315 | If the only named container holds two instances of a member whose channel refuses, a pointer dangles in whatever order they are visited. |
| HostExamples.OwnedTwice | lib/src/HostTransceiver.cpp:303-315 | Any order that lists two instances of such a member has one before the other. |
| HostExamples.OwnedTwiceBefore | lib/src/HostTransceiver.cpp:303-315 | There is a state that keeps the invariant with two such instances. |
| HostTransceivers.HostTransceiver.AnnounceCleared | lib/src/HostTransceiver.cpp:164-178 | The clear request itself goes, under the id of its sender, to everyone who subscribed to its type and is still there; one marked as a removal closes the sender. |
| HostTransceivers.HostTransceiver.HandleData | lib/src/HostTransceiver.cpp:175-178 | A guest's publish is stamped with its id, dispatched and forwarded; missing keys or an uncached removal close the guest. The entry then is as the publish says, properties outside its attributes as before. Such properties stay at the host, and members that would need them go astray. |
| HostTransceivers.HostTransceiver.HandlePreloadClientFinished | lib/src/Connection.cpp:395-411 | The end of preloading goes out only from early subscribe, and at that moment every joined cached type of the guest folds to the host's container. |
| HostTransceivers.HostTransceiver.HandleRequest | lib/src/HostTransceiver.cpp:142-179 | Every request keeps the invariant, leaves other memberships alone, and has done what it asks for if the guest is still there. |
| HostTransceivers.HostTransceiver.Accept | lib/src/HostTransceiver.cpp:116-126 | A new guest starts with nothing sent, and the invariant holds. |
| Containers.Container.UpdateWithoutKeys | lib/src/Container.cpp:223-265 | The loop over the plain properties has the effect of the partial update; values are constructed only in dead slots and destroyed only in live ones. |
| Containers.Container.Insert | lib/src/Container.cpp:138-172 | An insertion under a known key replaces the included plain properties and nothing else, keeps when and by whom the instance was created, and notes the update; under a new key the creation is noted. It shows what the transmission means. |
| Containers.Container.Remove | lib/src/Container.cpp:174-191 | A removal takes out exactly the entry under the key, or nothing; what it returns is the entry updated once more, with when and by whom it was created. |
| Containers.InsertedShows | lib/src/Container.cpp:138-191 | What a container shows after an insertion or removal is what every replica makes of the transmission. |
| Handshake.StepKeeps | lib/src/Connection.cpp:231-312 | Every step of either end, including sends and leaving at any time, keeps the product invariant of the two state machines and both queues. |
| Handshake.NoProtocolFault | lib/src/Connection.cpp:242-303 | In every reachable state of the pair the next message raises no wrong-type, missing-property, not-connected or not-finished error at either end; the only faults are a rejected guest and a missing secret. |
| Handshake.ConnectedAgree | lib/src/Connection.cpp:339-360 | A connected guest was not rejected and its host was itself connected; from early subscribe on the guest's id is the one the host knows it by. |
| Handshake.RejectedNeverConnects | lib/src/Connection.cpp:362-373 | Once the host has rejected a guest, no run makes either end connected. |
| Handshake.RejectedPreloads | lib/src/Connection.cpp:339-348 | The guest does not look at the verdict: every open rejected guest of a reachable pair is in early subscribe exactly if nothing is under way to it, and otherwise enters it, preloading, with the next message. |
| Handshake.RejectedGuest | lib/src/Connection.cpp:339-348 | There is a reachable rejected guest in early subscribe whose preloading is under way. |
| Handshake.EarlyPublish | lib/src/GuestTransceiver.cpp:62-97 | A guest's publish can make the host fail if and only if it is sent before the guest got the hello and the host is still open. |
| Handshake.PreloadOrder | lib/src/GuestTransceiver.cpp:129-149 | Before the message that ends the preloading the host has seen, for every subscribed type, its descriptor and right after it the join, and nothing but descriptors and joins since; and the descriptor of every published type. |
| Handshake.RunKeeps | lib/src/Connection.cpp:231-312 | The invariant holds in every state of every run, and a rejection is never taken back. |
| Handshake.StartInv | lib/src/Connection.cpp:122-165 | The invariant holds once both ends have started to receive. |
| Handshake.MissingIsFault | lib/src/Connection.cpp:242-253 | A message of the expected kind fails for a missing property exactly if one of the properties that the open end expects is missing. |
| Handshake.AnswerAgrees | lib/src/Connection.cpp:339-385 | The answer to a connect carries the id, the verdict and whether there is preloading as it was asked for; a guest that takes it and a host that accepted are then in the same state. |
| Connections.Connection.Receive | lib/src/Connection.cpp:231-312 | One end in place does with a message, including what is thrown and how the channel reports it, exactly what the pair model says. |
| Connections.Connection.HandleReceive | lib/src/Connection.cpp:231-305 | Which messages are handled, ignored or thrown on, and when receiving ends. |
| Connections.Connection.HandleExpected | lib/src/Connection.cpp:251-256 | The expected handler runs; a handler that throws leaves the state as it was, except for an answer already sent. |
| Connections.Connection.HandleHello | lib/src/Connection.cpp:314-337 | The hello is answered with a connect, unless a secret is needed and missing. |
| Connections.Connection.HandleAuthorizationRequest | lib/src/Connection.cpp:339-354 | The answer sets the id; with preloading, descriptors and joins go out before the message that ends them. |
| Connections.Connection.EnterEarlySubscribe | lib/src/GuestTransceiver.cpp:133-147 | The preload loops send all descriptors of published types, then descriptor and join per subscribed type. |
| Connections.Connection.JoinGroup | lib/src/GuestTransceiver.cpp:99-109 | A group is joined once per session. |
| Connections.Connection.HandleConnect | lib/src/Connection.cpp:362-393 | The connect is answered; a rejected one throws after the answer. |
| Connections.Connection.HandlePreloadClientFinished | lib/src/Connection.cpp:395-411 | The end of preloading connects the host end and is confirmed, unless it is denied. |
| Connections.Connection.HandlePreloadFinished | lib/src/Connection.cpp:356-360 | The confirmation connects the guest end. |
| Connections.Connection.HandlePeerError | lib/src/Connection.cpp:413-427 | A peer error closes; one with a code is reported back from the connected state. |
| Connections.Connection.HandleError | lib/src/Connection.cpp:203-229 | An error is reported only from the connected state, and always closes. |
| Connections.Connection.Leave | lib/src/Connection.cpp:52-70 | Destroying a connection takes leave of a connected peer and closes. |
| Dispatchers.Dispatcher.SubscriberMirrors | lib/src/Dispatcher.cpp:56-83 | Between calls, the replayed and live events of any subscriber, whenever it was added, fold to exactly the container, and per key they form create, updates, remove, create and so on. |
| Dispatch.LegalLifecycle | lib/src/Dispatcher.cpp:144-182 | Events that are legal one by one form a proper life cycle for every key. |
| Dispatch.ReplaysFollow | lib/src/Dispatcher.cpp:63-80 | A replay in any order tells a new subscriber exactly the container's content, counting down to zero. |
| Dispatch.ReplaysShow | lib/src/Dispatcher.cpp:63-80 | Every replayed event is a creation that shows one instance of the container as it is, with all its valid properties as attributes. |
| Dispatch.CalledExactlyOnce | lib/src/Dispatcher.cpp:184-208 | In one pass no handler is called twice, higher ids come first, and only handlers from the start are called. |
| Dispatchers.Dispatcher.DispatchToHandlers | lib/src/Dispatcher.cpp:184-208 | For every script of adds and removals by the handlers: each handler there at the start and not removed before its turn is called once, in descending order, throwing or not; what happens in a turn are the actions of that handler's script for that call, in order, up to the first removal of a handler that is not there; the tables end as start plus added minus removed; callees saw the event. |
| Dispatchers.Dispatcher.CallHandlers | lib/src/Dispatcher.cpp:187-200 | The loop visits the highest remaining id below the last one and never an erased one. |
| Dispatchers.Dispatcher.EraseRemoved | lib/src/Dispatcher.cpp:202-207 | The deferred removals are erased after the loop, and nothing else. |
| Dispatchers.Dispatcher.Perform | lib/src/Dispatcher.cpp:103-127 | A handler's body does the actions of its script one by one: an add gives a new id, a removal takes effect at once except its own, and one of a handler that is not in that table ends it. |
| Dispatch.ScriptedNext | lib/src/Dispatcher.cpp:184-208 | Turns add up: if each so far played out its script, and one more handler does so from the tables they left, then all did. |
| Dispatchers.Dispatcher.AddHandler | lib/src/Dispatcher.cpp:47-83 | A new handler gets a fresh id and, as a subscriber, a replay of the container. |
| Dispatchers.Dispatcher.RemoveHandler | lib/src/Dispatcher.cpp:103-127 | Removing an unknown id fails and changes nothing; the handler being called is removed later. |
| Dispatchers.Dispatcher.AddEventHandler | lib/src/Dispatcher.cpp:56-83 | Adding a subscriber between dispatches keeps every subscriber a mirror. |
| Dispatchers.Dispatcher.RemoveEventHandler | lib/src/Dispatcher.cpp:91-95 | Removing a subscriber between dispatches keeps the others mirrors. |
| Dispatchers.Dispatcher.DispatchEvent | lib/src/Dispatcher.cpp:144-182 | The container changes before the subscribers are called; removing an unknown instance calls nobody, removing an uncached one fails. |
| Dispatchers.Dispatcher.DispatchTransmission | lib/src/Dispatcher.cpp:129-142 | Transmission handlers may add and remove subscribers; all stay mirrors of the old content. |
| Dispatchers.Dispatcher.Dispatch | lib/src/Dispatcher.cpp:97-101 | Transmission handlers have their turns before the container changes, subscribers after it, those just added or removed included; in both passes every turn plays out its script. |
| Dispatchers.Dispatcher.UpdateContainer | lib/src/Dispatcher.cpp:149-181 | One container changes as the transmission says, and the event describes that change. |
| Dispatchers.ReceivedShows | lib/src/GuestTransceiver.cpp:123-127 | The container that the dispatcher of a guest builds from the messages it received shows exactly their fold, which the convergence laws speak about. |
| Dispatchers.EventTells | lib/src/Dispatcher.cpp:144-182 | The event of a transmission takes a subscriber from the old content to the new. |
| Dispatchers.EventSays | lib/src/Dispatcher.cpp:144-182 | An event carries the transmission as it came, its attributes and cache count, and the instance with its creation data as the container had it; there is none exactly for the removal of something unknown or uncached. |
| CborRoundTrip.DecodeInverse | lib/include/dots/serialization/CborSerializer.h:23-173 | For every type and value, however nested, reading what was written gives the value and leaves exactly the bytes after it. |
| CborRoundTrip.StructInverse | lib/include/dots/serialization/CborSerializer.h:89-124 | A receiver gets exactly the included valid properties it knows and wants, if what it has to skip has short lengths, and consumes exactly what was written. |
| CborRoundTrip.EncodeInjective | lib/include/dots/serialization/CborSerializer.h:23-87 | Different values are written differently, and neither is a prefix of the other. |
| CborStandard.WritesStandard | lib/include/dots/serialization/formats/CborWriter.h:47-128 | Every value is written as the items that section 3 of RFC 8949 has for it, byte by byte, with the shortest heads. |
| CborStandard.WritesStandardStruct | lib/include/dots/serialization/CborSerializer.h:23-87 | A struct is written as a map of tags and values in that form. |
| CborStandard.HeadStandard | lib/include/dots/serialization/formats/CborWriter.h:168-187 | A head has the major type in its highest three bits and the shortest argument, highest byte first. |
| CborRoundTrip.SkipExact | lib/include/dots/serialization/formats/CborReader.h:174-269 | A value whose lengths all fit the first bytes is skipped exactly. |
| CborRoundTrip.SkipLeaf | lib/include/dots/serialization/formats/CborReader.h:210-243 | A value that is no vector or struct is skipped exactly if and only if its length fits the first byte. |
| CborRoundTrip.SkipBytes | lib/include/dots/serialization/formats/CborReader.h:210-243 | A longer string is skipped by as many bytes too many as its length has, because these are consumed twice. |
| CborRoundTrip.UnknownText | lib/include/dots/serialization/CborSerializer.h:111-120 | A receiver that does not know a text gets the property after it right if and only if the text has at most 23 bytes. |
| CborRoundTrip.LongButSkipped | lib/include/dots/serialization/formats/CborReader.h:244-255 | The reverse of `SkipExact` is false: a vector of 24 numbers can be skipped exactly by chance. |
| CborRoundTrip.LeafInverse | lib/include/dots/serialization/CborSerializer.h:133-173 | Reading a single item undoes writing it, over whatever the property held before. |
| CborRoundTrip.EnumInverse | lib/src/type/EnumDescriptor.cpp:113-161 | An enumerator's tag leads back to its value. |
| Cbor.HeadInverse | lib/include/dots/serialization/formats/CborWriter.h:168-188 | The shortest head of a number is read back as that number by every width that can hold it. |
| Cbor.BigEndianInverse | lib/include/dots/serialization/formats/CborWriter.h:143-152 | The bytes of a number, highest first, are read back as that number. |
| CborStream.CborWriter.WriteHead | lib/include/dots/serialization/formats/CborWriter.h:163-188 | The byte loop appends the shortest head. |
| CborStream.CborWriter.WriteContingentBytes | lib/include/dots/serialization/formats/CborWriter.h:143-152 | The byte loop appends the number highest byte first. |
| CborStream.CborWriter.VisitStruct | lib/include/dots/type/TypeVisitor.h:246-297 | The loop over the properties appends the count and exactly the included valid ones; the visiting level returns to where it was. |
| CborStream.CborWriter.VisitVector | lib/include/dots/type/TypeVisitor.h:322-367 | The loop over the elements appends the size and every element in order. |
| CborStream.CborWriter.Serialize | lib/include/dots/type/TypeVisitor.h:37-43 | Serializing appends to the output what the round trip laws are about. |
| CborStream.CborReader.ReadHead | lib/include/dots/serialization/formats/CborReader.h:323-393 | The checks and the byte loop read a head, or fail for the first of the reasons that applies. |
| CborStream.CborReader.ReadSigned | lib/include/dots/serialization/formats/CborReader.h:65-80 | Signed numbers are read back through two's complement. |
| CborStream.CborReader.ReadFloat | lib/include/dots/serialization/formats/CborReader.h:127-135 | A float of the expected width is read as its bit pattern. |
| CborStream.CborReader.Skip | lib/include/dots/serialization/formats/CborReader.h:174-269 | The recursive skip does what the specification says, double-counted lengths included, and ends. |
| CborStream.CborReader.VisitStruct | lib/include/dots/serialization/CborSerializer.h:89-124 | The loop over the map entries finds properties by tag, reads over what they held, and skips the rest; below the top level all properties are wanted. After an exception the level is no lower than before. |
| CborStream.CborReader.VisitVector | lib/include/dots/serialization/CborSerializer.h:133-138 | A vector is replaced by the elements read. |
| CborStream.CborReader.Deserialize | lib/include/dots/type/TypeVisitor.h:45-51 | Reading a struct does what the round trip laws are about; the level is as before after a success and higher after an exception, and a reader above level 0 ignores the included set. |
| CborStream.UsedAgain | lib/include/dots/type/TypeVisitor.h:45-51 | What a reader that failed before takes from a struct differs from what was wanted if and only if a property is carried that it knows and did not want. |
| CborStream.ReadTwice | lib/include/dots/type/TypeVisitor.h:45-51 | Two reads with one reader on new input each: once the first has failed, the second takes all properties, wanted or not. |
| CborStream.UnwantedTaken | lib/include/dots/type/TypeVisitor.h:45-51 | Two such inputs: a byte that is no map, and two flags of which one was wanted. |
| Frames.Reassembly | lib/include/dots/io/channels/AsyncStreamChannel.h:185-253 | For every sequence of transmissions and every way the stream cuts the bytes into reads, the receiver hands on exactly the transmissions that have arrived completely, in order, and a whole stream leaves nothing behind. |
| Frames.PayloadInverse | lib/include/dots/io/channels/AsyncStreamChannel.h:506-531 | If the attributes are the mask of a set of tags, the receiver gets the header and exactly the valid properties in that set, and exactly the payload is consumed. |
| Frames.BitsOfMask | lib/include/dots/io/channels/AsyncStreamChannel.h:611-614 | The sum of the powers of two of a set of tags stands for exactly that set. |
| Frames.FrameMasked | lib/include/dots/io/channels/AsyncStreamChannel.h:602-630 | A frame is its size, the header, and the valid properties in the set whose mask the attributes are. |
| Frames.HeaderTags | lib/include/dots/io/channels/AsyncStreamChannel.h:511-531 | The properties of the header that give the type name and the attributes are those tagged 1 and 3. |
| Frames.SizeInverse | lib/include/dots/io/channels/AsyncStreamChannel.h:481-499 | The size field of fixed width is read back. |
| Frames.DrainAligned | lib/include/dots/io/channels/AsyncStreamChannel.h:232-250 | Draining buffered bytes keeps the receiver aligned with the frames of the stream. |
| StreamReaders.StreamReader.Complete | lib/include/dots/io/channels/AsyncStreamChannel.h:381-407 | Any completed read, of any size that fits, leaves the receiver where its chunks in order bring it, with one read under way, room in its window and nothing unread lost. |
| StreamReaders.StreamReader.AsyncRead | lib/include/dots/io/channels/AsyncStreamChannel.h:337-409 | Either the buffered bytes are drained through the dispatching flag, which terminates, or one read is started on a compacted buffer. |
| StreamReaders.StreamReader.Compact | lib/include/dots/io/channels/AsyncStreamChannel.h:372-379 | Compaction and resizing keep the unread bytes, at the front. |
| StreamReaders.StreamReader.ProcessTransmissionSize | lib/include/dots/io/channels/AsyncStreamChannel.h:238-248 | A size that has arrived leads to a transmission or to a read for it. |
| StreamReaders.StreamReader.ProcessTransmission | lib/include/dots/io/channels/AsyncStreamChannel.h:232-236 | A payload that has arrived is handed on, and receiving goes on or stops as the handler says. |
| StreamReaders.StreamReader.Delivers | lib/include/dots/io/channels/AsyncStreamChannel.h:164-184 | A receiver in any state of its life has handed on exactly the transmissions that have arrived completely. |
| StreamWriters.StreamWriter.Transmit | lib/include/dots/io/channels/AsyncStreamChannel.h:270-278 | What is written, in flight and pending together is the serialization of everything accepted; only a full buffer refuses. |
| StreamWriters.StreamWriter.TransmitShared | lib/include/dots/io/channels/AsyncStreamChannel.h:293-301 | The same with the shared cache: a cached payload is the uncached serialization, and is taken even by a full buffer. |
| StreamWriters.TransmitToAll | lib/src/HostTransceiver.cpp:92-105 | A new transmission for all channels of a listener: every channel accepts it as if it were the only one and keeps its bytes the uncached ones; a channel fails if and only if neither it nor one before it had room to serialize. |
| StreamWriters.Ids.New | lib/src/io/Transmission.cpp:7-11 | A new transmission gets the next number as its id; ids are never 0, and older ones keep their transmissions. |
| StreamWriters.StreamWriter.SerializeTransmission | lib/include/dots/io/channels/AsyncStreamChannel.h:602-630 | The frame is assembled in place and its size field equals the bytes that follow it: the header, and the valid properties in the set whose mask the attributes are. |
| StreamWriters.StreamWriter.PatchSize | lib/include/dots/io/channels/AsyncStreamChannel.h:619-627 | The byte loop puts the size into the space left for it and touches nothing else. |
| StreamWriters.StreamWriter.SerializeShared | lib/include/dots/io/channels/AsyncStreamChannel.h:647-669 | A cached payload is copied, any other is serialized and remembered under its id. |
| StreamWriters.StreamWriter.AsyncWrite | lib/include/dots/io/channels/AsyncStreamChannel.h:423-452 | The buffers change places, and a write is under way exactly when there is something to write. |
| StreamWriters.StreamWriter.Complete | lib/include/dots/io/channels/AsyncStreamChannel.h:434-448 | A completed write is followed by one for what was collected meanwhile; no byte is lost or repeated. |
| StreamWriters.AllWritten | lib/include/dots/io/channels/AsyncStreamChannel.h:411-422 | An idle channel has put exactly the serializations of what it accepted on the stream. |
| TypeChannels.NeverMissing | lib/src/io/Channel.cpp:167-240 | However sends, receipts and passed on instances and descriptions of both ends interleave, no description in either direction lacks a dependency, it turns into the type its sender has under that name, and no end describes a type twice. |
| TypeChannels.StepKeeps | lib/src/io/Channel.cpp:66-91 | Every step, passing on a description included, keeps: what an end shares the peer knows or will know in time, and registries stay closed. |
| TypeChannels.HeadConverts | lib/src/io/DescriptorConverter.cpp:32-115 | The description that arrives next turns into the type its sender has registered under that name. |
| TypeChannels.SentIsRead | lib/src/io/Channel.cpp:74-79 | In every run, an instance that goes out together with its type is of a type registered at the receiver when everything before it has been received. |
| TypeChannels.PassedOnIsRead | lib/src/io/Channel.cpp:81-86 | In every run, an instance that is merely passed on is read on arrival if its type was registered at the peer or described under way when it went out, and fails otherwise, whatever happens later. |
| TypeChannels.PassedOnFails | lib/src/io/Channel.cpp:81-86 | There is a link on which a passed on instance fails. |
| TypeChannels.ArrivesAnnounced | lib/include/dots/io/channels/AsyncStreamChannel.h:514-518 | Whether the type of an item under way is registered at its receiver on arrival was settled when it went out. |
| TypeChannels.ReceiptRegisters | lib/src/io/Channel.cpp:167-185 | Receiving an item registers exactly the struct type that it describes, if it was not there. |
| TypeExport.ExportShips | lib/src/io/Channel.cpp:187-216 | Exporting a type describes every dependency before it is needed, nothing twice and nothing already shared, and ends. |
| TypeChannels.Channel.ExportDependencies | lib/src/io/Channel.cpp:187-216 | The recursion through descriptions of descriptions terminates and puts the specified descriptions on the channel. |
| TypeChannels.Channel.Transmit | lib/src/io/Channel.cpp:74-79 | An instance goes out after everything its type is made of. |
| TypeChannels.Channel.TransmitTransmission | lib/src/io/Channel.cpp:81-86 | What is passed on goes out as it is; only the type that a description inside it is about is exported first. |
| TypeChannels.Channel.ImportDependencies | lib/src/io/Channel.cpp:167-185 | A new description is converted and registered, or a dependency is reported missing. |
| TypeChannels.Channel.Receive | lib/include/dots/io/channels/AsyncStreamChannel.h:514-531 | An instance of a type that is not registered is an error, whatever else arrives is imported. |
| Types.ConvertInverse | lib/src/io/DescriptorConverter.cpp:32-165 | Describing a type and converting the description back gives the type, once its dependencies are registered. |
| Types.ResolveInverse | lib/src/io/DescriptorConverter.cpp:58-98 | The name of a type, a vector included, resolves to it if and only if it or its element is registered. |
| Types.DescriptionSays | lib/src/io/DescriptorConverter.cpp:117-165 | A description has the name, the flags or elements, and the properties of its type in order, each with its name, tag, key flag and type name. |
| Types.ConvertSays | lib/src/io/DescriptorConverter.cpp:12-116 | A type made from a description of an unknown name is one that the description is about. |
| Registries.RegisterGrows | lib/src/type/Registry.cpp:208-246 | Registering announces exactly the types that were new, once each, parts before what is made of them. |
| Registries.RegisterAllGrows | lib/src/type/Registry.cpp:208-246 | The same for any sequence of registrations. |
| Registries.GrownCloses | lib/src/type/Registry.cpp:208-246 | After registrations every part of a registered type is registered under its name. |
| Registries.TypeRegistry.RegisterType | lib/src/type/Registry.cpp:208-246 | Registering in place does that; a known name is an error or left alone. |
| StructAlgebra.DifferenceIsLeast | lib/src/type/StructDescriptor.cpp:359-376 | Copying a set of properties makes two instances equal if and only if the set contains all in which they differ. |
| StructAlgebra.MergeIdempotent | lib/src/type/StructDescriptor.cpp:267-284 | Merging the same instance twice is merging it once, through nested structs and for every included set. |
| StructAlgebra.MergeAssociative | lib/src/type/StructDescriptor.cpp:267-284 | Merging is associative, through nested structs and for every included set. |
| StructAlgebra.MergeIntoEmpty | lib/src/type/StructDescriptor.cpp:273-276 | Merging into an empty struct gives the merged instance. |
| StructAlgebra.MergeAtPath | lib/src/type/StructDescriptor.cpp:267-284 | For every path of tags, of any depth: the merged struct has there the scalar of the other one if that is valid and its first tag included, and otherwise its own; a path is valid if it was or came in. |
| StructAlgebra.LessTotal | lib/include/dots/type/StaticStruct.h:458-481 | Exactly one of less, equal and greater holds, with invalid lowest and equality on the included properties. |
| StructAlgebra.LessTransitive | lib/include/dots/type/StaticStruct.h:458-481 | The order is transitive, through nested structs. |
| StructAlgebra.PropertyTotal | lib/include/dots/type/Property.h:240-305 | The same for single properties, valid or not. |
| StructAlgebra.LessIsLexicographic | lib/include/dots/type/StaticStruct.h:458-481 | The order is the lexicographic one on all scalars, through all nested structs in the order of declaration, with invalid lowest and smaller values less. |
| DynamicStructs.DynamicStruct.Copy | lib/src/type/StructDescriptor.cpp:248-265 | The loop makes the included properties follow the other instance, also when it is the same. |
| DynamicStructs.DynamicStruct.Assign | lib/src/type/StructDescriptor.cpp:209-226 | Only the included valid properties of the other instance remain. |
| DynamicStructs.DynamicStruct.Merge | lib/src/type/StructDescriptor.cpp:267-284 | The loop merges as the algebra says, also an instance into itself, and keeps the instance well typed. |
| DynamicStructs.DynamicStruct.Swap | lib/src/type/StructDescriptor.cpp:286-292 | Exactly the included properties change places, also between an instance and itself. |
| DynamicStructs.DynamicStruct.Clear | lib/src/type/StructDescriptor.cpp:294-300 | Exactly the included properties become invalid. |
| DynamicStructs.DynamicStruct.Equal | lib/src/type/StructDescriptor.cpp:302-313 | The loop decides equality on the included properties. |
| DynamicStructs.DynamicStruct.LessThan | lib/src/type/StructDescriptor.cpp:320-342 | The loop decides the same order as the static fold. |
| DynamicStructs.DynamicStruct.DiffProperties | lib/src/type/StructDescriptor.cpp:359-376 | The result is exactly the included properties in which the instances differ. |
| DynamicStructs.StaticCopy | lib/include/dots/type/StaticStruct.h:134-151 | The static copy computes the same as the dynamic one. |
| DynamicStructs.StaticAssign | lib/include/dots/type/StaticStruct.h:88-109 | The static assignment computes the same as the dynamic one. |
| DynamicStructs.StaticDiff | lib/include/dots/type/StaticStruct.h:288-313 | The static difference computes the same as the dynamic one. |
| DynamicStructs.StaticEqual | lib/include/dots/type/StaticStruct.h:216-235 | The static comparison computes the same as the dynamic one. |
| Layout.LeastAligned | lib/include/dots/type/PropertyOffset.h:46-52 | An offset is aligned, behind what comes before it, and the least such one. |
| Layout.ComputeLayout | lib/src/io/DescriptorConverter.cpp:54-114 | Offsets are aligned, behind the header, pairwise disjoint, as early as the alignment allows, and inside the struct, whose alignment is the strictest and whose size is the least that ends on it. |
| Layout.PathOffset | lib/include/dots/type/PropertyPath.h:12-24 | For a path of any length the flat offset is the address reached by visiting the areas one after the other. |
| Layout.SetValidExact | lib/include/dots/type/ProxyProperty.h:158-183 | Setting a property through a path makes it and what leads to it valid, and nothing else. |
| Layout.SetInvalidExact | lib/include/dots/type/ProxyProperty.h:219-222 | Resetting a property through a path makes it and what is below it invalid, and nothing else. |

## Left out

- Sockets, resolvers, listeners, WebSocket and event loop scheduling: a stream is any list of chunks, and dispatching on the executor is a call in place.
- Authentication: nonces, digests and the network rules are one arbitrary verdict per connect.
- Transmission format version 1, and the text, JSON and ASCII serializers: more cases, not harder ones.
- Times, regular expressions and time zones: times are opaque numbers, and floats are their bit patterns.
- Host objects: the host's containers are kept as the views that guests see; creation data is modelled in `Containers` only, and both are tied to the same functions.
- Guests as objects: a guest's container is the fold of what it was sent; its dispatcher is the one in `Dispatchers`.
- Connection objects are never freed, so a failing list may name one that a nested cascade closed already.
- Descriptor requests and echoes at the host: they only answer the guest that asked.
- Reconnecting guests: one session per guest.
- Nested dispatch, handlers that publish, what a handler does while it is being replayed to, and exceptions during a replay, which lose the id of a handler that stays registered.
- The dispatcher's clearing flag, which is set only while it is destroyed, and the new-type handlers of the transceiver, which use the same deferred removal.
- Reading past the end: where the code reads a byte before checking that there is one, the model fails with out of data.
- HostTransceivers.HostTransceiver.HandleData: takes no instance of a substruct-only type. The code does, and fails later when it has to clean up or clear it.
- HostTransceivers.HostTransceiver.Accept: starts a guest in early subscribe; the states before it, in which no request of the guest is handled, are those of `Handshake`.
- Preloading.ConnectedComplete: assumes that the guest's channel at the host has not failed when the end of the preloading was handed to it.
- CborStream.CborReader.ReadFloat: does not model the conversion of floats that arrive in another width, like `ParseFloat`.
- ParseFloat: does not model the conversion of floats that arrive in another width; peers running this code never send them.
- Bit operations: masks, shifts and disjoint ors on bytes are written as division, remainder and addition.
- SkipExact: short lengths are sufficient for skipping a nested value, not necessary, as `LongButSkipped` shows; for values that are no vector or struct `SkipLeaf` gives the exact condition.
- The experimental positional serializer.
- Transmission sizes of 4 GiB and more, which would not fit the size field, and map or array counts beyond 64 bits.
- Channels cut short: what a writer has in flight when its stream fails is not modelled.
- Vectors of vectors and dynamic structs without properties: the converter makes no descriptor for them; the first are assumed to be registered at both ends, the second do not occur.
- Cyclic type graphs: descriptors are trees, and equal descriptors are the same object.
- Deregistration of types.
- Moving forms of assignment; the static one calls a member that properties do not have.
- Raw memory: addresses are numbers, and property areas are maps.
