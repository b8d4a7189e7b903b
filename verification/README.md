# Anonymous chat matchmaking, modelled in Dafny

The server pairs strangers for one-to-one chat. It keeps a single global
waiting slot (`waitingUser`). A socket that connects while somebody waits is
paired with that socket at once. Both get the same room id, each becomes the
other's `partner`, and both are told `partner-found`. A socket that connects
while nobody waits takes the slot and is told `waiting`. A `message` from a
paired socket is forwarded unchanged to its partner and is dropped otherwise.
On `disconnect` the partner is told `partner-disconnected` and unlinked, and
the slot is released if the leaving socket held it.

The model is a pure state machine:

- `base.dfy` (`Base`): ids, payloads, room ids, `Option`.
- `rooms.dfy` (`Rooms`): the room name `joiner + "#" + waiter` and when it identifies its pair.
- `matchmaker.dfy` (`Matchmaker`): the state (waiting slot, live sockets, the `partner` and `roomId` fields, the outbox of emissions), the invariant `Inv`, and one function per handler.
- `invariants.dfy` (`Invariants`): every handler keeps `Inv`, and the consequences of that.
- `event_loop.dfy` (`EventLoop`): one event per atomic step, runs of events from start-up, and a full chat scenario.

Emissions are entries `Emit(to, event)` appended to an outbox, so "sent to
exactly X" is a statement about what the outbox gained. A disconnected socket
keeps its own `partner` and `roomId` fields, as in the server. The invariant
therefore speaks only about connected sockets:

- the waiter is connected and has no partner and no room;
- a connected socket's partner is another connected socket whose partner is it;
- both partners hold the room named after the pair.

There is at most one waiter because the slot is an `Option`.

The handlers require what the transport guarantees. A socket opens under an
id that is not connected. Messages and disconnects arrive only for connected
sockets.

## Model

| member | source | states |
|---|---|---|
| Matchmaker.Connect | server.js:21-43 | With the slot empty, the newcomer becomes the sole waiter, gets no partner and no room, and only it is told `waiting`. With a waiter, the two become each other's partner, both get room `newId#waiterId`, the waiter and then the newcomer are told `partner-found`, and the slot is left empty. The newcomer is either waiting or paired, never both or neither. No other socket's fields change. |
| Matchmaker.Relay | server.js:46-50 | A message from a paired socket adds exactly one outbox entry: the unchanged payload, addressed to the partner. Without a partner the state is unchanged. Slot, sockets, links and rooms never change. |
| Matchmaker.Disconnect | server.js:52-61 | The socket leaves the live set. A partner is told `partner-disconnected` exactly once and is the only recipient, and its `partner` becomes null. With no partner nothing is emitted. Leaving as the waiter empties the slot; any other leaver leaves the slot alone. No other link and no room name changes. |
| Invariants.ConnectKeepsInv | server.js:24-43 | A connection keeps the invariant: waiter connected and unpaired, links symmetric between connected sockets, partners share the room named after them. |
| Invariants.RelayKeepsInv | server.js:46-50 | A message keeps the invariant. |
| Invariants.DisconnectKeepsInv | server.js:52-61 | A disconnection keeps the invariant. The partner is unlinked, and the leaver's stale fields do not matter once it is gone. |
| Invariants.PartnerSymmetric | server.js:33-34 | For connected sockets `a` and `b`, `a`'s partner is `b` exactly when `b`'s partner is `a`. |
| Invariants.RelayReachesPartner | server.js:47-48 | A forwarded message goes to a connected socket whose partner is the sender. |
| Invariants.SurvivorStranded | server.js:54-61 | The socket a disconnect leaves behind is told once and unlinked. It keeps its room id and is not put back in the waiting slot. |
| Invariants.QuietDisconnect | server.js:52-61 | A socket that is neither waiting nor paired leaves without emitting anything and without changing the slot, any link or any room. |
| Invariants.ConnectEmitsToLive | server.js:36-42 | Every emission of a connection goes to a socket that is connected afterwards. |
| Invariants.DisconnectEmitsToLive | server.js:54-55 | The `partner-disconnected` emission goes to a socket that is still connected. |
| Invariants.ConnectKeepsStranded | server.js:24-43 | A connection never pairs with, or queues, a socket that was left behind: the slot only takes newcomers. |
| Invariants.RelayKeepsStranded | server.js:46-50 | A message never gives a stranded socket a partner or the waiting slot. |
| Invariants.DisconnectKeepsStranded | server.js:52-61 | Another socket's disconnect leaves a stranded socket stranded. |
| Invariants.RoomSharedByPair | server.js:26-34 | If ids contain no `#`, two connected paired sockets share a room only when they are partners or the same socket. |
| Rooms.RoomName | server.js:26 | The room name is the joiner's id, then the separator `#`, then the waiter's id, and nothing else. |
| Rooms.RoomNameInjective | server.js:26 | Given joiner ids without `#`, the room name `joiner#waiter` determines both ids. |
| Rooms.RoomNameCollision | server.js:26 | Without that proviso, the pairs (`a#b`, `c`) and (`a`, `b#c`) get the same room name. |
| EventLoop.Step | server.js:21-61 | Each event goes to its handler: a connection adds the socket to the live set, a message leaves the live set alone, and a disconnect removes the socket. Every step only appends to the outbox. |
| EventLoop.Run | server.js:19-61 | Running a sequence of events one after another only ever appends to the outbox. |
| EventLoop.StepKeepsInv | server.js:21-61 | Any admissible event keeps the invariant. It only appends to the outbox, and it addresses every new emission to a connected socket. |
| EventLoop.RunKeepsInv | server.js:19-61 | Any admissible run of events keeps the invariant, and the outbox only grows. |
| EventLoop.ReachableInv | server.js:19-61 | Every state reachable from start-up (empty slot, nobody connected) meets the invariant. |
| EventLoop.StrandedForever | server.js:24-61 | A socket left behind by its partner stays unpaired and out of the slot for as long as it stays connected. |
| EventLoop.BackToBackPaired | server.js:24-43 | Two sockets connecting one after the other while nobody waits become each other's partners. Both get room `second#first`, and the slot ends empty. |
| EventLoop.ChatScenario | server.js:19-61 | C1 connects, C2 connects, C1 sends `hello`, C2 leaves. The outbox is then: `waiting` to C1, `partner-found` to C1 and then C2, `hello` to C2, `partner-disconnected` to C1. C1 remains connected and stranded, with room `C2#C1`. |

## Left out

- Express app, CORS, HTTP server and `server.listen` with its port (server.js:1-17, 64-67): configuration and I/O plumbing.
- socket.io rooms (`socket.join`, server.js:27-28) and delivery mechanics: a room is only its id string, and an emission is an outbox entry.
- Console logging (server.js:22, 53, 66).
- Payloads are modelled as strings. The server forwards any value without looking at it, so nothing depends on the type.
- Socket ids are modelled as strings. Two transport guarantees are preconditions of the handlers: ids of new sockets are not in use, and events come only from connected sockets. The room lemmas also assume ids contain no `#`, as transport-issued ids do not.
- Concurrency: the event loop runs one handler at a time, so each event is one atomic step.
- Bans, reports, admin views, reactions, typing indicators, profiles, geo lookup and explicit unmatch are not in this server, so they are not part of this model.
- Relaying: a message goes to the partner only, as the raw payload, with no server-assigned id. It is not echoed to the sender.
- Pairing happens only at connection time. There is no separate match request and no liveness re-check of the waiter, because a disconnecting waiter always clears the slot, so the waiter is always connected (part of `Inv`).
- Disconnect clears only the partner's `partner` field. The leaver's own fields and the partner's `roomId` stay set, and the partner is not re-queued.
