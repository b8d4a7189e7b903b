/** The matchmaking state machine of the chat server (server.js:19-61): one
    global waiting slot, the per-socket `partner` and `roomId` fields, and the
    three handlers that change them: a new connection, a chat message and a
    disconnection. Each handler is one atomic transition, because the event
    loop runs handlers to completion one at a time. */
module Matchmaker {
  import opened Base
  import opened Rooms

  /** What the server emits to a single socket. */
  datatype Outgoing =
    | Waiting
    | PartnerFound
    | Message(payload: Payload)
    | PartnerDisconnected

  /** One emission: an event and the one socket it is sent to. */
  datatype Emission = Emit(to: Id, event: Outgoing)

  /** The whole server state.
      - `waiting`: the `waitingUser` slot, at most one socket;
      - `live`: the sockets currently connected;
      - `partner`, `room`: each socket's `partner` and `roomId` fields. A socket
        that disconnects keeps its own fields, as in the server; only live
        sockets matter to the invariant;
      - `outbox`: every emission made so far, oldest first. */
  datatype State = State(
    waiting: Option<Id>,
    live: set<Id>,
    partner: map<Id, Id>,
    room: map<Id, RoomId>,
    outbox: seq<Emission>)

  /** The server at start-up: nobody connected, nobody waiting. */
  const Initial: State := State(None, {}, map[], map[], [])

  /** The `partner` field of socket `c` (`None` for null). */
  function PartnerOf(s: State, c: Id): (r: Option<Id>)
  {
    if c in s.partner then Some(s.partner[c]) else None
  }

  /** The `roomId` field of socket `c` (`None` when never set). */
  function RoomOf(s: State, c: Id): (r: Option<RoomId>)
  {
    if c in s.room then Some(s.room[c]) else None
  }

  /** Socket `a`'s partner link is mirrored: the partner is another live
      socket whose partner is `a`, and both hold the room named after the pair. */
  predicate Linked(s: State, a: Id)
    requires a in s.partner
  {
    var p := s.partner[a];
    && p in s.live && p != a
    && p in s.partner && s.partner[p] == a
    && a in s.room && p in s.room && s.room[a] == s.room[p]
    && (s.room[a] == RoomName(a, p) || s.room[a] == RoomName(p, a))
  }

  /** The waiter, if any, is connected, has no partner and no room yet. */
  predicate WaiterFree(s: State)
  {
    s.waiting.Some? ==>
      var w := s.waiting.value;
      w in s.live && w !in s.partner && w !in s.room
  }

  /** The invariant the handlers keep. That there is at most one waiter is
      built into the type of the slot. */
  predicate Inv(s: State)
  {
    && WaiterFree(s)
    && forall a | a in s.live && a in s.partner :: Linked(s, a)
  }

  /** A socket left behind by its partner: connected, with no partner, and
      not waiting. Nothing in the server ever pairs such a socket again. */
  predicate Stranded(s: State, c: Id)
  {
    c in s.live && c !in s.partner && s.waiting != Some(c)
  }

  /** The `connection` handler (server.js:21-43). With a socket in the
      waiting slot, the newcomer is paired with it: both get the room
      `id + "#" + waiter`, each becomes the other's partner, the waiter and
      then the newcomer are told `partner-found`, and the slot is emptied.
      With the slot empty, the newcomer takes it and is told `waiting`. */
  function Connect(s: State, id: Id): (r: State)
    requires id !in s.live
    ensures r.live == s.live + {id}
    // the newcomer ends up waiting or paired, never both or neither
    ensures (r.waiting == Some(id)) != (id in r.partner)
    ensures s.waiting.None? ==>
      && r.waiting == Some(id)
      && PartnerOf(r, id).None? && RoomOf(r, id).None?
      && r.outbox == s.outbox + [Emit(id, Waiting)]
    ensures s.waiting.Some? ==>
      var w := s.waiting.value;
      && r.waiting.None?
      && PartnerOf(r, id) == Some(w) && PartnerOf(r, w) == Some(id)
      && RoomOf(r, id) == Some(RoomName(id, w)) && RoomOf(r, w) == RoomOf(r, id)
      && r.outbox == s.outbox + [Emit(w, PartnerFound), Emit(id, PartnerFound)]
    // nobody but the newcomer and the former waiter is touched
    ensures forall c | c != id && s.waiting != Some(c) ::
      PartnerOf(r, c) == PartnerOf(s, c) && RoomOf(r, c) == RoomOf(s, c)
  {
    match s.waiting
    case Some(w) =>
      var roomId := RoomName(id, w);
      State(
        None,
        s.live + {id},
        s.partner[id := w][w := id],
        s.room[id := roomId][w := roomId],
        s.outbox + [Emit(w, PartnerFound), Emit(id, PartnerFound)])
    case None =>
      State(
        Some(id),
        s.live + {id},
        s.partner - {id},
        s.room - {id},
        s.outbox + [Emit(id, Waiting)])
  }

  /** The `message` handler (server.js:46-50): the payload is forwarded, as
      is, to the sender's partner; without a partner it is dropped. */
  function Relay(s: State, id: Id, m: Payload): (r: State)
    requires id in s.live
    ensures r.waiting == s.waiting && r.live == s.live
    ensures r.partner == s.partner && r.room == s.room
    ensures id in s.partner ==> r.outbox == s.outbox + [Emit(s.partner[id], Message(m))]
    ensures id !in s.partner ==> r == s
  {
    match PartnerOf(s, id)
    case Some(p) => s.(outbox := s.outbox + [Emit(p, Message(m))])
    case None => s
  }

  /** The `disconnect` handler (server.js:52-61): a partner, if any, is told
      `partner-disconnected` and its `partner` is set to null; the leaving
      socket releases the waiting slot if it holds it. The leaving socket's
      own fields and the partner's `roomId` stay as they were. */
  function Disconnect(s: State, id: Id): (r: State)
    requires id in s.live
    ensures r.live == s.live - {id}
    ensures s.waiting == Some(id) ==> r.waiting.None?
    ensures s.waiting != Some(id) ==> r.waiting == s.waiting
    ensures id in s.partner ==>
      var p := s.partner[id];
      && r.outbox == s.outbox + [Emit(p, PartnerDisconnected)]
      && PartnerOf(r, p).None?
    ensures id !in s.partner ==> r.outbox == s.outbox
    // only the partner's link changes; every room name stays
    ensures forall c | PartnerOf(s, id) != Some(c) :: PartnerOf(r, c) == PartnerOf(s, c)
    ensures forall c :: RoomOf(r, c) == RoomOf(s, c)
  {
    var afterPartner :=
      match PartnerOf(s, id)
      case Some(p) =>
        s.(partner := s.partner - {p}, outbox := s.outbox + [Emit(p, PartnerDisconnected)])
      case None => s;
    afterPartner.(
      live := s.live - {id},
      waiting := if s.waiting == Some(id) then None else s.waiting)
  }
}
