/** The invariant `Inv` is kept by every handler, and what it buys: emissions
    reach live sockets only, a left-behind socket is never re-queued, and two
    connected paired sockets share a room only if they are partners. */
module Invariants {
  import opened Base
  import opened Rooms
  import opened Matchmaker

  lemma ConnectKeepsInv(s: State, id: Id)
    requires id !in s.live
    requires Inv(s)
    ensures Inv(Connect(s, id))
  {
  }

  lemma RelayKeepsInv(s: State, id: Id, m: Payload)
    requires id in s.live
    requires Inv(s)
    ensures Inv(Relay(s, id, m))
  {
  }

  lemma DisconnectKeepsInv(s: State, id: Id)
    requires id in s.live
    requires Inv(s)
    ensures Inv(Disconnect(s, id))
  {
  }

  /** Between connected sockets the partner relation is symmetric, in both
      directions. */
  lemma PartnerSymmetric(s: State, a: Id, b: Id)
    requires Inv(s)
    requires a in s.live && b in s.live
    ensures PartnerOf(s, a) == Some(b) <==> PartnerOf(s, b) == Some(a)
  {
  }

  /** A message reaches the sender's partner, which is connected and whose
      own partner is the sender. */
  lemma RelayReachesPartner(s: State, id: Id, m: Payload)
    requires id in s.live
    requires Inv(s)
    requires id in s.partner
    ensures var r := Relay(s, id, m);
      && r.outbox[|s.outbox|].to in r.live
      && PartnerOf(r, r.outbox[|s.outbox|].to) == Some(id)
  {
  }

  /** The partner left behind by a disconnect is told once, is unlinked,
      keeps its room name, and is not put back in the waiting slot: it is
      stranded. */
  lemma SurvivorStranded(s: State, id: Id)
    requires id in s.live
    requires Inv(s)
    requires id in s.partner
    ensures var r := Disconnect(s, id);
      var p := s.partner[id];
      && Stranded(r, p)
      && RoomOf(r, p) == RoomOf(s, p)
      && r.outbox == s.outbox + [Emit(p, PartnerDisconnected)]
  {
  }

  /** A socket that is neither waiting nor paired leaves without a trace:
      nothing is emitted and no other socket's fields or the slot change. */
  lemma QuietDisconnect(s: State, id: Id)
    requires id in s.live
    requires id !in s.partner && s.waiting != Some(id)
    ensures var r := Disconnect(s, id);
      && r.outbox == s.outbox
      && r.waiting == s.waiting
      && r.partner == s.partner && r.room == s.room
  {
  }

  /** Everything a handler emits is addressed to a socket that is connected
      after it. */
  lemma ConnectEmitsToLive(s: State, id: Id)
    requires id !in s.live
    requires Inv(s)
    ensures var r := Connect(s, id);
      forall k | |s.outbox| <= k < |r.outbox| :: r.outbox[k].to in r.live
  {
  }

  lemma DisconnectEmitsToLive(s: State, id: Id)
    requires id in s.live
    requires Inv(s)
    ensures var r := Disconnect(s, id);
      forall k | |s.outbox| <= k < |r.outbox| :: r.outbox[k].to in r.live
  {
  }

  /** A stranded socket stays stranded through a new connection: the slot
      only ever takes newcomers. */
  lemma ConnectKeepsStranded(s: State, id: Id, c: Id)
    requires id !in s.live
    requires Stranded(s, c)
    ensures Stranded(Connect(s, id), c)
  {
  }

  /** A message changes no link and not the slot, so a stranded socket stays
      stranded. */
  lemma RelayKeepsStranded(s: State, id: Id, m: Payload, c: Id)
    requires id in s.live
    requires Stranded(s, c)
    ensures Stranded(Relay(s, id, m), c)
  {
  }

  /** Another socket's disconnect leaves a stranded socket stranded. */
  lemma DisconnectKeepsStranded(s: State, id: Id, c: Id)
    requires id in s.live && id != c
    requires Inv(s)
    requires Stranded(s, c)
    ensures Stranded(Disconnect(s, id), c)
  {
  }

  /** With transport-style ids (no '#'), two connected paired sockets share a
      room only if they are partners (or the same socket). */
  lemma RoomSharedByPair(s: State, a: Id, c: Id)
    requires Inv(s)
    requires forall x | x in s.live :: Unmarked(x)
    requires a in s.live && a in s.partner
    requires c in s.live && c in s.partner
    requires s.room[a] == s.room[c]
    ensures c == a || c == s.partner[a]
  {
    assert Linked(s, a) && Linked(s, c);
    var p, q := s.partner[a], s.partner[c];
    if s.room[a] == RoomName(a, p) {
      if s.room[c] == RoomName(c, q) {
        RoomNameInjective(a, p, c, q);
      } else {
        RoomNameInjective(a, p, q, c);
      }
    } else {
      if s.room[c] == RoomName(c, q) {
        RoomNameInjective(p, a, c, q);
      } else {
        RoomNameInjective(p, a, q, c);
      }
    }
  }
}
