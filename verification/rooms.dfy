/** Room names. When a newcomer is paired with the waiting connection the
    server names their room `joiner + "#" + waiter` (server.js:26). */
module Rooms {
  import opened Base

  const Separator: char := '#'

  /** The room name both partners receive on pairing. */
  function RoomName(joiner: Id, waiter: Id): (r: RoomId)
    ensures |r| == |joiner| + 1 + |waiter|
    ensures r[..|joiner|] == joiner && r[|joiner|] == Separator
    ensures r[|joiner| + 1..] == waiter
  {
    joiner + [Separator] + waiter
  }

  /** Transport-issued socket ids are drawn from an alphabet without '#'. */
  predicate Unmarked(x: Id)
  {
    Separator !in x
  }

  /** The first separator in a room name sits right after the joiner's id. */
  lemma SeparatorFirst(joiner: Id, waiter: Id)
    requires Unmarked(joiner)
    ensures |joiner| < |RoomName(joiner, waiter)|
    ensures RoomName(joiner, waiter)[|joiner|] == Separator
    ensures forall i :: 0 <= i < |joiner| ==> RoomName(joiner, waiter)[i] != Separator
  {
  }

  /** A room name determines the pair it was made for, provided the joiner's
      id carries no separator: the name splits at its first '#'. */
  lemma {:induction false} RoomNameInjective(a: Id, b: Id, c: Id, d: Id)
    requires Unmarked(a) && Unmarked(c)
    requires RoomName(a, b) == RoomName(c, d)
    ensures a == c && b == d
  {
    var r := RoomName(a, b);
    assert r == RoomName(c, d);
    SeparatorFirst(a, b);
    SeparatorFirst(c, d);
    assert a == r[..|a|];
    assert c == r[..|c|];
    assert b == r[|a| + 1..];
    assert d == r[|c| + 1..];
  }

  /** Without that proviso two different pairs can end up in the same room. */
  lemma RoomNameCollision()
    ensures RoomName("a#b", "c") == RoomName("a", "b#c")
    ensures !Unmarked("a#b")
  {
    assert "a#b"[1] == Separator;
  }
}
