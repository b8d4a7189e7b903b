/** The event loop: the transport delivers one event at a time and each
    handler runs to completion before the next event, so a run of the server
    is a sequence of atomic steps from the start-up state. */
module EventLoop {
  import opened Base
  import opened Rooms
  import opened Matchmaker
  import opened Invariants

  /** What the transport delivers to the server. */
  datatype Incoming =
    | Connected(id: Id)
    | Received(id: Id, payload: Payload)
    | Disconnected(id: Id)

  /** The transport opens a socket under an id that is not connected, and
      delivers messages and disconnects only for connected sockets. */
  predicate Admissible(s: State, e: Incoming)
  {
    match e
    case Connected(id) => id !in s.live
    case Received(id, _) => id in s.live
    case Disconnected(id) => id in s.live
  }

  /** Dispatch of one event to its handler. */
  function Step(s: State, e: Incoming): (r: State)
    requires Admissible(s, e)
    ensures s.outbox <= r.outbox
    ensures e.Connected? ==> r.live == s.live + {e.id}
    ensures e.Received? ==> r.live == s.live
    ensures e.Disconnected? ==> r.live == s.live - {e.id}
  {
    match e
    case Connected(id) => Connect(s, id)
    case Received(id, m) => Relay(s, id, m)
    case Disconnected(id) => Disconnect(s, id)
  }

  /** Every event of the trace is admissible when it arrives. */
  predicate Feasible(s: State, trace: seq<Incoming>)
    decreases |trace|
  {
    |trace| == 0 || (Admissible(s, trace[0]) && Feasible(Step(s, trace[0]), trace[1..]))
  }

  /** The events of the trace, handled one after another. */
  function Run(s: State, trace: seq<Incoming>): (r: State)
    requires Feasible(s, trace)
    ensures s.outbox <= r.outbox
    decreases |trace|
  {
    if |trace| == 0 then s else Run(Step(s, trace[0]), trace[1..])
  }

  /** One step keeps the invariant, never rewrites an emission already made,
      and addresses new emissions to connected sockets only. */
  lemma StepKeepsInv(s: State, e: Incoming)
    requires Inv(s) && Admissible(s, e)
    ensures var r := Step(s, e);
      && Inv(r)
      && s.outbox <= r.outbox
      && forall k | |s.outbox| <= k < |r.outbox| :: r.outbox[k].to in r.live
  {
  }

  /** Every run from a state meeting the invariant keeps it, and the outbox
      only grows. */
  lemma {:induction false} RunKeepsInv(s: State, trace: seq<Incoming>)
    requires Inv(s) && Feasible(s, trace)
    ensures Inv(Run(s, trace))
    ensures s.outbox <= Run(s, trace).outbox
    decreases |trace|
  {
    if |trace| > 0 {
      StepKeepsInv(s, trace[0]);
      RunKeepsInv(Step(s, trace[0]), trace[1..]);
    }
  }

  /** In particular every state the server reaches from start-up meets it. */
  lemma ReachableInv(trace: seq<Incoming>)
    requires Feasible(Initial, trace)
    ensures Inv(Run(Initial, trace))
  {
    RunKeepsInv(Initial, trace);
  }

  /** A stranded socket stays stranded for as long as it stays connected:
      no later event gives it a partner or the waiting slot. */
  lemma {:induction false} StrandedForever(s: State, trace: seq<Incoming>, c: Id)
    requires Inv(s) && Feasible(s, trace)
    requires Stranded(s, c)
    requires forall k | 0 <= k < |trace| :: trace[k] != Disconnected(c)
    ensures Stranded(Run(s, trace), c)
    decreases |trace|
  {
    if |trace| > 0 {
      var e := trace[0];
      match e {
        case Connected(id) => ConnectKeepsStranded(s, id, c);
        case Received(id, m) => RelayKeepsStranded(s, id, m, c);
        case Disconnected(id) => DisconnectKeepsStranded(s, id, c);
      }
      StepKeepsInv(s, e);
      StrandedForever(Step(s, e), trace[1..], c);
    }
  }

  /** Two sockets connecting one right after the other while nobody waits
      are paired with each other. */
  lemma BackToBackPaired(s: State, a: Id, b: Id)
    requires s.waiting.None? && a !in s.live && b !in s.live && a != b
    ensures var r := Connect(Connect(s, a), b);
      && PartnerOf(r, a) == Some(b) && PartnerOf(r, b) == Some(a)
      && RoomOf(r, a) == Some(RoomName(b, a)) && RoomOf(r, b) == Some(RoomName(b, a))
      && r.waiting.None?
  {
  }

  /** A whole chat: C1 connects and waits, C2 connects and both are paired,
      C1 says hello, C2 leaves. */
  lemma ChatScenario()
    ensures var trace := [Connected("C1"), Connected("C2"), Received("C1", "hello"), Disconnected("C2")];
      && Feasible(Initial, trace)
      && var r := Run(Initial, trace);
      && r.outbox == [
           Emit("C1", Waiting),
           Emit("C1", PartnerFound), Emit("C2", PartnerFound),
           Emit("C2", Message("hello")),
           Emit("C1", PartnerDisconnected)]
      && r.live == {"C1"}
      && Stranded(r, "C1")
      && RoomOf(r, "C1") == Some("C2#C1")
  {
    var s1 := Connect(Initial, "C1");
    var s2 := Connect(s1, "C2");
    var s3 := Relay(s2, "C1", "hello");
    var s4 := Disconnect(s3, "C2");
    assert RoomName("C2", "C1") == "C2#C1";
  }
}
