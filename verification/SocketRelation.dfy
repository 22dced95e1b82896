/**
 What the gateway's three indices stand for: who is connected, and which socket is in which room.

 Events act on this relation; module SocketGateway proves that its maps stay the projections of it.
 */
module SocketRelation {
  import opened RoomManager

  datatype Client = Client(userId: string, sessionId: string)

  /** A connected socket: whose it is and which rooms it is in. */
  datatype Presence = Presence(client: Client, rooms: set<RoomId>)

  type Relation = map<SocketId, Presence>

  /** `live` is the server's own set of open sockets. */
  datatype Gateway = Gateway(rel: Relation, live: set<SocketId>)

  const EMPTY_GATEWAY := Gateway(map[], {})

  datatype Event =
    | Opened(s: SocketId)
    | Connected(s: SocketId, client: Client)
    | Joined(s: SocketId, roomId: RoomId)
    | Left(s: SocketId, roomId: RoomId)
    | Closed(s: SocketId)
    | ForcedOut(userId: string)

  function SocketsOf(rel: Relation, userId: string): set<SocketId> {
    set s | s in rel && rel[s].client.userId == userId
  }

  function DefaultRooms(c: Client): set<RoomId> {
    {UserRoom(c.userId), BROADCAST_ROOM}
  }

  function Connect(rel: Relation, s: SocketId, c: Client): Relation {
    rel[s := Presence(c, DefaultRooms(c))]
  }

  function Join(rel: Relation, s: SocketId, roomId: RoomId): Relation
    requires s in rel
  {
    if IsValidRoomId(roomId) then rel[s := rel[s].(rooms := rel[s].rooms + {roomId})] else rel
  }

  function Leave(rel: Relation, s: SocketId, roomId: RoomId): Relation
    requires s in rel
  {
    if roomId in DefaultRooms(rel[s].client) then rel else rel[s := rel[s].(rooms := rel[s].rooms - {roomId})]
  }

  predicate Enabled(g: Gateway, e: Event) {
    match e
    case Opened(s) => s !in g.live && s !in g.rel
    case Connected(s, _) => s in g.live && s !in g.rel
    case Joined(s, _) => s in g.rel
    case Left(s, _) => s in g.rel
    case Closed(s) => s in g.live
    case ForcedOut(_) => true
  }

  function Apply(g: Gateway, e: Event): Gateway
    requires e.Left? || e.Joined? ==> e.s in g.rel
  {
    match e
    case Opened(s) => g.(live := g.live + {s})
    case Connected(s, c) => g.(rel := Connect(g.rel, s, c))
    case Joined(s, roomId) => g.(rel := Join(g.rel, s, roomId))
    case Left(s, roomId) => g.(rel := Leave(g.rel, s, roomId))
    case Closed(s) => Gateway(g.rel - {s}, g.live - {s})
    case ForcedOut(userId) =>
      // a socket the server no longer knows is passed over
      var gone := SocketsOf(g.rel, userId) * g.live;
      Gateway(g.rel - gone, g.live - gone)
  }

  // ----- what every run keeps -----

  /** Every connected socket is in both of its default rooms. */
  ghost predicate WellFormed(rel: Relation) {
    forall s <- rel :: DefaultRooms(rel[s].client) <= rel[s].rooms
  }

  ghost predicate NoDeadSockets(g: Gateway) {
    forall s <- g.rel :: s in g.live
  }

  ghost predicate GatewayInv(g: Gateway) {
    WellFormed(g.rel) && NoDeadSockets(g)
  }

  lemma ApplyKeeps(g: Gateway, e: Event)
    requires GatewayInv(g) && Enabled(g, e)
    ensures GatewayInv(Apply(g, e))
  {
  }

  /** Every event is enabled when its turn comes. */
  ghost predicate IsRun(g: Gateway, events: seq<Event>)
    decreases |events|
  {
    events == [] || (Enabled(g, events[0]) && IsRun(Apply(g, events[0]), events[1..]))
  }

  ghost function After(g: Gateway, events: seq<Event>): Gateway
    requires IsRun(g, events)
    decreases |events|
  {
    if events == [] then g else After(Apply(g, events[0]), events[1..])
  }

  lemma {:induction false} RunKeeps(g: Gateway, events: seq<Event>)
    requires IsRun(g, events) && GatewayInv(g)
    ensures GatewayInv(After(g, events))
    decreases |events|
  {
    if events != [] {
      ApplyKeeps(g, events[0]);
      RunKeeps(Apply(g, events[0]), events[1..]);
    }
  }

  /** What each event does to the sockets and rooms, by the rooms' names. */
  lemma EventsSpelled(g: Gateway, e: Event)
    requires Enabled(g, e)
    ensures var g' := Apply(g, e);
      match e
      case Opened(s) => g' == Gateway(g.rel, g.live + {s})
      case Connected(s, c) => g' == Gateway(g.rel[s := Presence(c, {"user:" + c.userId, "broadcast:all"})], g.live)
      case Joined(s, r) =>
        g' == if IsValidRoomId(r) then Gateway(g.rel[s := Presence(g.rel[s].client, g.rel[s].rooms + {r})], g.live) else g
      case Left(s, r) =>
        g' == if r == "user:" + g.rel[s].client.userId || r == "broadcast:all" then g
              else Gateway(g.rel[s := Presence(g.rel[s].client, g.rel[s].rooms - {r})], g.live)
      case Closed(s) => g' == Gateway(g.rel - {s}, g.live - {s})
      case ForcedOut(u) =>
        var gone := set s | s in g.rel && g.rel[s].client.userId == u && s in g.live;
        g' == Gateway(g.rel - gone, g.live - gone)
  {
    if e.ForcedOut? {
      assert SocketsOf(g.rel, e.userId) * g.live
        == set s | s in g.rel && g.rel[s].client.userId == e.userId && s in g.live;
    }
  }

  // ----- one socket does not matter to the others -----

  predicate IsOwnEvent(e: Event, s: SocketId) {
    !e.ForcedOut? && e.s == s
  }

  function Others(events: seq<Event>, s: SocketId): seq<Event> {
    if events == [] then []
    else if IsOwnEvent(events[0], s) then Others(events[1..], s)
    else [events[0]] + Others(events[1..], s)
  }

  function Without(g: Gateway, s: SocketId): Gateway {
    Gateway(g.rel - {s}, g.live - {s})
  }

  lemma OwnEventInvisible(g: Gateway, e: Event)
    requires !e.ForcedOut? && Enabled(g, e)
    ensures Without(Apply(g, e), e.s) == Without(g, e.s)
  {
    assert Without(Apply(g, e), e.s).rel == Without(g, e.s).rel;
  }

  lemma OtherEventSame(g: Gateway, e: Event, s: SocketId)
    requires !IsOwnEvent(e, s) && Enabled(g, e)
    ensures Enabled(Without(g, s), e) && Without(Apply(g, e), s) == Apply(Without(g, s), e)
  {
    var g1, g2 := Without(Apply(g, e), s), Apply(Without(g, s), e);
    if e.ForcedOut? {
      assert SocketsOf(Without(g, s).rel, e.userId) == SocketsOf(g.rel, e.userId) - {s};
    }
    assert g1.live == g2.live;
    assert g1.rel == g2.rel;
  }

  /** Taking one socket's events out of a run changes nothing about any other socket. */
  lemma {:induction false} SocketIndependence(g: Gateway, events: seq<Event>, s: SocketId)
    requires IsRun(g, events)
    ensures IsRun(Without(g, s), Others(events, s))
    ensures After(Without(g, s), Others(events, s)) == Without(After(g, events), s)
    decreases |events|
  {
    if events != [] {
      var e := events[0];
      SocketIndependence(Apply(g, e), events[1..], s);
      if IsOwnEvent(e, s) {
        OwnEventInvisible(g, e);
      } else {
        OtherEventSame(g, e, s);
        var rest := Others(events[1..], s);
        assert Others(events, s) == [e] + rest && ([e] + rest)[1..] == rest;
      }
    }
  }

  /** A socket that is gone again leaves everything as if it had never been there. */
  lemma AsIfNeverConnected(events: seq<Event>, s: SocketId)
    requires IsRun(EMPTY_GATEWAY, events)
    requires s !in After(EMPTY_GATEWAY, events).live
    ensures IsRun(EMPTY_GATEWAY, Others(events, s))
    ensures After(EMPTY_GATEWAY, Others(events, s)) == After(EMPTY_GATEWAY, events)
  {
    SocketIndependence(EMPTY_GATEWAY, events, s);
    RunKeeps(EMPTY_GATEWAY, events);
    var g := After(EMPTY_GATEWAY, events);
    assert Without(EMPTY_GATEWAY, s) == EMPTY_GATEWAY;
    assert Without(g, s) == g;
  }

  // ----- a disconnect that overtakes handleConnection -----

  /**
   handleConnection awaits before it writes its indices.  Entering a socket then is sound exactly
   when the socket is still open.
   */
  lemma LateConnection(g: Gateway, s: SocketId, c: Client)
    requires GatewayInv(g) && s !in g.rel
    ensures GatewayInv(g.(rel := Connect(g.rel, s, c))) <==> s in g.live
  {
    if s in g.live {
      ApplyKeeps(g, Connected(s, c));
    } else {
      assert s in Connect(g.rel, s, c);
    }
  }

  /** A dead socket stays in the indices whatever happens next; not even a forced logout removes it. */
  lemma {:induction false} DeadSocketStays(g: Gateway, events: seq<Event>, s: SocketId)
    requires s in g.rel && s !in g.live && IsRun(g, events)
    ensures s in After(g, events).rel && s !in After(g, events).live
    decreases |events|
  {
    if events != [] {
      DeadSocketStays(Apply(g, events[0]), events[1..], s);
    }
  }
}
