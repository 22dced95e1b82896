/**
 SocketGateway: three mutable indices kept as the projections of one relation, through handlers
 that update them one after another and a forced logout that shrinks the set it walks over.
 */
module SocketGateway {
  import opened Wrappers
  import opened RoomManager
  import opened SocketRelation

  /** connectedClients, userSockets and roomMembers. */
  datatype Indices = Indices(
    clients: map<SocketId, Client>,
    users: map<string, set<SocketId>>,
    rooms: map<RoomId, set<SocketId>>)

  ghost predicate ClientsShow(clients: map<SocketId, Client>, rel: Relation) {
    clients.Keys == rel.Keys && forall s <- rel :: clients[s] == rel[s].client
  }

  /** Grouped by user; no user without sockets is kept. */
  ghost predicate UsersShow(users: map<string, set<SocketId>>, rel: Relation) {
    && (forall u <- users, s <- users[u] :: s in rel && rel[s].client.userId == u)
    && (forall s <- rel :: rel[s].client.userId in users && s in users[rel[s].client.userId])
    && (forall u <- users :: users[u] != {})
  }

  /** Grouped by room; no room without members is kept. */
  ghost predicate RoomsShow(rooms: map<RoomId, set<SocketId>>, rel: Relation) {
    && (forall r <- rooms, s <- rooms[r] :: s in rel && r in rel[s].rooms)
    && (forall s <- rel, r <- rel[s].rooms :: r in rooms && s in rooms[r])
    && (forall r <- rooms :: rooms[r] != {})
  }

  ghost predicate Shows(ix: Indices, rel: Relation) {
    ClientsShow(ix.clients, rel) && UsersShow(ix.users, rel) && RoomsShow(ix.rooms, rel)
  }

  /** The relation leaves the indices no choice. */
  lemma IndicesUnique(ix: Indices, ix': Indices, rel: Relation)
    requires Shows(ix, rel) && Shows(ix', rel)
    ensures ix == ix'
  {
    assert ix.clients == ix'.clients;
    UsersInclude(ix.users, ix'.users, rel);
    UsersInclude(ix'.users, ix.users, rel);
    assert ix.users.Keys == ix'.users.Keys && forall u <- ix.users :: ix.users[u] == ix'.users[u];
    RoomsInclude(ix.rooms, ix'.rooms, rel);
    RoomsInclude(ix'.rooms, ix.rooms, rel);
    assert ix.rooms.Keys == ix'.rooms.Keys && forall r <- ix.rooms :: ix.rooms[r] == ix'.rooms[r];
  }

  lemma UsersInclude(a: map<string, set<SocketId>>, b: map<string, set<SocketId>>, rel: Relation)
    requires UsersShow(a, rel) && UsersShow(b, rel)
    ensures forall u <- a :: u in b && a[u] <= b[u]
  {
    forall u <- a
      ensures u in b && a[u] <= b[u]
    {
      var s :| s in a[u];
      assert rel[s].client.userId == u;
      assert forall x <- a[u] :: rel[x].client.userId == u;
    }
  }

  lemma RoomsInclude(a: map<RoomId, set<SocketId>>, b: map<RoomId, set<SocketId>>, rel: Relation)
    requires RoomsShow(a, rel) && RoomsShow(b, rel)
    ensures forall r <- a :: r in b && a[r] <= b[r]
  {
    forall r <- a
      ensures r in b && a[r] <= b[r]
    {
      var s :| s in a[r];
      assert r in rel[s].rooms;
      assert forall x <- a[r] :: r in rel[x].rooms;
    }
  }

  // ----- the handlers on the indices -----

  function Entered(ix: Indices, s: SocketId, c: Client): Indices {
    Indices(ix.clients[s := c],
            PutIn(ix.users, c.userId, s),
            PutIn(PutIn(ix.rooms, UserRoom(c.userId), s), BROADCAST_ROOM, s))
  }

  function Removed(ix: Indices, s: SocketId): Indices {
    Indices(
      ix.clients - {s},
      if s in ix.clients then TakenOut(ix.users, ix.clients[s].userId, s) else ix.users,
      WithoutSocket(ix.rooms, s))
  }

  lemma PutInShows(rooms: map<RoomId, set<SocketId>>, rel: Relation, r: RoomId, s: SocketId)
    requires RoomsShow(rooms, rel) && s in rel
    ensures RoomsShow(PutIn(rooms, r, s), rel[s := rel[s].(rooms := rel[s].rooms + {r})])
  {
  }

  lemma TakenOutShows(rooms: map<RoomId, set<SocketId>>, rel: Relation, r: RoomId, s: SocketId)
    requires RoomsShow(rooms, rel) && s in rel
    ensures RoomsShow(TakenOut(rooms, r, s), rel[s := rel[s].(rooms := rel[s].rooms - {r})])
  {
    var rooms', rel' := TakenOut(rooms, r, s), rel[s := rel[s].(rooms := rel[s].rooms - {r})];
    forall x <- rel', q <- rel'[x].rooms
      ensures q in rooms' && x in rooms'[q]
    {
      assert q in rel[x].rooms && x in rooms[q];
      assert q == r ==> x in rooms[r] - {s};
    }
  }

  lemma ConnectShowsRooms(rooms: map<RoomId, set<SocketId>>, rel: Relation, s: SocketId, c: Client)
    requires RoomsShow(rooms, rel) && s !in rel
    ensures RoomsShow(PutIn(PutIn(rooms, UserRoom(c.userId), s), BROADCAST_ROOM, s), Connect(rel, s, c))
  {
    var rel0 := rel[s := Presence(c, {})];
    assert RoomsShow(rooms, rel0);
    PutInShows(rooms, rel0, UserRoom(c.userId), s);
    var rel1 := rel0[s := Presence(c, {} + {UserRoom(c.userId)})];
    PutInShows(PutIn(rooms, UserRoom(c.userId), s), rel1, BROADCAST_ROOM, s);
    assert {} + {UserRoom(c.userId)} + {BROADCAST_ROOM} == DefaultRooms(c);
    assert rel1[s := Presence(c, {} + {UserRoom(c.userId)} + {BROADCAST_ROOM})] == Connect(rel, s, c);
  }

  lemma ConnectShowsUsers(users: map<string, set<SocketId>>, rel: Relation, s: SocketId, c: Client)
    requires UsersShow(users, rel) && s !in rel
    ensures UsersShow(PutIn(users, c.userId, s), Connect(rel, s, c))
  {
  }

  lemma CloseShowsUsers(users: map<string, set<SocketId>>, rel: Relation, s: SocketId)
    requires UsersShow(users, rel)
    ensures UsersShow(if s in rel then TakenOut(users, rel[s].client.userId, s) else users, rel - {s})
  {
    if s in rel {
      var u, users' := rel[s].client.userId, TakenOut(users, rel[s].client.userId, s);
      forall x <- rel - {s}
        ensures rel[x].client.userId in users' && x in users'[rel[x].client.userId]
      {
        assert rel[x].client.userId == u ==> x in users[u] - {s};
      }
    } else {
      assert rel - {s} == rel;
    }
  }

  lemma CloseShowsRooms(rooms: map<RoomId, set<SocketId>>, rel: Relation, s: SocketId)
    requires RoomsShow(rooms, rel)
    ensures RoomsShow(WithoutSocket(rooms, s), rel - {s})
  {
  }

  /** Joining and leaving rooms does not show in the other two indices. */
  lemma RoomsOnly(ix: Indices, rel: Relation, s: SocketId, rooms: set<RoomId>)
    requires Shows(ix, rel) && s in rel
    ensures ClientsShow(ix.clients, rel[s := rel[s].(rooms := rooms)])
    ensures UsersShow(ix.users, rel[s := rel[s].(rooms := rooms)])
  {
  }

  /** The indices show who is connected, and the gateway's own invariant holds. */
  ghost predicate Consistent(ix: Indices, g: Gateway) {
    Shows(ix, g.rel) && GatewayInv(g)
  }

  lemma EnteredShows(ix: Indices, rel: Relation, s: SocketId, c: Client)
    requires Shows(ix, rel) && s !in rel
    ensures Shows(Entered(ix, s, c), Connect(rel, s, c))
  {
    ConnectShowsRooms(ix.rooms, rel, s, c);
    ConnectShowsUsers(ix.users, rel, s, c);
  }

  lemma ClosedConsistent(ix: Indices, g: Gateway, s: SocketId)
    requires Consistent(ix, g) && Enabled(g, Closed(s))
    ensures Consistent(Removed(ix, s), Apply(g, Closed(s)))
  {
    CloseShowsUsers(ix.users, g.rel, s);
    CloseShowsRooms(ix.rooms, g.rel, s);
    ApplyKeeps(g, Closed(s));
  }

  lemma JoinedConsistent(ix: Indices, g: Gateway, s: SocketId, roomId: RoomId)
    requires Consistent(ix, g) && Enabled(g, Joined(s, roomId)) && IsValidRoomId(roomId)
    ensures Consistent(ix.(rooms := PutIn(ix.rooms, roomId, s)), Apply(g, Joined(s, roomId)))
  {
    PutInShows(ix.rooms, g.rel, roomId, s);
    RoomsOnly(ix, g.rel, s, g.rel[s].rooms + {roomId});
    ApplyKeeps(g, Joined(s, roomId));
  }

  lemma LeftConsistent(ix: Indices, g: Gateway, s: SocketId, roomId: RoomId)
    requires Consistent(ix, g) && Enabled(g, Left(s, roomId)) && roomId !in DefaultRooms(g.rel[s].client)
    ensures Consistent(ix.(rooms := TakenOut(ix.rooms, roomId, s)), Apply(g, Left(s, roomId)))
  {
    TakenOutShows(ix.rooms, g.rel, roomId, s);
    RoomsOnly(ix, g.rel, s, g.rel[s].rooms - {roomId});
    ApplyKeeps(g, Left(s, roomId));
  }

  lemma UserEntry(ix: Indices, g: Gateway, userId: string)
    requires Consistent(ix, g)
    ensures (if userId in ix.users then ix.users[userId] else {}) == SocketsOf(g.rel, userId)
    ensures userId in ix.users <==> SocketsOf(g.rel, userId) != {}
    ensures SocketsOf(g.rel, userId) <= g.live && g.rel.Keys == ix.clients.Keys
  {
  }

  function MembersOf(rel: Relation, roomId: RoomId): set<SocketId> {
    set s | s in rel && roomId in rel[s].rooms
  }

  lemma RoomEntry(ix: Indices, g: Gateway, roomId: RoomId)
    requires Consistent(ix, g)
    ensures (if roomId in ix.rooms then ix.rooms[roomId] else {}) == MembersOf(g.rel, roomId)
  {
  }

  /** Entering a socket keeps the indices sound exactly when it is still open. */
  lemma EnteredWhenOpen(ix: Indices, g: Gateway, s: SocketId, c: Client)
    requires Consistent(ix, g) && s !in ix.clients
    ensures Consistent(Entered(ix, s, c), Gateway(Connect(g.rel, s, c), g.live)) <==> s in g.live
  {
    LateConnection(g, s, c);
    EnteredShows(ix, g.rel, s, c);
  }

  // ----- room events that overtake connecting or come after closing -----

  /**
   handleRoomJoin awaits before it writes roomMembers.  The write leaves indices that show some
   relation exactly when the socket is still, or already, a connected client.
   */
  lemma LateJoin(ix: Indices, g: Gateway, s: SocketId, roomId: RoomId)
    requires Consistent(ix, g)
    ensures (exists rel :: Shows(ix.(rooms := PutIn(ix.rooms, roomId, s)), rel)) <==> s in ix.clients
  {
    var ix' := ix.(rooms := PutIn(ix.rooms, roomId, s));
    assert s in ix'.rooms[roomId];
    if s in ix.clients {
      var rel := g.rel[s := g.rel[s].(rooms := g.rel[s].rooms + {roomId})];
      PutInShows(ix.rooms, g.rel, roomId, s);
      RoomsOnly(ix, g.rel, s, g.rel[s].rooms + {roomId});
      assert Shows(ix', rel);
    }
    if rel :| Shows(ix', rel) {
      assert s in rel;
    }
  }

  /** A late leave finds nothing to remove. */
  lemma LateLeave(ix: Indices, g: Gateway, s: SocketId, roomId: RoomId)
    requires Consistent(ix, g) && s !in ix.clients
    ensures ix.(rooms := TakenOut(ix.rooms, roomId, s)) == ix
  {
    RoomEntry(ix, g, roomId);
    if roomId in ix.rooms {
      assert ix.rooms[roomId] - {s} == ix.rooms[roomId] != {};
      assert TakenOut(ix.rooms, roomId, s) == ix.rooms;
    }
  }

  /** One write of a handler to the indices. */
  datatype Write =
    | Enter(s: SocketId, c: Client)
    | Remove(s: SocketId)
    | Add(s: SocketId, r: RoomId)
    | Drop(s: SocketId, r: RoomId)

  function Written(ix: Indices, w: Write): Indices {
    match w
    case Enter(s, c) => Entered(ix, s, c)
    case Remove(s) => Removed(ix, s)
    case Add(s, r) => ix.(rooms := PutIn(ix.rooms, r, s))
    case Drop(s, r) => ix.(rooms := TakenOut(ix.rooms, r, s))
  }

  function AllWritten(ix: Indices, writes: seq<Write>): Indices
    decreases |writes|
  {
    if writes == [] then ix else AllWritten(Written(ix, writes[0]), writes[1..])
  }

  /** A member left behind stays one: no handler but its own socket's takes it out again. */
  lemma {:induction false} StrayMemberStays(ix: Indices, writes: seq<Write>, s: SocketId, r: RoomId)
    requires s in Members(ix.rooms, r) && forall w <- writes :: w.s != s
    ensures s in Members(AllWritten(ix, writes).rooms, r)
    decreases |writes|
  {
    if writes != [] {
      assert writes[0].s != s;
      StrayMemberStays(Written(ix, writes[0]), writes[1..], s, r);
    }
  }

  class SocketGateway {
    var connectedClients: map<SocketId, Client>
    var userSockets: map<string, set<SocketId>>
    const roomManager: RoomManagerService

    /** server.sockets.sockets */
    var open: set<SocketId>

    ghost var rel: Relation

    ghost predicate Valid()
      reads this, roomManager
    {
      Consistent(Ix(), View())
    }

    ghost function Ix(): Indices
      reads this, roomManager
    {
      Indices(connectedClients, userSockets, roomManager.roomMembers)
    }

    ghost function View(): Gateway
      reads this
    {
      Gateway(rel, open)
    }

    constructor (roomManager: RoomManagerService)
      requires roomManager.roomMembers == map[]
      ensures Valid() && View() == EMPTY_GATEWAY && this.roomManager == roomManager
    {
      this.roomManager := roomManager;
      connectedClients, userSockets, open := map[], map[], {};
      rel := EMPTY_GATEWAY.rel;
    }

    /** A transport opens; handleConnection follows. */
    method Open(s: SocketId)
      requires Valid() && s !in open
      modifies this`open
      ensures Valid() && View() == Apply(old(View()), Opened(s))
    {
      open := open + {s};
    }

    /**
     `client` is what authentication found in the handshake, if anything.  The socket may have closed
     while this awaited; then entering it is what breaks the indices.
     */
    method HandleConnection(s: SocketId, client: Option<Client>)
      modifies this, roomManager
      ensures client.Some? ==> Ix() == Entered(old(Ix()), s, client.value) && open == old(open)
      ensures client.None? ==> Ix() == (if s in old(open) then Removed(old(Ix()), s) else old(Ix()))
      ensures client.None? ==> open == old(open) - {s}
      ensures old(Valid()) && s !in old(connectedClients) ==> (Valid() <==> client.None? || s in open)
      ensures old(Valid()) && s !in old(connectedClients) && s in old(open) ==>
        View() == Apply(old(View()), if client.Some? then Connected(s, client.value) else Closed(s))
    {
      if client.None? {
        if s in open {
          Disconnect(s);
        }
        return;
      }
      if Valid() && s !in connectedClients {
        EnteredWhenOpen(Ix(), View(), s, client.value);
      }
      EnterIndices(s, client.value);
      rel := Connect(rel, s, client.value);
    }

    /** The synchronous part of handleConnection, after its last await. */
    method EnterIndices(s: SocketId, c: Client)
      modifies this`connectedClients, this`userSockets, roomManager
      ensures Ix() == Entered(old(Ix()), s, c)
    {
      roomManager.AddToRoom(UserRoom(c.userId), s);
      roomManager.AddToRoom(BROADCAST_ROOM, s);
      connectedClients := connectedClients[s := c];
      if c.userId !in userSockets {
        userSockets := userSockets[c.userId := {}];
      }
      userSockets := userSockets[c.userId := userSockets[c.userId] + {s}];
    }

    /** socket.disconnect(true): the server forgets the socket and the gateway is told. */
    method Disconnect(s: SocketId)
      requires s in open
      modifies this, roomManager
      ensures Ix() == Removed(old(Ix()), s) && View() == Apply(old(View()), Closed(s))
      ensures old(Valid()) ==> Valid()
    {
      if Valid() {
        ClosedConsistent(Ix(), View(), s);
      }
      open := open - {s};
      HandleDisconnect(s);
    }

    /** The socket has already left the server's set. */
    method HandleDisconnect(s: SocketId)
      modifies this`connectedClients, this`userSockets, this`rel, roomManager
      ensures Ix() == Removed(old(Ix()), s) && rel == old(rel) - {s}
    {
      if s in connectedClients {
        var userId := connectedClients[s].userId;
        if userId in userSockets {
          userSockets := userSockets[userId := userSockets[userId] - {s}];
          if userSockets[userId] == {} {
            userSockets := userSockets - {userId};
          }
        }
      }
      connectedClients := connectedClients - {s};
      roomManager.RemoveFromAllRooms(s);
      rel := rel - {s};
      assert Ix() == Removed(old(Ix()), s);
    }

    /** The socket may not be a connected client yet, or no longer. */
    method HandleRoomJoin(s: SocketId, roomId: RoomId) returns (success: bool, members: nat)
      modifies this`rel, roomManager
      ensures success <==> IsValidRoomId(roomId)
      ensures Ix() == if success then old(Ix()).(rooms := PutIn(old(Ix()).rooms, roomId, s)) else old(Ix())
      ensures members == if success then |Members(Ix().rooms, roomId)| else 0
      ensures old(Valid()) ==> (Valid() <==> !success || s in connectedClients)
      ensures old(Valid()) && s in connectedClients ==> View() == Apply(old(View()), Joined(s, roomId))
      ensures old(Valid()) && s in connectedClients && success ==> members == |MembersOf(rel, roomId)|
    {
      if !IsValidRoomId(roomId) {
        return false, 0;
      }
      if Valid() {
        if s in connectedClients {
          JoinedConsistent(Ix(), View(), s, roomId);
        }
        LateJoin(Ix(), View(), s, roomId);
      }
      roomManager.AddToRoom(roomId, s);
      if s in rel {
        rel := Join(rel, s, roomId);
      }
      assert Ix() == old(Ix()).(rooms := PutIn(old(Ix()).rooms, roomId, s));
      if Valid() {
        RoomEntry(Ix(), View(), roomId);
      }
      var memberCount := roomManager.GetRoomMemberCount(roomId);
      return true, memberCount;
    }

    /** `userId` is what the socket's handshake says. */
    method HandleRoomLeave(s: SocketId, userId: string, roomId: RoomId) returns (success: bool)
      modifies this`rel, roomManager
      ensures success <==> roomId != "user:" + userId && roomId != "broadcast:all"
      ensures Ix() == if success then old(Ix()).(rooms := TakenOut(old(Ix()).rooms, roomId, s)) else old(Ix())
      ensures old(Valid()) && s !in connectedClients ==> Valid() && View() == old(View()) && Ix() == old(Ix())
      ensures old(Valid()) && s in connectedClients && connectedClients[s].userId == userId ==>
        Valid() && View() == Apply(old(View()), Left(s, roomId))
    {
      if roomManager.IsDefaultRoom(roomId, userId) {
        return false;
      }
      if Valid() {
        if s !in connectedClients {
          LateLeave(Ix(), View(), s, roomId);
        } else if connectedClients[s].userId == userId {
          LeftConsistent(Ix(), View(), s, roomId);
        }
      }
      roomManager.RemoveFromRoom(roomId, s);
      if s in rel {
        rel := rel[s := rel[s].(rooms := rel[s].rooms - {roomId})];
      }
      assert Ix() == old(Ix()).(rooms := TakenOut(old(Ix()).rooms, roomId, s));
      return true;
    }

    method HandleChatSend(s: SocketId, roomId: RoomId) returns (success: bool)
      requires Valid()
      ensures success <==> roomId in roomManager.roomMembers && s in roomManager.roomMembers[roomId]
      ensures success <==> s in MembersOf(rel, roomId)
    {
      RoomEntry(Ix(), View(), roomId);
      success := roomManager.IsInRoom(roomId, s);
    }

    /** What a loop over the user's live set visits next: whatever it holds now and has not been visited. */
    function SocketsNow(userId: string): set<SocketId>
      reads this
    {
      if userId in userSockets then userSockets[userId] else {}
    }

    /** Each disconnect takes the socket just visited out of the set; every socket of the user still gets its turn. */
    method ForceLogoutUser(userId: string)
      requires Valid()
      modifies this, roomManager
      ensures Valid() && View() == Apply(old(View()), ForcedOut(userId))
      ensures userId !in userSockets && forall s <- connectedClients :: connectedClients[s].userId != userId
      ensures forall s <- old(connectedClients) :: old(connectedClients)[s].userId != userId ==>
        s in connectedClients && connectedClients[s] == old(connectedClients)[s] && s in open
      ensures forall s <- old(rel) :: old(rel)[s].client.userId != userId ==> s in rel && rel[s] == old(rel)[s]
      ensures open == old(open) - (set s | s in old(connectedClients) && old(connectedClients)[s].userId == userId)
    {
      ghost var g := View();
      ghost var all := SocketsOf(rel, userId);
      var visited: set<SocketId> := {};
      UserEntry(Ix(), View(), userId);
      Minus(g, userId, {});
      while SocketsNow(userId) - visited != {}
        invariant Valid() && visited <= all
        invariant View() == GoneFrom(g, visited)
        invariant SocketsNow(userId) == all - visited
        decreases all - visited
      {
        var s :| s in SocketsNow(userId) - visited;
        MinusOneMore(g, visited, s);
        if s in open {
          Disconnect(s);
        }
        visited := visited + {s};
        Minus(g, userId, visited);
        UserEntry(Ix(), View(), userId);
      }
      assert visited == all;
      UserEntry(Ix(), View(), userId);
      assert all * g.live == all;
    }
  }

  function GoneFrom(g: Gateway, gone: set<SocketId>): Gateway {
    Gateway(g.rel - gone, g.live - gone)
  }

  lemma Minus(g: Gateway, userId: string, gone: set<SocketId>)
    ensures SocketsOf(GoneFrom(g, gone).rel, userId) == SocketsOf(g.rel, userId) - gone
    ensures GoneFrom(g, {}) == g
  {
    assert g.rel - {} == g.rel;
  }

  lemma MinusOneMore(g: Gateway, gone: set<SocketId>, s: SocketId)
    ensures Apply(GoneFrom(g, gone), Closed(s)) == GoneFrom(g, gone + {s})
  {
    assert g.rel - gone - {s} == g.rel - (gone + {s});
  }
}
