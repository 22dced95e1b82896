/** RoomManagerService: which sockets are in which room.  Rooms without members are not kept. */
module RoomManager {
  import opened Text

  type SocketId = string
  type RoomId = string

  const BROADCAST_ROOM: RoomId := "broadcast:all"

  function UserRoom(userId: string): RoomId {
    "user:" + userId
  }

  predicate IsRoomChar(c: char) {
    'a' <= c <= 'z' || 'A' <= c <= 'Z' || '0' <= c <= '9' || c == '_' || c == '-'
  }

  predicate HasName(roomId: RoomId, prefix: string) {
    prefix <= roomId && |roomId| > |prefix| && forall i :: |prefix| <= i < |roomId| ==> IsRoomChar(roomId[i])
  }

  /** (group|channel|user|broadcast):[a-zA-Z0-9_-]+ */
  predicate IsValidRoomId(roomId: RoomId) {
    || HasName(roomId, "group:")
    || HasName(roomId, "channel:")
    || HasName(roomId, "user:")
    || HasName(roomId, "broadcast:")
  }

  const NAME_CHARS := LOWER + UPPER + DIGITS + "_-"

  /** One of four kinds, a colon, and a name of at least one letter, digit, underscore or hyphen. */
  lemma ValidRoomIdSpelled(roomId: RoomId)
    ensures IsValidRoomId(roomId) <==> exists kind, name ::
      && (kind == "group" || kind == "channel" || kind == "user" || kind == "broadcast")
      && name != "" && (forall c <- name :: c in NAME_CHARS)
      && roomId == kind + ":" + name
  {
    HasNameSpelled(roomId, "group");
    HasNameSpelled(roomId, "channel");
    HasNameSpelled(roomId, "user");
    HasNameSpelled(roomId, "broadcast");
    assert "group" + ":" == "group:" && "channel" + ":" == "channel:" && "user" + ":" == "user:"
      && "broadcast" + ":" == "broadcast:";
  }

  lemma HasNameSpelled(roomId: RoomId, kind: string)
    ensures HasName(roomId, kind + ":") <==>
      exists name :: name != "" && (forall c <- name :: c in NAME_CHARS) && roomId == kind + ":" + name
  {
    if HasName(roomId, kind + ":") {
      NameAfter(roomId, kind + ":");
    }
    if name :| name != "" && (forall c <- name :: c in NAME_CHARS) && roomId == kind + ":" + name {
      NameFound(kind + ":", name);
    }
  }

  lemma NameAfter(roomId: RoomId, prefix: string)
    requires HasName(roomId, prefix)
    ensures var name := roomId[|prefix|..];
      name != "" && (forall c <- name :: c in NAME_CHARS) && roomId == prefix + name
  {
    var name := roomId[|prefix|..];
    forall c <- name
      ensures c in NAME_CHARS
    {
      var i :| 0 <= i < |name| && name[i] == c;
      assert name[i] == roomId[|prefix| + i];
      NameCharListed(c);
    }
  }

  lemma NameFound(prefix: string, name: string)
    requires name != "" && forall c <- name :: c in NAME_CHARS
    ensures HasName(prefix + name, prefix)
  {
    var roomId := prefix + name;
    forall i | |prefix| <= i < |roomId|
      ensures IsRoomChar(roomId[i])
    {
      assert roomId[i] == name[i - |prefix|];
      NameCharListed(roomId[i]);
    }
  }

  lemma NameCharListed(c: char)
    ensures IsRoomChar(c) <==> c in NAME_CHARS
  {
    LowerIsListed(c);
    UpperIsListed(c);
    DigitIsListed(c);
  }

  // ----- sets of sockets by key -----

  type Rooms = map<string, set<SocketId>>

  function Members(rooms: Rooms, r: string): set<SocketId> {
    if r in rooms then rooms[r] else {}
  }

  predicate NoneEmpty(rooms: Rooms) {
    forall r <- rooms.Keys :: rooms[r] != {}
  }

  function PutIn(rooms: Rooms, r: string, s: SocketId): Rooms {
    rooms[r := Members(rooms, r) + {s}]
  }

  function TakenOut(rooms: Rooms, r: string, s: SocketId): Rooms {
    if r !in rooms then rooms
    else if rooms[r] - {s} == {} then rooms - {r}
    else rooms[r := rooms[r] - {s}]
  }

  /** Room by room, everyone but `s`; rooms left empty are gone. */
  function WithoutSocket(rooms: Rooms, s: SocketId): Rooms {
    map r | r in rooms && (s in rooms[r] ==> rooms[r] != {s}) :: rooms[r] - {s}
  }

  /** Joining makes a member, adds one to the count if it was none, and touches no other room. */
  lemma AfterJoining(rooms: Rooms, r: string, s: SocketId, q: string)
    requires NoneEmpty(rooms)
    ensures var after := PutIn(rooms, r, s);
      && NoneEmpty(after)
      && s in Members(after, r)
      && |Members(after, r)| == |Members(rooms, r)| + (if s in Members(rooms, r) then 0 else 1)
      && (q != r ==> Members(after, q) == Members(rooms, q))
  {
    if s in Members(rooms, r) {
      assert Members(rooms, r) + {s} == Members(rooms, r);
    }
  }

  /** Leaving is the opposite, and keeps no empty room. */
  lemma AfterLeaving(rooms: Rooms, r: string, s: SocketId, q: string)
    requires NoneEmpty(rooms)
    ensures var after := TakenOut(rooms, r, s);
      && NoneEmpty(after)
      && s !in Members(after, r)
      && |Members(after, r)| == |Members(rooms, r)| - (if s in Members(rooms, r) then 1 else 0)
      && (q != r ==> Members(after, q) == Members(rooms, q))
  {
    if s !in Members(rooms, r) {
      assert Members(rooms, r) - {s} == Members(rooms, r);
    }
  }

  /** The rooms are known from their members. */
  lemma SameMembersSameRooms(a: Rooms, b: Rooms)
    requires NoneEmpty(a) && NoneEmpty(b) && forall r: string :: Members(a, r) == Members(b, r)
    ensures a == b
  {
    forall r: string
      ensures r in a <==> r in b
    {
      assert Members(a, r) == Members(b, r);
      assert r in a ==> a[r] != {};
      assert r in b ==> b[r] != {};
    }
    forall r <- a.Keys
      ensures a[r] == b[r]
    {
      assert Members(a, r) == Members(b, r);
    }
  }

  /** Leaving undoes joining exactly for a socket that was not in the room. */
  lemma LeavingUndoesJoining(rooms: Rooms, r: string, s: SocketId)
    requires NoneEmpty(rooms)
    ensures TakenOut(PutIn(rooms, r, s), r, s) == rooms <==> s !in Members(rooms, r)
  {
    AfterJoining(rooms, r, s, r);
    AfterLeaving(PutIn(rooms, r, s), r, s, r);
    if s !in Members(rooms, r) {
      assert Members(rooms, r) + {s} - {s} == Members(rooms, r);
    }
  }

  /** Leaving room after room. */
  function LeftEach(rooms: Rooms, rs: seq<string>, s: SocketId): Rooms {
    if rs == [] then rooms else LeftEach(TakenOut(rooms, rs[0], s), rs[1..], s)
  }

  lemma {:induction false} MembersAfterEach(rooms: Rooms, rs: seq<string>, s: SocketId, r: string)
    requires NoneEmpty(rooms)
    ensures NoneEmpty(LeftEach(rooms, rs, s))
    ensures Members(LeftEach(rooms, rs, s), r) == if r in rs then Members(rooms, r) - {s} else Members(rooms, r)
  {
    if rs != [] {
      AfterLeaving(rooms, rs[0], s, r);
      MembersAfterEach(TakenOut(rooms, rs[0], s), rs[1..], s, r);
    }
  }

  /** Leaving all rooms at once is leaving, in any order, each room one is in. */
  lemma WithoutSocketIsLeavingEach(rooms: Rooms, rs: seq<string>, s: SocketId)
    requires NoneEmpty(rooms) && forall r <- rooms.Keys :: s in rooms[r] ==> r in rs
    ensures WithoutSocket(rooms, s) == LeftEach(rooms, rs, s)
  {
    forall r: string
      ensures Members(WithoutSocket(rooms, s), r) == Members(LeftEach(rooms, rs, s), r)
      ensures NoneEmpty(LeftEach(rooms, rs, s))
    {
      MembersAfterEach(rooms, rs, s, r);
    }
    assert NoneEmpty(LeftEach(rooms, rs, s)) by {
      MembersAfterEach(rooms, rs, s, "");
    }
    SameMembersSameRooms(WithoutSocket(rooms, s), LeftEach(rooms, rs, s));
  }

  class RoomManagerService {
    var roomMembers: Rooms

    constructor ()
      ensures roomMembers == map[]
    {
      roomMembers := map[];
    }

    method AddToRoom(roomId: RoomId, s: SocketId)
      modifies this
      ensures roomMembers == PutIn(old(roomMembers), roomId, s)
    {
      if roomId !in roomMembers {
        roomMembers := roomMembers[roomId := {}];
      }
      roomMembers := roomMembers[roomId := roomMembers[roomId] + {s}];
    }

    method RemoveFromRoom(roomId: RoomId, s: SocketId)
      modifies this
      ensures roomMembers == TakenOut(old(roomMembers), roomId, s)
    {
      if roomId !in roomMembers {
        return;
      }
      roomMembers := roomMembers[roomId := roomMembers[roomId] - {s}];
      if roomMembers[roomId] == {} {
        roomMembers := roomMembers - {roomId};
      }
    }

    method GetRoomMemberCount(roomId: RoomId) returns (n: nat)
      ensures n == |Members(roomMembers, roomId)|
    {
      n := if roomId in roomMembers then |roomMembers[roomId]| else 0;
    }

    method IsInRoom(roomId: RoomId, s: SocketId) returns (member: bool)
      ensures member <==> s in Members(roomMembers, roomId)
    {
      member := roomId in roomMembers && s in roomMembers[roomId];
    }

    /** First every set that holds the socket shrinks, then the rooms found empty are deleted. */
    method RemoveFromAllRooms(s: SocketId)
      modifies this
      ensures roomMembers == WithoutSocket(old(roomMembers), s)
    {
      ghost var before := roomMembers;
      var roomsToDelete: seq<RoomId> := [];
      var visited: set<RoomId> := {};
      while visited != roomMembers.Keys
        invariant roomMembers.Keys == before.Keys && visited <= before.Keys
        invariant forall r <- before :: roomMembers[r] == if r in visited then before[r] - {s} else before[r]
        invariant forall r :: r in roomsToDelete <==> r in visited && before[r] == {s}
        decreases roomMembers.Keys - visited
      {
        assert roomMembers.Keys == visited + (roomMembers.Keys - visited);
        var roomId :| roomId in roomMembers.Keys - visited;
        visited := visited + {roomId};
        if s in roomMembers[roomId] {
          roomMembers := roomMembers[roomId := roomMembers[roomId] - {s}];
          if roomMembers[roomId] == {} {
            assert before[roomId] == {s};
            roomsToDelete := roomsToDelete + [roomId];
          }
        }
      }
      ghost var shrunk := roomMembers;
      for i := 0 to |roomsToDelete|
        invariant roomMembers.Keys == shrunk.Keys - (set r | r in roomsToDelete[..i])
        invariant forall r <- roomMembers :: roomMembers[r] == shrunk[r]
      {
        assert roomsToDelete[..i + 1] == roomsToDelete[..i] + [roomsToDelete[i]];
        roomMembers := roomMembers - {roomsToDelete[i]};
      }
      assert roomsToDelete[..|roomsToDelete|] == roomsToDelete;
    }

    predicate IsDefaultRoom(roomId: RoomId, userId: string) {
      roomId == UserRoom(userId) || roomId == BROADCAST_ROOM
    }
  }
}
