/**
 UserService: a table of users behind a cache that reads fill and writes refresh.

 Any cache read or write may be lost.  As long as deletions arrive, every cached user is the row in
 the table; what happens when one does not arrive is stated exactly.
 */
module UserCache {
  import opened Wrappers
  import opened CacheService

  type Id = string

  datatype User = User(name: string, picture: Option<string>, updatedAt: int, deletedAt: Option<int>)

  type Table = map<Id, User>

  /** JSON documents in the cache. */
  datatype Doc = UserDoc(user: User) | SessionDoc(userId: Id) | OtherDoc

  const USER_INFO_TTL: nat := 3600

  const USER_INFO_PREFIX := "user_info:"

  function UserInfoKey(id: Id): string {
    USER_INFO_PREFIX + id
  }

  function UserSessionKey(id: Id): string {
    "user_session:" + id
  }

  const SESSION_PREFIX := "session:"

  // ----- the repository -----

  function FindLive(t: Table, id: Id): Option<User> {
    if id in t && t[id].deletedAt.None? then Some(t[id]) else None
  }

  function FindDeleted(t: Table, id: Id): Option<User> {
    if id in t && t[id].deletedAt.Some? then Some(t[id]) else None
  }

  /** Some(None) stands for a picture set to null. */
  datatype Dto = Dto(name: Option<string>, picture: Option<Option<string>>)

  function Edited(user: User, dto: Dto, now: int): User {
    User(if dto.name.Some? then dto.name.value else user.name,
         if dto.picture.Some? then dto.picture.value else user.picture,
         now,
         user.deletedAt)
  }

  /** Every update through Prisma also moves updatedAt. */
  function Stamped(user: User, deletedAt: Option<int>, now: int): User {
    user.(deletedAt := deletedAt, updatedAt := now)
  }

  // ----- one operation -----

  datatype State = State(now: int, table: Table, keys: KeySpace<Doc>)

  /** What the cache accomplishes during one operation; session entries in `lost` cannot be read. */
  datatype Link = Link(fetch: bool, store: bool, drop: bool, lost: set<string>)

  /** A user as the caller sees it, or that there is none.  RowMissing is the database's own complaint. */
  datatype Answer = Found(doc: Value<Doc>) | Nothing | NotFoundException | RowMissing

  function Stored(keys: KeySpace<Doc>, now: int, id: Id, user: User, link: Link): KeySpace<Doc> {
    if link.store then Put(keys, now, UserInfoKey(id), Json(UserDoc(user)), Some(USER_INFO_TTL)) else keys
  }

  function Dropped(keys: KeySpace<Doc>, id: Id, link: Link): KeySpace<Doc> {
    if link.drop then keys - {UserInfoKey(id)} else keys
  }

  /** A zero is the one cached value that counts as none. */
  function Cached(s: State, id: Id, link: Link): Option<Value<Doc>> {
    var v := Lookup(s.keys, s.now, UserInfoKey(id));
    if link.fetch && v.Some? && v.value != Count(0) then v else None
  }

  function Find(s: State, id: Id, link: Link): (State, Answer) {
    var cached := Cached(s, id, link);
    if cached.Some? then (s, Found(cached.value))
    else
      var user := FindLive(s.table, id);
      if user.None? then (s, Nothing)
      else (s.(keys := Stored(s.keys, s.now, id, user.value, link)), Found(Json(UserDoc(user.value))))
  }

  function Create(s: State, id: Id, user: User, link: Link): (State, Answer) {
    (s.(table := s.table[id := user], keys := Stored(s.keys, s.now, id, user, link)), Found(Json(UserDoc(user))))
  }

  function Update(s: State, id: Id, dto: Dto, link: Link): (State, Answer) {
    var existing := FindLive(s.table, id);
    if existing.None? then (s, NotFoundException)
    else
      var user := Edited(existing.value, dto, s.now);
      (s.(table := s.table[id := user], keys := Stored(Dropped(s.keys, id, link), s.now, id, user, link)),
       Found(Json(UserDoc(user))))
  }

  /** The session entries that can be read and belong to the user. */
  function SessionKeysOf(keys: KeySpace<Doc>, now: int, id: Id, lost: set<string>): set<string> {
    set k | k in keys && Live(keys, now, k) && SESSION_PREFIX <= k && k !in lost && keys[k].value == Json(SessionDoc(id))
  }

  function SessionsDropped(keys: KeySpace<Doc>, now: int, id: Id, link: Link): KeySpace<Doc> {
    var first := if link.drop then keys - {UserSessionKey(id)} else keys;
    if link.drop && link.fetch then first - SessionKeysOf(first, now, id, link.lost) else first
  }

  function SoftDelete(s: State, id: Id, link: Link): (State, Answer) {
    var existing := FindLive(s.table, id);
    if existing.None? then (s, NotFoundException)
    else
      var user := Stamped(existing.value, Some(s.now), s.now);
      (s.(table := s.table[id := user], keys := Dropped(SessionsDropped(s.keys, s.now, id, link), id, link)),
       Found(Json(UserDoc(user))))
  }

  function Restore(s: State, id: Id, link: Link): (State, Answer) {
    var deleted := FindDeleted(s.table, id);
    if deleted.None? then (s, NotFoundException)
    else
      var user := Stamped(deleted.value, None, s.now);
      (s.(table := s.table[id := user], keys := Stored(s.keys, s.now, id, user, link)), Found(Json(UserDoc(user))))
  }

  // ----- coherence -----

  predicate EntryAgrees(s: State, id: Id) {
    Live(s.keys, s.now, UserInfoKey(id)) ==>
      FindLive(s.table, id).Some? && s.keys[UserInfoKey(id)].value == Json(UserDoc(s.table[id]))
  }

  /** Every live entry for a user is that user's row, and the row is not deleted. */
  ghost predicate Coherent(s: State) {
    forall id: Id :: EntryAgrees(s, id)
  }

  lemma UserInfoKeysDiffer(id: Id, other: Id)
    ensures UserInfoKey(id) == UserInfoKey(other) <==> id == other
    ensures UserInfoKey(id) != UserSessionKey(other)
    ensures !(SESSION_PREFIX <= UserInfoKey(id))
  {
    assert UserInfoKey(id)[|USER_INFO_PREFIX|..] == id;
    assert UserInfoKey(other)[|USER_INFO_PREFIX|..] == other;
    assert UserInfoKey(id)[5] == 'i' && UserSessionKey(other)[5] == 's';
    assert UserInfoKey(id)[0] == 'u' && SESSION_PREFIX[0] == 's';
  }

  /** Dropping sessions never touches an entry for a user. */
  lemma SessionCleanupSparesUsers(keys: KeySpace<Doc>, now: int, id: Id, link: Link, other: Id)
    ensures var after := SessionsDropped(keys, now, id, link);
      && (UserInfoKey(other) in after <==> UserInfoKey(other) in keys)
      && (UserInfoKey(other) in keys ==> after[UserInfoKey(other)] == keys[UserInfoKey(other)])
  {
    UserInfoKeysDiffer(other, id);
  }

  /** With a coherent cache a lookup answers what the database would, whatever the cache loses. */
  lemma FindAgreesWithTable(s: State, id: Id, link: Link)
    requires Coherent(s)
    ensures Find(s, id, link).1 ==
      if FindLive(s.table, id).Some? then Found(Json(UserDoc(s.table[id]))) else Nothing
  {
    assert EntryAgrees(s, id);
  }

  // ----- runs -----

  datatype Op =
    | FindOp(id: Id)
    | CreateOp(id: Id, user: User)
    | UpdateOp(id: Id, dto: Dto)
    | SoftDeleteOp(id: Id)
    | RestoreOp(id: Id)
    | PurgeOp(cutoff: int)
    | OtherOp(key: string, entry: Option<Entry<Doc>>)
    | TickOp(seconds: nat)

  /** A new user has a new id and is not deleted; nobody else writes entries for users. */
  ghost predicate Allowed(s: State, op: Op) {
    match op
    case CreateOp(id, user) => id !in s.table && user.deletedAt.None?
    case OtherOp(key, _) => forall id: Id :: key != UserInfoKey(id)
    case _ => true
  }

  function After(s: State, op: Op, link: Link): State {
    match op
    case FindOp(id) => Find(s, id, link).0
    case CreateOp(id, user) => Create(s, id, user, link).0
    case UpdateOp(id, dto) => Update(s, id, dto, link).0
    case SoftDeleteOp(id) => SoftDelete(s, id, link).0
    case RestoreOp(id) => Restore(s, id, link).0
    case PurgeOp(cutoff) =>
      s.(table := map id | id in s.table && !(s.table[id].deletedAt.Some? && s.table[id].deletedAt.value < cutoff)
                  :: s.table[id])
    case OtherOp(key, entry) => s.(keys := if entry.Some? then s.keys[key := entry.value] else s.keys - {key})
    case TickOp(seconds) => s.(now := s.now + seconds)
  }

  lemma EntryKept(s: State, op: Op, link: Link, id: Id)
    requires Allowed(s, op) && link.drop && EntryAgrees(s, id)
    ensures EntryAgrees(After(s, op, link), id)
  {
    match op
    case FindOp(other) => UserInfoKeysDiffer(id, other);
    case CreateOp(other, _) => UserInfoKeysDiffer(id, other);
    case UpdateOp(other, _) => UserInfoKeysDiffer(id, other);
    case SoftDeleteOp(other) =>
      UserInfoKeysDiffer(id, other);
      SessionCleanupSparesUsers(s.keys, s.now, other, link, id);
    case RestoreOp(other) => UserInfoKeysDiffer(id, other);
    case _ =>
  }

  datatype Step = Step(op: Op, link: Link)

  ghost predicate AllowedRun(s: State, steps: seq<Step>)
    decreases |steps|
  {
    || steps == []
    || (Allowed(s, steps[0].op) && steps[0].link.drop && AllowedRun(After(s, steps[0].op, steps[0].link), steps[1..]))
  }

  function AfterAll(s: State, steps: seq<Step>): State
    decreases |steps|
  {
    if steps == [] then s else AfterAll(After(s, steps[0].op, steps[0].link), steps[1..])
  }

  /** Coherence survives every run in which no deletion of a cache key is lost. */
  lemma {:induction false} RunsStayCoherent(s: State, steps: seq<Step>)
    requires Coherent(s) && AllowedRun(s, steps)
    ensures Coherent(AfterAll(s, steps))
    decreases |steps|
  {
    if steps != [] {
      forall id: Id
        ensures EntryAgrees(After(s, steps[0].op, steps[0].link), id)
      {
        assert EntryAgrees(s, id);
        EntryKept(s, steps[0].op, steps[0].link, id);
      }
      RunsStayCoherent(After(s, steps[0].op, steps[0].link), steps[1..]);
    }
  }

  /** So after any such run, from an empty cache, a lookup answers what the database would. */
  lemma FindAgreesAfterRun(s: State, steps: seq<Step>, id: Id, link: Link)
    requires s.keys == map[] && AllowedRun(s, steps)
    ensures var last := AfterAll(s, steps);
      Find(last, id, link).1 == if FindLive(last.table, id).Some? then Found(Json(UserDoc(last.table[id]))) else Nothing
  {
    assert Coherent(s);
    RunsStayCoherent(s, steps);
    FindAgreesWithTable(AfterAll(s, steps), id, link);
  }

  // ----- deletions that are lost -----

  /** An edit survives a lost deletion if the write after it arrives, or if nothing was cached. */
  lemma UpdateWithoutDeletion(s: State, id: Id, dto: Dto, link: Link)
    requires Coherent(s) && FindLive(s.table, id).Some?
    ensures EntryAgrees(Update(s, id, dto, link).0, id) <==>
      || link.drop || link.store
      || !Live(s.keys, s.now, UserInfoKey(id))
      || Edited(s.table[id], dto, s.now) == s.table[id]
  {
    assert EntryAgrees(s, id);
  }

  /** A deleted user with a live entry stays visible if the deletion is lost, and only then. */
  lemma SoftDeleteWithoutDeletion(s: State, id: Id, link: Link)
    requires Coherent(s) && FindLive(s.table, id).Some?
    ensures EntryAgrees(SoftDelete(s, id, link).0, id) <==> link.drop || !Live(s.keys, s.now, UserInfoKey(id))
  {
    SessionCleanupSparesUsers(s.keys, s.now, id, link, id);
  }

  // ----- each operation, spelled out -----

  /** Only these keys may differ. */
  ghost predicate OtherKeysSame(keys: KeySpace<Doc>, keys': KeySpace<Doc>, touched: set<string>) {
    forall k :: k !in touched ==> (k in keys' <==> k in keys) && (k in keys ==> keys'[k] == keys[k])
  }

  /** The user's entry after it has been dropped, if that arrives, and stored for an hour, if that does. */
  ghost predicate EntryIs(keys: KeySpace<Doc>, keys': KeySpace<Doc>, id: Id, user: User,
                          dropped: bool, stored: bool, now: int)
  {
    var key := "user_info:" + id;
    if stored then key in keys' && keys'[key] == Entry(Json(UserDoc(user)), Some(now + 3600))
    else if dropped then key !in keys'
    else (key in keys' <==> key in keys) && (key in keys ==> keys'[key] == keys[key])
  }

  lemma UpdateEdits(s: State, id: Id, dto: Dto, link: Link)
    ensures var (s', answer) := Update(s, id, dto, link);
      if id !in s.table || s.table[id].deletedAt.Some? then s' == s && answer == NotFoundException
      else
        var row := s.table[id];
        var edited := User(if dto.name.Some? then dto.name.value else row.name,
                           if dto.picture.Some? then dto.picture.value else row.picture,
                           s.now, None);
        && s'.now == s.now && s'.table == s.table[id := edited] && answer == Found(Json(UserDoc(edited)))
        && EntryIs(s.keys, s'.keys, id, edited, link.drop, link.store, s.now)
        && OtherKeysSame(s.keys, s'.keys, {"user_info:" + id})
  {
  }

  lemma RestoreUnmarks(s: State, id: Id, link: Link)
    ensures var (s', answer) := Restore(s, id, link);
      if id !in s.table || s.table[id].deletedAt.None? then s' == s && answer == NotFoundException
      else
        var row := s.table[id].(deletedAt := None, updatedAt := s.now);
        && s'.now == s.now && s'.table == s.table[id := row] && answer == Found(Json(UserDoc(row)))
        && EntryIs(s.keys, s'.keys, id, row, false, link.store, s.now)
        && OtherKeysSame(s.keys, s'.keys, {"user_info:" + id})
  {
  }

  lemma CreateInserts(s: State, id: Id, user: User, link: Link)
    ensures var (s', answer) := Create(s, id, user, link);
      && s'.now == s.now && s'.table == s.table[id := user] && answer == Found(Json(UserDoc(user)))
      && EntryIs(s.keys, s'.keys, id, user, false, link.store, s.now)
      && OtherKeysSame(s.keys, s'.keys, {"user_info:" + id})
  {
  }

  /** A live entry that can be read is the answer; else the row is, if it is there and not deleted. */
  lemma FindLooksUp(s: State, id: Id, link: Link)
    ensures var (s', answer) := Find(s, id, link);
      var key := "user_info:" + id;
      var hit := link.fetch && key in s.keys && (s.keys[key].deadline.Some? ==> s.now < s.keys[key].deadline.value)
                 && s.keys[key].value != Count(0);
      if hit then s' == s && answer == Found(s.keys[key].value)
      else if id !in s.table || s.table[id].deletedAt.Some? then s' == s && answer == Nothing
      else
        && s'.now == s.now && s'.table == s.table && answer == Found(Json(UserDoc(s.table[id])))
        && EntryIs(s.keys, s'.keys, id, s.table[id], false, link.store, s.now)
        && OtherKeysSame(s.keys, s'.keys, {key})
  {
  }

  /** A session entry that the clean-up deletes: live, readable, under "session:", and naming the user. */
  ghost predicate IsOwnSession(s: State, k: string, id: Id, link: Link) {
    && link.fetch && k !in link.lost && k in s.keys
    && (s.keys[k].deadline.Some? ==> s.now < s.keys[k].deadline.value)
    && |k| >= 8 && k[..8] == "session:"
    && s.keys[k].value == Json(SessionDoc(id))
  }

  lemma OwnSessions(s: State, id: Id, link: Link, k: string)
    ensures var keys := if link.drop then s.keys - {UserSessionKey(id)} else s.keys;
      var mine := SessionKeysOf(keys, s.now, id, link.lost);
      link.fetch && k != "user_session:" + id ==> (k in mine <==> IsOwnSession(s, k, id, link))
  {
    if |k| >= 8 {
      assert SESSION_PREFIX <= k <==> k[..8] == "session:";
    }
  }

  lemma SoftDeleteMarks(s: State, id: Id, link: Link)
    ensures var (s', answer) := SoftDelete(s, id, link);
      if id !in s.table || s.table[id].deletedAt.Some? then s' == s && answer == NotFoundException
      else
        var row := s.table[id].(deletedAt := Some(s.now), updatedAt := s.now);
        && s'.now == s.now && s'.table == s.table[id := row] && answer == Found(Json(UserDoc(row)))
        && (!link.drop ==> s'.keys == s.keys)
        && (link.drop ==> forall k ::
              && (k in s'.keys <==> k in s.keys && k != "user_info:" + id && k != "user_session:" + id
                                    && !IsOwnSession(s, k, id, link))
              && (k in s'.keys ==> s'.keys[k] == s.keys[k]))
  {
    forall k: string {
      OwnSessions(s, id, link, k);
    }
  }
}
