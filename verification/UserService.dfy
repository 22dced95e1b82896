/** UserService as it runs: one object over the table and a CacheService. */
module UserService {
  import opened Wrappers
  import opened CacheService
  import opened UserCache

  class UserService {
    /** The user table behind UserRepository. */
    var table: Table
    const cache: CacheService<Doc>

    constructor (cache: CacheService<Doc>)
      ensures this.cache == cache && table == map[]
    {
      this.cache := cache;
      table := map[];
    }

    function View(now: int): State
      reads this, cache
    {
      State(now, table, cache.keys)
    }

    /** The operations that reach Redis, given those that would if it is connected. */
    function Reaching(link: Link): Link
      reads cache
    {
      Link(link.fetch && cache.connected, link.store && cache.connected, link.drop && cache.connected, link.lost)
    }

    method FindById(now: int, id: Id, link: Link) returns (a: Answer)
      modifies this, cache
      ensures cache.connected == old(cache.connected)
      ensures (View(now), a) == Find(old(View(now)), id, old(Reaching(link)))
    {
      var cached := None;
      if link.fetch {
        cached := cache.Get(now, UserInfoKey(id));
      }
      if cached.Some? && cached.value != Count(0) {
        return Found(cached.value);
      }
      var user := FindLive(table, id);
      if user.Some? {
        CacheUser(now, id, user.value, link);
        return Found(Json(UserDoc(user.value)));
      }
      return Nothing;
    }

    method CacheUser(now: int, id: Id, user: User, link: Link)
      modifies cache`keys
      ensures cache.keys == Stored(old(cache.keys), now, id, user, Reaching(link))
    {
      if link.store {
        var _ := cache.Set(now, UserInfoKey(id), Json(UserDoc(user)), Some(USER_INFO_TTL));
      }
    }

    method ForgetUser(now: int, id: Id, link: Link)
      modifies cache`keys
      ensures cache.keys == Dropped(old(cache.keys), id, Reaching(link))
    {
      if link.drop {
        assert (set k | k in [UserInfoKey(id)]) == {UserInfoKey(id)};
        var _ := cache.Del(now, [UserInfoKey(id)]);
      }
    }

    method Create(now: int, id: Id, user: User, link: Link) returns (a: Answer)
      requires id !in table
      modifies this, cache
      ensures cache.connected == old(cache.connected)
      ensures (View(now), a) == UserCache.Create(old(View(now)), id, user, old(Reaching(link)))
    {
      table := table[id := user];
      CacheUser(now, id, user, link);
      return Found(Json(UserDoc(user)));
    }

    method Update(now: int, id: Id, dto: Dto, link: Link) returns (a: Answer)
      modifies this, cache
      ensures cache.connected == old(cache.connected)
      ensures (View(now), a) == UserCache.Update(old(View(now)), id, dto, old(Reaching(link)))
    {
      var existing := FindLive(table, id);
      if existing.None? {
        return NotFoundException;
      }
      var user := existing.value.(updatedAt := now);
      if dto.name.Some? {
        user := user.(name := dto.name.value);
      }
      if dto.picture.Some? {
        user := user.(picture := dto.picture.value);
      }
      table := table[id := user];
      ForgetUser(now, id, link);
      CacheUser(now, id, user, link);
      return Found(Json(UserDoc(user)));
    }

    method SoftDelete(now: int, id: Id, link: Link) returns (a: Answer)
      modifies this, cache
      ensures cache.connected == old(cache.connected)
      ensures (View(now), a) == UserCache.SoftDelete(old(View(now)), id, old(Reaching(link)))
    {
      var existing := FindLive(table, id);
      if existing.None? {
        return NotFoundException;
      }
      var user := existing.value.(deletedAt := Some(now), updatedAt := now);
      table := table[id := user];
      InvalidateUserSessions(now, id, link);
      ForgetUser(now, id, link);
      return Found(Json(UserDoc(user)));
    }

    method Restore(now: int, id: Id, link: Link) returns (a: Answer)
      modifies this, cache
      ensures cache.connected == old(cache.connected)
      ensures (View(now), a) == UserCache.Restore(old(View(now)), id, old(Reaching(link)))
    {
      var deleted := FindDeleted(table, id);
      if deleted.None? {
        return NotFoundException;
      }
      var user := deleted.value.(deletedAt := None, updatedAt := now);
      table := table[id := user];
      CacheUser(now, id, user, link);
      return Found(Json(UserDoc(user)));
    }

    /** Removes exactly the entries under "session:" that can be read and name this user, and one more key. */
    method InvalidateUserSessions(now: int, userId: Id, link: Link)
      modifies cache
      ensures cache.connected == old(cache.connected)
      ensures cache.keys == SessionsDropped(old(cache.keys), now, userId, old(Reaching(link)))
    {
      if link.drop {
        assert (set k | k in [UserSessionKey(userId)]) == {UserSessionKey(userId)};
        var _ := cache.Del(now, [UserSessionKey(userId)]);
      }
      var sessionKeys := cache.KeysWithPrefix(now, SESSION_PREFIX);
      var userSessionKeys: seq<string> := [];
      ghost var scanned := cache.keys;
      ghost var mine := if link.fetch then SessionKeysOf(scanned, now, userId, link.lost) else {};
      for i := 0 to |sessionKeys|
        invariant cache.keys == scanned && cache.connected == old(cache.connected)
        invariant forall k :: k in userSessionKeys <==> k in sessionKeys[..i] && k in mine
      {
        assert sessionKeys[i] in sessionKeys;
        var sessionData := None;
        if link.fetch && sessionKeys[i] !in link.lost {
          sessionData := cache.Get(now, sessionKeys[i]);
        }
        if sessionData == Some(Json(SessionDoc(userId))) {
          userSessionKeys := userSessionKeys + [sessionKeys[i]];
        }
      }
      if link.drop {
        assert cache.connected ==> (set k | k in userSessionKeys) == mine;
        var _ := cache.Del(now, userSessionKeys);
      }
    }
  }
}
