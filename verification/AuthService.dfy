/**
 AuthService itself: each method works through its database and cache calls in the source's order
 and is proved to do what the uninterrupted protocol does.
 */
module AuthService {
  import opened Wrappers
  import opened SessionModel
  import opened ServedRequests

  class AuthService {
    const maxDevicesPerUser: int

    /** cacheService is not null. */
    var cachePresent: bool

    // the clock, the database, the signer's record and the cache, as the service sees them
    var now: int
    var sessions: map<SessionId, Session>
    var nextSession: nat
    var nextToken: nat
    var refreshSigned: set<RefreshToken>
    var accessSigned: set<AccessToken>
    var flags: map<SessionId, int>
    var info: map<UserId, int>

    ghost function View(): Store
      reads this
    {
      Store(now, sessions, nextSession, nextToken, refreshSigned, accessSigned, flags, info)
    }

    ghost function Cfg(): Config
      reads this
    {
      Config(maxDevicesPerUser, cachePresent)
    }

    constructor (maxDevicesPerUser: int)
      ensures View() == EMPTY_STORE && Cfg() == Config(maxDevicesPerUser, false)
    {
      this.maxDevicesPerUser := maxDevicesPerUser;
      cachePresent := false;
      now, sessions, nextSession, nextToken := 0, map[], 0, 0;
      refreshSigned, accessSigned, flags, info := {}, {}, map[], map[];
    }

    method SetCacheService()
      modifies `cachePresent
      ensures cachePresent
    {
      cachePresent := true;
    }

    method HandleGoogleLogin(u: UserId) returns (outcome: Outcome)
      modifies this
      ensures (View(), outcome) == Serve(old(Cfg()), old(View()), Login(u)) && Cfg() == old(Cfg())
      ensures outcome.LoggedIn? && outcome.token.userId == u && outcome.token.sessionId == old(nextSession)
      ensures old(nextSession) in sessions
      ensures sessions[old(nextSession)] == Session(u, HashOf(outcome.token), true, None, now, now + REFRESH_TTL)
    {
      LoginServed(Cfg(), View(), u);
      InvalidateExistingSessions(u);
      ghost var st := View();
      var s := CreateSession(u);
      assert View() == Created(st, u);
      var t := GenerateTokens(u, s);
      sessions := sessions[s := sessions[s].(hash := HashOf(t))];
      assert View() == WithLogin(st, u);
      CacheUserInfo(u);
      outcome := LoggedIn(t);
    }

    method RefreshTokens(t: RefreshToken) returns (outcome: Outcome)
      modifies this
      ensures (View(), outcome) == Serve(old(Cfg()), old(View()), Refresh(t)) && Cfg() == old(Cfg())
    {
      ghost var cfg, st0 := Cfg(), View();
      if t !in refreshSigned || now >= t.exp {
        return Rejected;
      }
      var session := FindRow(sessions, t.sessionId);
      ghost var check := RefreshCheck(t, session);
      assert Finish(cfg, st0, RefreshRead(t)) == Finish(cfg, st0, check);
      if session.None? || !session.value.isValid || session.value.deletedAt.Some? {
        assert Finish(cfg, st0, check) == Finish(cfg, st0, Done(Rejected));
        return Rejected;
      }
      if now > session.value.expiresAt {
        assert Finish(cfg, st0, check) == Finish(cfg, st0, ExpireRow(t.sessionId, Rejected));
        LastStep(cfg, st0, ExpireRow(t.sessionId, Rejected));
        sessions := Invalidate(sessions, {t.sessionId});
        return Rejected;
      }
      if session.value.hash != HashOf(t) {
        assert Finish(cfg, st0, check) == Finish(cfg, st0, AllRead(t.userId, TokenReuse));
        var _ := InvalidateAllUserSessions(t.userId);
        SweepFinishes(cfg, st0, t.userId, TokenReuse);
        return ReuseDetected;
      }
      var t' := GenerateTokens(t.userId, t.sessionId);
      assert Finish(cfg, st0, check) == Finish(cfg, View(), RefreshStore(t.sessionId, t'));
      LastStep(cfg, View(), RefreshStore(t.sessionId, t'));
      sessions := sessions[t.sessionId := sessions[t.sessionId].(hash := HashOf(t'))];
      return Refreshed(t');
    }

    method ValidateSession(u: UserId, s: SessionId) returns (outcome: Outcome)
      modifies this
      ensures (View(), outcome) == Serve(old(Cfg()), old(View()), Validate(u, s)) && Cfg() == old(Cfg())
    {
      ValidateServed(Cfg(), View(), u, s);
      DatabaseCheck(Cfg(), View(), u, s);
      var isInvalidated := IsSessionInvalidatedInCache(s);
      if isInvalidated {
        return SessionRefused;
      }
      var cached := HasCachedUserInfo(u);
      if cached {
        return SessionAccepted;
      }
      var session := FindRow(sessions, s);
      if session.None? || !session.value.isValid || session.value.deletedAt.Some? || session.value.userId != u {
        return SessionRefused;
      }
      if now > session.value.expiresAt {
        sessions := Invalidate(sessions, {s});
        return SessionRefused;
      }
      CacheUserInfo(u);
      return SessionAccepted;
    }

    method Logout(u: UserId, s: SessionId, allDevices: bool) returns (outcome: Outcome, sessionsInvalidated: nat)
      modifies this
      ensures (View(), outcome) == Serve(old(Cfg()), old(View()), ServedRequests.Logout(u, s, allDevices))
      ensures Cfg() == old(Cfg())
      ensures outcome.LoggedOut? ==>
        sessionsInvalidated == if allDevices then |ActiveOf(old(sessions), u)| else 1
    {
      LogoutServed(Cfg(), View(), u, s, allDevices);
      if allDevices {
        sessionsInvalidated := InvalidateAllUserSessions(u);
      } else {
        var found := InvalidateSingleSession(s);
        if !found {
          return RowMissing, 0;
        }
        sessionsInvalidated := 1;
      }
      ClearCachedUserInfo(u);
      return LoggedOut, sessionsInvalidated;
    }

    method GenerateTokens(u: UserId, s: SessionId) returns (t: RefreshToken)
      modifies `nextToken, `refreshSigned, `accessSigned
      ensures View() == Sign(old(View()), u, s) && t == NewToken(old(View()), u, s)
    {
      t := RefreshToken(u, s, nextToken, now + REFRESH_TTL);
      accessSigned := accessSigned + {AccessToken(u, s, now + ACCESS_TTL)};
      refreshSigned := refreshSigned + {t};
      nextToken := nextToken + 1;
    }

    /** Under the limit nothing happens; at the limit every active session goes, and all are flagged. */
    method InvalidateExistingSessions(u: UserId)
      modifies `sessions, `flags
      ensures View() == Displaced(Cfg(), old(View()), u)
    {
      var activeSessions := ActiveOf(sessions, u);
      if maxDevicesPerUser > 0 && |activeSessions| >= maxDevicesPerUser {
        sessions := Invalidate(sessions, activeSessions);
        MarkAll(activeSessions);
      }
    }

    method MarkAll(ids: set<SessionId>)
      modifies `flags
      ensures View() == Mark(Cfg(), old(View()), ids)
    {
      ghost var st := View();
      var marked: set<SessionId> := {};
      MarkNone(Cfg(), st);
      while marked != ids
        invariant marked <= ids && View() == Mark(Cfg(), st, marked)
        decreases ids - marked
      {
        assert ids == marked + (ids - marked);
        var s :| s in ids - marked;
        MarkInParts(Cfg(), st, marked, {s});
        MarkSessionInvalidInCache(s);
        marked := marked + {s};
      }
    }

    method CreateSession(u: UserId) returns (s: SessionId)
      modifies `sessions, `nextSession
      ensures s == old(nextSession) && nextSession == s + 1
      ensures sessions == old(sessions)[s := Session(u, NoHash, true, None, now, now + REFRESH_TTL)]
    {
      var expiresAt := now + REFRESH_TTL;
      s := nextSession;
      sessions := sessions[s := Session(u, NoHash, true, None, now, expiresAt)];
      nextSession := nextSession + 1;
    }

    method InvalidateAllUserSessions(u: UserId) returns (count: nat)
      modifies `sessions, `flags
      ensures count == |ActiveOf(old(sessions), u)|
      ensures View() == Swept(Cfg(), old(View()), u)
    {
      var activeSessions := ActiveOf(sessions, u);
      if |activeSessions| == 0 {
        return 0;
      }
      sessions := Invalidate(sessions, ActiveOf(sessions, u));
      MarkAll(activeSessions);
      return |activeSessions|;
    }

    /** `found` is false when the update has no row to write, which the source reports by throwing. */
    method InvalidateSingleSession(s: SessionId) returns (found: bool)
      modifies `sessions, `flags
      ensures found == (s in old(sessions))
      ensures var st := old(View());
        View() == if found then Mark(Cfg(), st.(sessions := Invalidate(st.sessions, {s})), {s}) else st
    {
      if s !in sessions {
        return false;
      }
      sessions := Invalidate(sessions, {s});
      MarkSessionInvalidInCache(s);
      return true;
    }

    method MarkSessionInvalidInCache(s: SessionId)
      modifies `flags
      ensures View() == Mark(Cfg(), old(View()), {s})
    {
      if !cachePresent {
        return;
      }
      MarkOne(Cfg(), View(), s);
      flags := flags[s := now + REFRESH_TTL];
    }

    method IsSessionInvalidatedInCache(s: SessionId) returns (flagged: bool)
      ensures flagged == (cachePresent && Flagged(View(), s))
    {
      flagged := cachePresent && s in flags && now < flags[s];
    }

    method CacheUserInfo(u: UserId)
      modifies `info
      ensures View() == CacheInfo(Cfg(), old(View()), u)
    {
      if cachePresent {
        info := info[u := now + USER_INFO_TTL];
      }
    }

    method HasCachedUserInfo(u: UserId) returns (hit: bool)
      ensures hit == (cachePresent && InfoCached(View(), u))
    {
      hit := cachePresent && u in info && now < info[u];
    }

    method ClearCachedUserInfo(u: UserId)
      modifies `info
      ensures info == if cachePresent then old(info) - {u} else old(info)
    {
      if cachePresent {
        info := info - {u};
      }
    }
  }

  lemma MarkNone(cfg: Config, st: Store)
    ensures Mark(cfg, st, {}) == st
  {
    assert Mark(cfg, st, {}).flags == st.flags;
  }

  lemma MarkOne(cfg: Config, st: Store, s: SessionId)
    ensures Mark(cfg, st, {s}).flags == if cfg.cacheOn then st.flags[s := st.now + REFRESH_TTL] else st.flags
  {
  }
}
