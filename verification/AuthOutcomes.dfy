/**
 What each request to AuthService does when nothing interrupts it, outcome by outcome and row by row,
 in terms of the table and the cache keys alone.
 */
module AuthOutcomes {
  import opened Wrappers
  import opened SessionModel
  import opened ServedRequests

  // ----- the parts of a request -----

  lemma ActivePlainly(sessions: map<SessionId, Session>, u: UserId)
    ensures ActiveOf(sessions, u)
      == set s | s in sessions && sessions[s].userId == u && sessions[s].isValid && sessions[s].deletedAt == None
  {
  }

  lemma InvalidatedPlainly(sessions: map<SessionId, Session>, ids: set<SessionId>)
    ensures Invalidate(sessions, ids).Keys == sessions.Keys
    ensures forall s <- sessions ::
      Invalidate(sessions, ids)[s] == if s in ids then sessions[s].(isValid := false) else sessions[s]
  {
  }

  lemma MarkedPlainly(cfg: Config, st: Store, ids: set<SessionId>)
    ensures Mark(cfg, st, ids) == st.(flags := Mark(cfg, st, ids).flags)
    ensures !cfg.cacheOn ==> Mark(cfg, st, ids).flags == st.flags
    ensures cfg.cacheOn ==> Mark(cfg, st, ids).flags.Keys == st.flags.Keys + ids
    ensures cfg.cacheOn ==> forall s <- st.flags.Keys + ids ::
      Mark(cfg, st, ids).flags[s] == if s in ids then st.now + 2592000 else st.flags[s]
  {
  }

  /** All of u's valid sessions are made invalid and flagged for 30 days, and nothing else is touched. */
  ghost predicate SweptPlainly(cfg: Config, st: Store, u: UserId, st': Store) {
    var active := set s | s in st.sessions && st.sessions[s].userId == u && st.sessions[s].isValid
                          && st.sessions[s].deletedAt == None;
    && st' == st.(sessions := st'.sessions, flags := st'.flags)
    && st'.sessions.Keys == st.sessions.Keys
    && (forall s <- st.sessions ::
          st'.sessions[s] == if s in active then st.sessions[s].(isValid := false) else st.sessions[s])
    && st'.flags.Keys == (if cfg.cacheOn then st.flags.Keys + active else st.flags.Keys)
    && (forall s <- st'.flags :: st'.flags[s] == if cfg.cacheOn && s in active then st.now + 2592000 else st.flags[s])
  }

  lemma MarkAfterInvalidate(cfg: Config, st: Store, u: UserId)
    ensures var ids := ActiveOf(st.sessions, u);
      SweptPlainly(cfg, st, u, Mark(cfg, st.(sessions := Invalidate(st.sessions, ids)), ids))
  {
    var ids := ActiveOf(st.sessions, u);
    ActivePlainly(st.sessions, u);
    InvalidatedPlainly(st.sessions, ids);
    MarkedPlainly(cfg, st.(sessions := Invalidate(st.sessions, ids)), ids);
  }

  lemma SweepPlainly(cfg: Config, st: Store, u: UserId)
    ensures SweptPlainly(cfg, st, u, Swept(cfg, st, u))
  {
    MarkAfterInvalidate(cfg, st, u);
    ActivePlainly(st.sessions, u);
  }

  // ----- refresh -----

  /** A token that was not signed here, or has expired: nothing happens. */
  lemma ForeignTokenIsRejected(cfg: Config, st: Store, t: RefreshToken)
    requires t !in st.refreshSigned || st.now >= t.exp
    ensures Serve(cfg, st, Refresh(t)) == (st, Rejected)
  {
  }

  /**
   What the check decides about the row it was given, at whatever moment it comes: a missing, invalid
   or deleted row ends the request and writes nothing; an expired one is to be marked; one with
   another hash starts a sweep; only the stored token of a good row gets a new one.
   */
  lemma RefreshCheckDecides(cfg: Config, st: Store, t: RefreshToken, row: Option<Session>, pick: SessionId)
    ensures row.None? || !row.value.isValid || row.value.deletedAt.Some? ==>
      Advance(cfg, st, RefreshCheck(t, row), pick) == (st, Done(Rejected))
    ensures row.Some? && row.value.isValid && row.value.deletedAt.None? ==>
      Advance(cfg, st, RefreshCheck(t, row), pick) ==
        if st.now > row.value.expiresAt then (st, ExpireRow(t.sessionId, Rejected))
        else if row.value.hash != HashOf(t) then (st, AllRead(t.userId, TokenReuse))
        else (Sign(st, t.userId, t.sessionId),
              RefreshStore(t.sessionId,
                           RefreshToken(t.userId, t.sessionId, st.nextToken, st.now + 2592000)))
  {
  }

  /** A session that is missing, invalid or deleted: nothing happens, and no other session is touched. */
  lemma UnusableSessionIsRejected(cfg: Config, st: Store, t: RefreshToken)
    requires t.sessionId !in st.sessions || !st.sessions[t.sessionId].isValid || st.sessions[t.sessionId].deletedAt.Some?
    ensures Serve(cfg, st, Refresh(t)) == (st, Rejected)
  {
    if t in st.refreshSigned && st.now < t.exp {
      var check := RefreshCheck(t, FindRow(st.sessions, t.sessionId));
      assert Finish(cfg, st, RefreshRead(t)) == Finish(cfg, st, check);
      LastStep(cfg, st, check);
    }
  }

  /** A valid session past its end is made invalid, it alone. */
  lemma ExpiredSessionIsClosed(cfg: Config, st: Store, t: RefreshToken)
    requires t in st.refreshSigned && st.now < t.exp && t.sessionId in st.sessions
    requires var row := st.sessions[t.sessionId];
      row.isValid && row.deletedAt.None? && st.now > row.expiresAt
    ensures var row := st.sessions[t.sessionId];
      Serve(cfg, st, Refresh(t)) == (st.(sessions := st.sessions[t.sessionId := row.(isValid := false)]), Rejected)
  {
    var check := RefreshCheck(t, FindRow(st.sessions, t.sessionId));
    var expire := ExpireRow(t.sessionId, Rejected);
    assert Finish(cfg, st, RefreshRead(t)) == Finish(cfg, st, check);
    assert Finish(cfg, st, check) == Finish(cfg, st, expire);
    LastStep(cfg, st, expire);
    assert Invalidate(st.sessions, {t.sessionId})
      == st.sessions[t.sessionId := st.sessions[t.sessionId].(isValid := false)];
  }

  /** Another hash in a good row: every valid session of the token's user goes, and nothing else. */
  lemma OtherHashSweeps(cfg: Config, st: Store, t: RefreshToken)
    requires t in st.refreshSigned && st.now < t.exp && t.sessionId in st.sessions
    requires var row := st.sessions[t.sessionId];
      row.isValid && row.deletedAt.None? && st.now <= row.expiresAt && row.hash != HashOf(t)
    ensures var (st', outcome) := Serve(cfg, st, Refresh(t));
      outcome == ReuseDetected && SweptPlainly(cfg, st, t.userId, st')
  {
    var check := RefreshCheck(t, FindRow(st.sessions, t.sessionId));
    assert Finish(cfg, st, RefreshRead(t)) == Finish(cfg, st, check);
    assert Finish(cfg, st, check) == Finish(cfg, st, AllRead(t.userId, TokenReuse));
    SweepFinishes(cfg, st, t.userId, TokenReuse);
    SweepPlainly(cfg, st, t.userId);
  }

  /** The stored token of a good row: a new pair is signed and the new hash stored; the row keeps its end. */
  lemma StoredTokenIsRotated(cfg: Config, st: Store, t: RefreshToken)
    requires t in st.refreshSigned && st.now < t.exp
    requires t.sessionId in st.sessions && st.sessions[t.sessionId].userId == t.userId
    requires var row := st.sessions[t.sessionId];
      row.isValid && row.deletedAt.None? && st.now <= row.expiresAt && row.hash == HashOf(t)
    ensures var next := RefreshToken(t.userId, t.sessionId, st.nextToken, st.now + 2592000);
      Serve(cfg, st, Refresh(t)) ==
        (st.(sessions := st.sessions[t.sessionId := st.sessions[t.sessionId].(hash := HashOf(next))],
             nextToken := st.nextToken + 1,
             refreshSigned := st.refreshSigned + {next},
             accessSigned := st.accessSigned + {AccessToken(t.userId, t.sessionId, st.now + 3600)}),
         Refreshed(next))
  {
    RefreshRotates(cfg, st, t);
  }

  // ----- login -----

  /** At a positive limit that is met, the user's valid sessions go; otherwise none does. */
  lemma LoginDisplaces(cfg: Config, st: Store, u: UserId)
    ensures var active := set s | s in st.sessions && st.sessions[s].userId == u && st.sessions[s].isValid
                                  && st.sessions[s].deletedAt == None;
      if cfg.maxDevices > 0 && |active| >= cfg.maxDevices then SweptPlainly(cfg, st, u, Displaced(cfg, st, u))
      else Displaced(cfg, st, u) == st
  {
    ActivePlainly(st.sessions, u);
    MarkAfterInvalidate(cfg, st, u);
  }

  /** After that one session is added, for 30 days, with the hash of the token given out. */
  lemma LoginAddsSession(cfg: Config, st: Store, u: UserId)
    ensures var st1 := Displaced(cfg, st, u);
      var n := st.nextSession;
      var t := RefreshToken(u, n, st.nextToken, st.now + 2592000);
      Serve(cfg, st, Login(u)) ==
        (st1.(sessions := st1.sessions[n := Session(u, HashOf(t), true, None, st.now, st.now + 2592000)],
              nextSession := n + 1,
              nextToken := st.nextToken + 1,
              refreshSigned := st.refreshSigned + {t},
              accessSigned := st.accessSigned + {AccessToken(u, n, st.now + 3600)},
              info := if cfg.cacheOn then st.info[u := st.now + 3600] else st.info),
         LoggedIn(t))
  {
    LoginServed(cfg, st, u);
    LoginDisplaces(cfg, st, u);
    var st1, n := Displaced(cfg, st, u), st.nextSession;
    var h := HashOf(RefreshToken(u, n, st.nextToken, st.now + 2592000));
    var row := Session(u, NoHash, true, None, st.now, st.now + 2592000);
    assert st1.sessions[n := row][n := row.(hash := h)] == st1.sessions[n := row.(hash := h)];
  }

  // ----- logout -----

  /** One device: that session is made invalid and flagged, and the user's cached info goes. */
  lemma LogoutOneDevice(cfg: Config, st: Store, u: UserId, s: SessionId)
    ensures s !in st.sessions ==> Serve(cfg, st, Logout(u, s, false)) == (st, RowMissing)
    ensures s in st.sessions ==>
      Serve(cfg, st, Logout(u, s, false)) ==
        (st.(sessions := st.sessions[s := st.sessions[s].(isValid := false)],
             flags := if cfg.cacheOn then st.flags[s := st.now + 2592000] else st.flags,
             info := if cfg.cacheOn then st.info - {u} else st.info),
         LoggedOut)
  {
    LogoutServed(cfg, st, u, s, false);
    if s in st.sessions {
      assert Invalidate(st.sessions, {s}) == st.sessions[s := st.sessions[s].(isValid := false)];
      assert WithFlags(st.flags, {s}, st.now + REFRESH_TTL) == st.flags[s := st.now + 2592000];
    }
  }

  /** All devices: the user's valid sessions are swept, and the user's cached info goes. */
  lemma LogoutAllDevices(cfg: Config, st: Store, u: UserId, s: SessionId)
    ensures var (st', outcome) := Serve(cfg, st, Logout(u, s, true));
      && outcome == LoggedOut
      && SweptPlainly(cfg, st, u, st'.(info := st.info))
      && st'.info == (if cfg.cacheOn then st.info - {u} else st.info)
  {
    LogoutServed(cfg, st, u, s, true);
    SweepPlainly(cfg, st, u);
  }

  // ----- the session check -----

  /**
   A live flag refuses; else live cached info accepts; else the row decides: it must exist, be valid
   and not deleted, belong to the user and not be past its end.  Only then is info cached for an hour;
   a row of the user that is past its end is made invalid.
   */
  lemma ValidateDecides(cfg: Config, st: Store, u: UserId, s: SessionId)
    ensures var flagged := cfg.cacheOn && s in st.flags && st.now < st.flags[s];
      var cached := cfg.cacheOn && u in st.info && st.now < st.info[u];
      var owned := s in st.sessions && st.sessions[s].isValid && st.sessions[s].deletedAt == None
                   && st.sessions[s].userId == u;
      Serve(cfg, st, Validate(u, s)) ==
        if flagged then (st, SessionRefused)
        else if cached then (st, SessionAccepted)
        else if !owned then (st, SessionRefused)
        else if st.now > st.sessions[s].expiresAt then
          (st.(sessions := st.sessions[s := st.sessions[s].(isValid := false)]), SessionRefused)
        else (st.(info := if cfg.cacheOn then st.info[u := st.now + 3600] else st.info), SessionAccepted)
  {
    ValidateServed(cfg, st, u, s);
    DatabaseCheck(cfg, st, u, s);
    if s in st.sessions {
      assert Invalidate(st.sessions, {s}) == st.sessions[s := st.sessions[s].(isValid := false)];
    }
  }

  // ----- the writes of interleaved requests -----

  ghost predicate RowsInvalidated(st: Store, ids: set<SessionId>, st': Store) {
    && st' == st.(sessions := st'.sessions)
    && st'.sessions.Keys == st.sessions.Keys
    && forall s <- st.sessions ::
      st'.sessions[s] == if s in ids then st.sessions[s].(isValid := false) else st.sessions[s]
  }

  /**
   However much has happened since it read: a login invalidates the rows it had read, by id, and no
   others; a sweep invalidates the rows that are the user's valid ones now, and flags those it had read.
   */
  lemma InvalidationsSpelled(cfg: Config, st: Store, u: UserId, ids: set<SessionId>, cause: Cause, pick: SessionId)
    ensures var (st', pc') := Advance(cfg, st, LoginInvalidate(u, ids), pick);
      RowsInvalidated(st, ids, st') && pc' == LoginMark(u, ids)
    ensures var (st', pc') := Advance(cfg, st, AllInvalidate(u, ids, cause), pick);
      var active := set s | s in st.sessions && st.sessions[s].userId == u && st.sessions[s].isValid
                            && st.sessions[s].deletedAt == None;
      RowsInvalidated(st, active, st') && pc' == MarkThen(u, ids, cause)
  {
    ActivePlainly(st.sessions, u);
    InvalidatedPlainly(st.sessions, ids);
    InvalidatedPlainly(st.sessions, ActiveOf(st.sessions, u));
  }

  /** Writes by id fail where the row is gone; a new row takes the end computed before the create. */
  lemma RowWritesSpelled(cfg: Config, st: Store, u: UserId, s: SessionId, t: RefreshToken, end: int, pick: SessionId)
    ensures Advance(cfg, st, LoginCreate(u, end), pick) ==
      (st.(sessions := st.sessions[st.nextSession := Session(u, NoHash, true, None, st.now, end)],
           nextSession := st.nextSession + 1),
       LoginSign(u, st.nextSession))
    ensures s !in st.sessions ==>
      && Advance(cfg, st, LoginStore(u, s, t), pick) == (st, Done(RowMissing))
      && Advance(cfg, st, RefreshStore(s, t), pick) == (st, Done(RowMissing))
      && Advance(cfg, st, ExpireRow(s, Rejected), pick) == (st, Done(RowMissing))
      && Advance(cfg, st, LogoutOne(u, s), pick) == (st, Done(RowMissing))
    ensures s in st.sessions ==>
      var hashed := st.(sessions := st.sessions[s := st.sessions[s].(hash := HashOf(t))]);
      && Advance(cfg, st, LoginStore(u, s, t), pick) == (hashed, LoginCache(u, t))
      && Advance(cfg, st, RefreshStore(s, t), pick) == (hashed, Done(Refreshed(t)))
      && RowsInvalidated(st, {s}, Advance(cfg, st, ExpireRow(s, Rejected), pick).0)
      && RowsInvalidated(st, {s}, Advance(cfg, st, LogoutOne(u, s), pick).0)
  {
    InvalidatedPlainly(st.sessions, {s});
  }
}
