/**
 The session and refresh-token protocol of AuthService, one `await` at a time.

 A request is a program counter (`Pc`); `Advance` runs it up to its next database or cache call,
 or through the synchronous code between two calls.  `Finish` in module ServedRequests runs a
 request to its end without interruption; `Do` below interleaves any number of them.

 Ids are compared only for equality in the source, so they are numbers here.  A signed token is a
 value nobody can make without signing it, and the SHA-256 of a token is an injective constructor.
 */
module SessionModel {
  import opened Wrappers

  type UserId = nat
  type SessionId = nat
  type RequestId = nat

  /** Seconds. */
  const ACCESS_TTL: int := 3600
  const REFRESH_TTL: int := 2592000
  const USER_INFO_TTL: int := 3600

  datatype RefreshToken = RefreshToken(userId: UserId, sessionId: SessionId, tokenId: nat, exp: int)

  datatype AccessToken = AccessToken(userId: UserId, sessionId: SessionId, exp: int)

  /** The refreshToken column: the empty string of a new row, or the hash of a token. */
  datatype Hash = NoHash | HashOf(token: RefreshToken)

  datatype Session = Session(
    userId: UserId,
    hash: Hash,
    isValid: bool,
    deletedAt: Option<int>,
    createdAt: int,
    expiresAt: int)
  {
    /** Neither invalidated nor soft-deleted. */
    predicate Usable() {
      isValid && deletedAt.None?
    }
  }

  /** maxDevices is read from the configuration and may be 0 or negative; the cache may be absent. */
  datatype Config = Config(maxDevices: int, cacheOn: bool)

  /**
   Everything requests share: the clock, the userSession table, the id sources, the record of what
   was signed, and the deadlines of the session_invalid and user_info cache keys.
   */
  datatype Store = Store(
    now: int,
    sessions: map<SessionId, Session>,
    nextSession: nat,
    nextToken: nat,
    refreshSigned: set<RefreshToken>,
    accessSigned: set<AccessToken>,
    flags: map<SessionId, int>,
    info: map<UserId, int>)

  const EMPTY_STORE := Store(0, map[], 0, 0, {}, {}, map[], map[])

  datatype Outcome =
    | LoggedIn(token: RefreshToken)
    | Refreshed(token: RefreshToken)
    | Rejected
    | ReuseDetected
    | LoggedOut
    | SessionAccepted
    | SessionRefused
    | RowMissing

  /** What asked for every session of a user to be invalidated. */
  datatype Cause = TokenReuse | LogoutEverywhere

  datatype Pc =
    | LoginRead(u: UserId)
    | LoginInvalidate(u: UserId, ids: set<SessionId>)
    | LoginMark(u: UserId, ids: set<SessionId>)
    | LoginStamp(u: UserId)
    | LoginCreate(u: UserId, expiresAt: int)
    | LoginSign(u: UserId, s: SessionId)
    | LoginStore(u: UserId, s: SessionId, t: RefreshToken)
    | LoginCache(u: UserId, t: RefreshToken)
    | RefreshRead(t: RefreshToken)
    | RefreshCheck(t: RefreshToken, row: Option<Session>)
    | RefreshStore(s: SessionId, t: RefreshToken)
    | ExpireRow(s: SessionId, next: Outcome)
    | AllRead(u: UserId, cause: Cause)
    | AllInvalidate(u: UserId, ids: set<SessionId>, cause: Cause)
    | MarkThen(u: UserId, ids: set<SessionId>, cause: Cause)
    | LogoutOne(u: UserId, s: SessionId)
    | ClearInfo(u: UserId)
    | ValidateFlag(u: UserId, s: SessionId)
    | ValidateInfo(u: UserId, s: SessionId)
    | ValidateRead(u: UserId, s: SessionId)
    | ValidateCheck(u: UserId, s: SessionId, row: Option<Session>)
    | ValidateCache(u: UserId)
    | Done(outcome: Outcome)

  /** Where requests begin. */
  predicate IsEntry(pc: Pc) {
    || pc.LoginRead?
    || pc.RefreshRead?
    || (pc.AllRead? && pc.cause.LogoutEverywhere?)
    || pc.LogoutOne?
    || pc.ValidateFlag?
  }

  /** jwtService.verify: signed here and not expired. */
  predicate Verifies(st: Store, t: RefreshToken) {
    t in st.refreshSigned && st.now < t.exp
  }

  // ----- the table -----

  function ActiveOf(sessions: map<SessionId, Session>, u: UserId): set<SessionId> {
    set s | s in sessions && sessions[s].userId == u && sessions[s].Usable()
  }

  function Invalidate(sessions: map<SessionId, Session>, ids: set<SessionId>): map<SessionId, Session> {
    map s | s in sessions :: if s in ids then sessions[s].(isValid := false) else sessions[s]
  }

  function FindRow(sessions: map<SessionId, Session>, s: SessionId): Option<Session> {
    if s in sessions then Some(sessions[s]) else None
  }

  // ----- cache keys: present until their deadline -----

  predicate Flagged(st: Store, s: SessionId) {
    s in st.flags && st.now < st.flags[s]
  }

  predicate InfoCached(st: Store, u: UserId) {
    u in st.info && st.now < st.info[u]
  }

  function WithFlags(flags: map<SessionId, int>, ids: set<SessionId>, deadline: int): map<SessionId, int> {
    flags + map s | s in ids :: deadline
  }

  function Mark(cfg: Config, st: Store, ids: set<SessionId>): Store {
    if cfg.cacheOn then
      st.(flags := WithFlags(st.flags, ids, st.now + REFRESH_TTL))
    else
      st
  }

  function CacheInfo(cfg: Config, st: Store, u: UserId): Store {
    if cfg.cacheOn then st.(info := st.info[u := st.now + USER_INFO_TTL]) else st
  }

  // ----- signing -----

  function NewToken(st: Store, u: UserId, s: SessionId): RefreshToken {
    RefreshToken(u, s, st.nextToken, st.now + REFRESH_TTL)
  }

  function Sign(st: Store, u: UserId, s: SessionId): Store {
    st.(nextToken := st.nextToken + 1,
        refreshSigned := st.refreshSigned + {NewToken(st, u, s)},
        accessSigned := st.accessSigned + {AccessToken(u, s, st.now + ACCESS_TTL)})
  }

  function SetHash(st: Store, s: SessionId, h: Hash): Store
    requires s in st.sessions
  {
    st.(sessions := st.sessions[s := st.sessions[s].(hash := h)])
  }

  function AfterMarks(u: UserId, cause: Cause): Pc {
    match cause
    case TokenReuse => Done(ReuseDetected)
    case LogoutEverywhere => ClearInfo(u)
  }

  /** Which cache flag a marking loop sets next; anything else ignores `pick`. */
  predicate CanAdvance(pc: Pc, pick: SessionId) {
    && !pc.Done?
    && (pc.LoginMark? && pc.ids != {} ==> pick in pc.ids)
    && (pc.MarkThen? && pc.ids != {} ==> pick in pc.ids)
  }

  /** One step of one request. */
  function Advance(cfg: Config, st: Store, pc: Pc, pick: SessionId): (Store, Pc)
    requires CanAdvance(pc, pick)
  {
    match pc
    case LoginRead(u) =>
      var ids := ActiveOf(st.sessions, u);
      (st, if cfg.maxDevices > 0 && |ids| >= cfg.maxDevices then LoginInvalidate(u, ids) else LoginStamp(u))
    case LoginInvalidate(u, ids) =>
      (st.(sessions := Invalidate(st.sessions, ids)), LoginMark(u, ids))
    case LoginMark(u, ids) =>
      if ids == {} then (st, LoginStamp(u)) else (Mark(cfg, st, {pick}), LoginMark(u, ids - {pick}))
    case LoginStamp(u) =>
      (st, LoginCreate(u, st.now + REFRESH_TTL))
    case LoginCreate(u, expiresAt) =>
      var row := Session(u, NoHash, true, None, st.now, expiresAt);
      (st.(sessions := st.sessions[st.nextSession := row], nextSession := st.nextSession + 1),
       LoginSign(u, st.nextSession))
    case LoginSign(u, s) =>
      (Sign(st, u, s), LoginStore(u, s, NewToken(st, u, s)))
    case LoginStore(u, s, t) =>
      if s in st.sessions then (SetHash(st, s, HashOf(t)), LoginCache(u, t)) else (st, Done(RowMissing))
    case LoginCache(u, t) =>
      (CacheInfo(cfg, st, u), Done(LoggedIn(t)))

    case RefreshRead(t) =>
      (st, RefreshCheck(t, FindRow(st.sessions, t.sessionId)))
    case RefreshCheck(t, row) =>
      if row.None? || !row.value.Usable() then (st, Done(Rejected))
      else if st.now > row.value.expiresAt then (st, ExpireRow(t.sessionId, Rejected))
      else if row.value.hash != HashOf(t) then (st, AllRead(t.userId, TokenReuse))
      else (Sign(st, t.userId, t.sessionId), RefreshStore(t.sessionId, NewToken(st, t.userId, t.sessionId)))
    case RefreshStore(s, t) =>
      if s in st.sessions then (SetHash(st, s, HashOf(t)), Done(Refreshed(t))) else (st, Done(RowMissing))
    case ExpireRow(s, next) =>
      if s in st.sessions then (st.(sessions := Invalidate(st.sessions, {s})), Done(next))
      else (st, Done(RowMissing))

    case AllRead(u, cause) =>
      var ids := ActiveOf(st.sessions, u);
      (st, if ids == {} then AfterMarks(u, cause) else AllInvalidate(u, ids, cause))
    case AllInvalidate(u, ids, cause) =>
      // the update repeats the query: it need not hit the same rows
      (st.(sessions := Invalidate(st.sessions, ActiveOf(st.sessions, u))), MarkThen(u, ids, cause))
    case MarkThen(u, ids, cause) =>
      if ids == {} then (st, AfterMarks(u, cause)) else (Mark(cfg, st, {pick}), MarkThen(u, ids - {pick}, cause))
    case LogoutOne(u, s) =>
      if s in st.sessions then
        (st.(sessions := Invalidate(st.sessions, {s})), MarkThen(u, {s}, LogoutEverywhere))
      else (st, Done(RowMissing))
    case ClearInfo(u) =>
      (if cfg.cacheOn then st.(info := st.info - {u}) else st, Done(LoggedOut))

    case ValidateFlag(u, s) =>
      (st, if cfg.cacheOn && Flagged(st, s) then Done(SessionRefused) else ValidateInfo(u, s))
    case ValidateInfo(u, s) =>
      (st, if cfg.cacheOn && InfoCached(st, u) then Done(SessionAccepted) else ValidateRead(u, s))
    case ValidateRead(u, s) =>
      (st, ValidateCheck(u, s, FindRow(st.sessions, s)))
    case ValidateCheck(u, s, row) =>
      if row.None? || !row.value.Usable() || row.value.userId != u then (st, Done(SessionRefused))
      else if st.now > row.value.expiresAt then (st, ExpireRow(s, SessionRefused))
      else (st, ValidateCache(u))
    case ValidateCache(u) =>
      (CacheInfo(cfg, st, u), Done(SessionAccepted))
  }

  // ----- interleaving -----

  datatype World = World(st: Store, reqs: map<RequestId, Pc>)

  const EMPTY_WORLD := World(EMPTY_STORE, map[])

  /**
   StampDeleted and Purge are what the soft-delete middleware and the nightly job may do to a row.
   LoseFlag and LoseInfo are what Redis may do to a key: evict it, or never have stored it.
   */
  datatype Action =
    | Tick(seconds: nat)
    | Begin(r: RequestId, pc: Pc)
    | Run(r: RequestId, pick: SessionId)
    | StampDeleted(s: SessionId)
    | Purge(s: SessionId)
    | LoseFlag(s: SessionId)
    | LoseInfo(u: UserId)

  predicate Enabled(w: World, a: Action) {
    match a
    case Tick(_) => true
    case Begin(r, pc) => r !in w.reqs && IsEntry(pc) && (pc.RefreshRead? ==> Verifies(w.st, pc.t))
    case Run(r, pick) => r in w.reqs && CanAdvance(w.reqs[r], pick)
    case StampDeleted(s) => s in w.st.sessions
    case Purge(s) => s in w.st.sessions && w.st.sessions[s].deletedAt.Some?
    case LoseFlag(_) => true
    case LoseInfo(_) => true
  }

  function Do(cfg: Config, w: World, a: Action): World
    requires Enabled(w, a)
  {
    match a
    case Tick(seconds) => w.(st := w.st.(now := w.st.now + seconds))
    case Begin(r, pc) => w.(reqs := w.reqs[r := pc])
    case Run(r, pick) =>
      var (st, pc) := Advance(cfg, w.st, w.reqs[r], pick);
      World(st, w.reqs[r := pc])
    case StampDeleted(s) =>
      w.(st := w.st.(sessions := w.st.sessions[s := w.st.sessions[s].(deletedAt := Some(w.st.now))]))
    case Purge(s) => w.(st := w.st.(sessions := w.st.sessions - {s}))
    case LoseFlag(s) => w.(st := w.st.(flags := w.st.flags - {s}))
    case LoseInfo(u) => w.(st := w.st.(info := w.st.info - {u}))
  }

  /** `ws` is a run: each world follows from the one before by some enabled action. */
  ghost predicate IsRun(cfg: Config, ws: seq<World>) {
    && ws != []
    && forall i :: 0 <= i < |ws| - 1 ==> Follows(cfg, ws, i)
  }

  ghost predicate Follows(cfg: Config, ws: seq<World>, i: nat)
    requires i + 1 < |ws|
  {
    exists a :: Enabled(ws[i], a) && ws[i + 1] == Do(cfg, ws[i], a)
  }

  lemma StepAt(cfg: Config, ws: seq<World>, i: nat) returns (a: Action)
    requires IsRun(cfg, ws) && i + 1 < |ws|
    ensures Enabled(ws[i], a) && ws[i + 1] == Do(cfg, ws[i], a)
  {
    assert Follows(cfg, ws, i);
    a :| Enabled(ws[i], a) && ws[i + 1] == Do(cfg, ws[i], a);
  }
}
