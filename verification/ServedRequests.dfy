/**
 Requests served one after another.

 `Finish` runs a request of module SessionModel to its end without interruption; the methods of
 class AuthService are proved equal to it.  About whole sequences of served requests: the cached
 session check agrees with the database check up to the session's expiry, a refresh token works at
 most once, and rotation does not extend what a login can be used for.
 */
module ServedRequests {
  import opened Wrappers
  import opened SessionModel
  import opened SessionSafety

  // ----- a request without interruption -----

  function Rank(pc: Pc): nat {
    match pc
    case LoginRead(_) => 9
    case LoginInvalidate(_, _) => 8
    case LoginMark(_, _) => 7
    case LoginStamp(_) => 6
    case LoginCreate(_, _) => 5
    case LoginSign(_, _) => 4
    case LoginStore(_, _, _) => 3
    case LoginCache(_, _) => 2
    case RefreshRead(_) => 7
    case RefreshCheck(_, _) => 6
    case RefreshStore(_, _) => 1
    case ExpireRow(_, _) => 1
    case AllRead(_, _) => 5
    case AllInvalidate(_, _, _) => 4
    case MarkThen(_, _, _) => 3
    case LogoutOne(_, _) => 4
    case ClearInfo(_) => 1
    case ValidateFlag(_, _) => 5
    case ValidateInfo(_, _) => 4
    case ValidateRead(_, _) => 3
    case ValidateCheck(_, _, _) => 2
    case ValidateCache(_) => 1
    case Done(_) => 0
  }

  /** One step, with a whole marking loop counted as one. */
  function Leap(cfg: Config, st: Store, pc: Pc): (Store, Pc) {
    match pc
    case LoginMark(u, ids) => (Mark(cfg, st, ids), LoginStamp(u))
    case MarkThen(u, ids, cause) => (Mark(cfg, st, ids), AfterMarks(u, cause))
    case Done(_) => (st, pc)
    case _ => Advance(cfg, st, pc, 0)
  }

  function Finish(cfg: Config, st: Store, pc: Pc): (Store, Outcome)
    decreases Rank(pc)
  {
    if pc.Done? then (st, pc.outcome) else
      var (st', pc') := Leap(cfg, st, pc);
      Finish(cfg, st', pc')
  }

  lemma LastStep(cfg: Config, st: Store, pc: Pc)
    requires !pc.Done? && Leap(cfg, st, pc).1.Done?
    ensures Finish(cfg, st, pc) == (Leap(cfg, st, pc).0, Leap(cfg, st, pc).1.outcome)
  {
  }

  datatype Request =
    | Login(u: UserId)
    | Refresh(t: RefreshToken)
    | Logout(u: UserId, s: SessionId, allDevices: bool)
    | Validate(u: UserId, s: SessionId)

  function EntryOf(q: Request): Pc {
    match q
    case Login(u) => LoginRead(u)
    case Refresh(t) => RefreshRead(t)
    case Logout(u, s, allDevices) => if allDevices then AllRead(u, LogoutEverywhere) else LogoutOne(u, s)
    case Validate(u, s) => ValidateFlag(u, s)
  }

  function Serve(cfg: Config, st: Store, q: Request): (Store, Outcome) {
    if q.Refresh? && !Verifies(st, q.t) then (st, Rejected) else Finish(cfg, st, EntryOf(q))
  }

  datatype Event = Wait(seconds: nat) | Request(q: Request)

  function AfterEvent(cfg: Config, st: Store, e: Event): Store {
    match e
    case Wait(seconds) => st.(now := st.now + seconds)
    case Request(q) => Serve(cfg, st, q).0
  }

  /** The store after serving the events in order, starting from nothing. */
  function After(cfg: Config, events: seq<Event>): Store {
    if events == [] then EMPTY_STORE
    else AfterEvent(cfg, After(cfg, events[..|events| - 1]), events[|events| - 1])
  }

  // ----- Finish is one of the interleavings -----

  lemma FlagsInParts(flags: map<SessionId, int>, some: set<SessionId>, others: set<SessionId>, deadline: int)
    ensures WithFlags(WithFlags(flags, some, deadline), others, deadline) == WithFlags(flags, some + others, deadline)
  {
  }

  lemma MarkInParts(cfg: Config, st: Store, some: set<SessionId>, others: set<SessionId>)
    ensures Mark(cfg, Mark(cfg, st, some), others) == Mark(cfg, st, some + others)
  {
    FlagsInParts(st.flags, some, others, st.now + REFRESH_TTL);
  }

  lemma MarkOneByOne(cfg: Config, st: Store, ids: set<SessionId>, pick: SessionId)
    requires pick in ids
    ensures Mark(cfg, Mark(cfg, st, {pick}), ids - {pick}) == Mark(cfg, st, ids)
  {
    MarkInParts(cfg, st, {pick}, ids - {pick});
    assert {pick} + (ids - {pick}) == ids;
  }

  function ToMark(pc: Pc): set<SessionId> {
    if pc.LoginMark? || pc.MarkThen? then pc.ids else {}
  }

  /** Whichever flag a marking loop sets next, the request ends the same. */
  lemma FinishAfterStep(cfg: Config, st: Store, pc: Pc, pick: SessionId)
    requires CanAdvance(pc, pick)
    ensures var (st', pc') := Advance(cfg, st, pc, pick); Finish(cfg, st', pc') == Finish(cfg, st, pc)
  {
    if ToMark(pc) != {} {
      MarkOneByOne(cfg, st, ToMark(pc), pick);
    } else if pc.LoginMark? || pc.MarkThen? {
      assert Mark(cfg, st, pc.ids).flags == st.flags;
    }
  }

  lemma AdvanceDescends(cfg: Config, st: Store, pc: Pc, pick: SessionId)
    requires CanAdvance(pc, pick)
    ensures var pc' := Advance(cfg, st, pc, pick).1;
      Rank(pc') < Rank(pc) || (Rank(pc') == Rank(pc) && |ToMark(pc')| < |ToMark(pc)|)
  {
  }

  lemma Prepend(cfg: Config, w: World, a: Action, ws: seq<World>)
    requires IsRun(cfg, ws) && Enabled(w, a) && ws[0] == Do(cfg, w, a)
    ensures IsRun(cfg, [w] + ws)
  {
    var all := [w] + ws;
    forall i | 0 <= i < |all| - 1
      ensures Follows(cfg, all, i)
    {
      if i == 0 {
        assert all[1] == Do(cfg, all[0], a);
      } else {
        var b := StepAt(cfg, ws, i - 1);
        assert all[i + 1] == Do(cfg, all[i], b);
      }
    }
  }

  lemma PrependStep(cfg: Config, w: World, r: RequestId, pick: SessionId, rest: seq<World>, st: Store, pc: Pc)
    requires Enabled(w, Run(r, pick)) && IsRun(cfg, rest) && rest[0] == Do(cfg, w, Run(r, pick))
    requires rest[|rest| - 1] == World(st, rest[0].reqs[r := pc])
    ensures IsRun(cfg, [w] + rest) && ([w] + rest)[|rest|] == World(st, w.reqs[r := pc])
  {
    Prepend(cfg, w, Run(r, pick), rest);
  }

  /** w' has the requests of w, all where they were except perhaps r. */
  ghost predicate OnlyOneMoves(w: World, w': World, r: RequestId) {
    && w'.reqs.Keys == w.reqs.Keys
    && forall q <- w.reqs :: q != r ==> w'.reqs[q] == w.reqs[q]
  }

  lemma OthersStay(w: World, w': World, rest: seq<World>, r: RequestId)
    requires OnlyOneMoves(w, w', r) && forall i :: 0 <= i < |rest| ==> OnlyOneMoves(w', rest[i], r)
    ensures forall i :: 0 <= i < |[w] + rest| ==> OnlyOneMoves(w, ([w] + rest)[i], r)
  {
    forall i | 0 <= i < |[w] + rest|
      ensures OnlyOneMoves(w, ([w] + rest)[i], r)
    {
      assert i > 0 ==> OnlyOneMoves(w', rest[i - 1], r);
    }
  }

  /** Giving one request every turn brings it where `Finish` says, with everyone else left alone. */
  lemma {:induction false} FinishIsARun(cfg: Config, w: World, r: RequestId) returns (ws: seq<World>)
    requires r in w.reqs
    ensures IsRun(cfg, ws) && ws[0] == w
    ensures var (st, outcome) := Finish(cfg, w.st, w.reqs[r]);
      ws[|ws| - 1] == World(st, w.reqs[r := Done(outcome)])
    ensures forall i :: 0 <= i < |ws| ==> OnlyOneMoves(w, ws[i], r)
    decreases Rank(w.reqs[r]), |ToMark(w.reqs[r])|
  {
    var pc := w.reqs[r];
    if pc.Done? {
      ws := [w];
      assert w.reqs[r := pc] == w.reqs;
    } else {
      var pick: SessionId := 0;
      if ToMark(pc) != {} {
        pick :| pick in ToMark(pc);
      }
      FinishAfterStep(cfg, w.st, pc, pick);
      AdvanceDescends(cfg, w.st, pc, pick);
      var w' := Do(cfg, w, Run(r, pick));
      var rest := FinishIsARun(cfg, w', r);
      var (st, outcome) := Finish(cfg, w.st, pc);
      PrependStep(cfg, w, r, pick, rest, st, Done(outcome));
      ws := [w] + rest;
      OthersStay(w, w', rest, r);
    }
  }

  // ----- stretches of a request -----

  /** A login at the device limit first invalidates and flags every active session of its user. */
  function Displaced(cfg: Config, st: Store, u: UserId): Store {
    var ids := ActiveOf(st.sessions, u);
    if cfg.maxDevices > 0 && |ids| >= cfg.maxDevices
    then Mark(cfg, st.(sessions := Invalidate(st.sessions, ids)), ids) else st
  }

  lemma LoginInvalidates(cfg: Config, st: Store, u: UserId)
    ensures Finish(cfg, st, LoginRead(u)) == Finish(cfg, Displaced(cfg, st, u), LoginStamp(u))
  {
    var ids := ActiveOf(st.sessions, u);
    if cfg.maxDevices > 0 && |ids| >= cfg.maxDevices {
      var st1 := st.(sessions := Invalidate(st.sessions, ids));
      assert Finish(cfg, st, LoginRead(u)) == Finish(cfg, st, LoginInvalidate(u, ids));
      assert Finish(cfg, st, LoginInvalidate(u, ids)) == Finish(cfg, st1, LoginMark(u, ids));
      assert Finish(cfg, st1, LoginMark(u, ids)) == Finish(cfg, Mark(cfg, st1, ids), LoginStamp(u));
    }
  }

  function Created(st: Store, u: UserId): Store {
    st.(sessions := st.sessions[st.nextSession := Session(u, NoHash, true, None, st.now, st.now + REFRESH_TTL)],
        nextSession := st.nextSession + 1)
  }

  /** A new session holding the hash of a new token. */
  function WithLogin(st: Store, u: UserId): Store {
    SetHash(Sign(Created(st, u), u, st.nextSession), st.nextSession, HashOf(NewToken(st, u, st.nextSession)))
  }

  lemma LoginCreates(cfg: Config, st: Store, u: UserId)
    ensures Finish(cfg, st, LoginStamp(u))
      == (CacheInfo(cfg, WithLogin(st, u), u), LoggedIn(NewToken(st, u, st.nextSession)))
  {
    var s := st.nextSession;
    var t := NewToken(st, u, s);
    var st1 := Created(st, u);
    var st2 := Sign(st1, u, s);
    assert Finish(cfg, st, LoginStamp(u)) == Finish(cfg, st, LoginCreate(u, st.now + REFRESH_TTL));
    assert Finish(cfg, st, LoginCreate(u, st.now + REFRESH_TTL)) == Finish(cfg, st1, LoginSign(u, s));
    assert Finish(cfg, st1, LoginSign(u, s)) == Finish(cfg, st2, LoginStore(u, s, t));
    assert Finish(cfg, st2, LoginStore(u, s, t)) == Finish(cfg, SetHash(st2, s, HashOf(t)), LoginCache(u, t));
    LastStep(cfg, SetHash(st2, s, HashOf(t)), LoginCache(u, t));
  }

  lemma LoginServed(cfg: Config, st: Store, u: UserId)
    ensures var st1 := Displaced(cfg, st, u);
      Serve(cfg, st, Login(u)) == (CacheInfo(cfg, WithLogin(st1, u), u), LoggedIn(NewToken(st1, u, st1.nextSession)))
  {
    LoginInvalidates(cfg, st, u);
    LoginCreates(cfg, Displaced(cfg, st, u), u);
  }

  /** Invalidates and flags exactly the user's active sessions. */
  function Swept(cfg: Config, st: Store, u: UserId): Store {
    var ids := ActiveOf(st.sessions, u);
    if ids == {} then st else Mark(cfg, st.(sessions := Invalidate(st.sessions, ids)), ids)
  }

  lemma SweepFinishes(cfg: Config, st: Store, u: UserId, cause: Cause)
    ensures Finish(cfg, st, AllRead(u, cause)) == Finish(cfg, Swept(cfg, st, u), AfterMarks(u, cause))
  {
    var ids := ActiveOf(st.sessions, u);
    if ids != {} {
      var st1 := st.(sessions := Invalidate(st.sessions, ids));
      assert Finish(cfg, st, AllRead(u, cause)) == Finish(cfg, st, AllInvalidate(u, ids, cause));
      assert Finish(cfg, st, AllInvalidate(u, ids, cause)) == Finish(cfg, st1, MarkThen(u, ids, cause));
      assert Finish(cfg, st1, MarkThen(u, ids, cause)) == Finish(cfg, Mark(cfg, st1, ids), AfterMarks(u, cause));
    }
  }

  lemma LogoutOneInvalidates(cfg: Config, st: Store, u: UserId, s: SessionId)
    requires s in st.sessions
    ensures Finish(cfg, st, LogoutOne(u, s))
      == Finish(cfg, Mark(cfg, st.(sessions := Invalidate(st.sessions, {s})), {s}), ClearInfo(u))
  {
    var st1 := st.(sessions := Invalidate(st.sessions, {s}));
    assert Finish(cfg, st, LogoutOne(u, s)) == Finish(cfg, st1, MarkThen(u, {s}, LogoutEverywhere));
    assert Finish(cfg, st1, MarkThen(u, {s}, LogoutEverywhere)) == Finish(cfg, Mark(cfg, st1, {s}), ClearInfo(u));
  }

  /** What a logout leaves, where it finds something to invalidate. */
  function LoggedOutStore(cfg: Config, st: Store, u: UserId, s: SessionId, allDevices: bool): Store {
    var st1 := if allDevices then Swept(cfg, st, u) else Mark(cfg, st.(sessions := Invalidate(st.sessions, {s})), {s});
    if cfg.cacheOn then st1.(info := st1.info - {u}) else st1
  }

  lemma LogoutServed(cfg: Config, st: Store, u: UserId, s: SessionId, allDevices: bool)
    ensures Serve(cfg, st, Logout(u, s, allDevices)) ==
      if !allDevices && s !in st.sessions then (st, RowMissing)
      else (LoggedOutStore(cfg, st, u, s, allDevices), LoggedOut)
  {
    if allDevices {
      SweepFinishes(cfg, st, u, LogoutEverywhere);
      LastStep(cfg, Swept(cfg, st, u), ClearInfo(u));
    } else if s in st.sessions {
      LogoutOneInvalidates(cfg, st, u, s);
      LastStep(cfg, Mark(cfg, st.(sessions := Invalidate(st.sessions, {s})), {s}), ClearInfo(u));
    } else {
      LastStep(cfg, st, LogoutOne(u, s));
    }
  }

  // ----- what every sequence of served requests keeps -----

  /** Clock and table: rows are never stamped deleted, and expire one refresh lifetime after creation. */
  ghost predicate RowsInv(st: Store) {
    && (forall s: SessionId :: s in st.sessions <==> s < st.nextSession)
    && (forall s <- st.sessions ::
          var row := st.sessions[s];
          row.deletedAt.None? && row.createdAt <= st.now && row.expiresAt == row.createdAt + REFRESH_TTL)
  }

  /** Access tokens name an existing session of their user and end at most one access lifetime after it. */
  ghost predicate AccessInv(st: Store) {
    forall a <- st.accessSigned ::
      && a.sessionId in st.sessions
      && st.sessions[a.sessionId].userId == a.userId
      && a.exp <= st.sessions[a.sessionId].expiresAt + ACCESS_TTL
  }

  /**
   An invalid session has run out, or carries a flag that outlives it, or is about to get one; and
   only invalid sessions carry flags.
   */
  ghost predicate FlagInv(cfg: Config, st: Store, due: set<SessionId>) {
    && (cfg.cacheOn ==> forall s <- st.sessions | !st.sessions[s].isValid ::
          || st.now > st.sessions[s].expiresAt
          || s in due
          || (s in st.flags && st.flags[s] >= st.sessions[s].expiresAt))
    && (forall s <- st.flags :: s in st.sessions && !st.sessions[s].isValid)
    && (forall s <- due :: s in st.sessions && !st.sessions[s].isValid)
  }

  ghost predicate ServedInv(cfg: Config, st: Store, due: set<SessionId>) {
    StoreInv(st) && RowsInv(st) && AccessInv(st) && FlagInv(cfg, st, due)
  }

  /** What a request holds is what the store says: nobody has been in between. */
  ghost predicate Undisturbed(st: Store, pc: Pc) {
    && PcInv(st, pc)
    && (match pc
        case LoginInvalidate(u, ids) => ids == ActiveOf(st.sessions, u)
        case LoginCreate(u, e) => e == st.now + REFRESH_TTL
        case LoginSign(u, s) => s in st.sessions && st.now <= st.sessions[s].expiresAt
        case RefreshCheck(t, row) => row == FindRow(st.sessions, t.sessionId)
        case ExpireRow(s, _) => s in st.sessions ==> st.now > st.sessions[s].expiresAt
        case AllInvalidate(u, ids, _) => ids == ActiveOf(st.sessions, u)
        case ValidateCheck(u, s, row) => row == FindRow(st.sessions, s)
        case _ => true)
  }

  lemma LeapKeepsStore(cfg: Config, st: Store, pc: Pc)
    requires StoreInv(st) && Undisturbed(st, pc) && !pc.Done?
    ensures StoreInv(Leap(cfg, st, pc).0)
    ensures PcInv(Leap(cfg, st, pc).0, Leap(cfg, st, pc).1)
  {
    if pc.LoginMark? || pc.MarkThen? {
      AdvanceGrows(cfg, st, LoginStamp(0), 0);
      RowsKeep(st, Leap(cfg, st, pc).0);
    } else {
      AdvanceKeepsStore(cfg, st, pc, 0);
      AdvanceKeepsPc(cfg, st, pc, 0);
    }
  }

  predicate IsLogin(pc: Pc) {
    || pc.LoginRead? || pc.LoginInvalidate? || pc.LoginMark? || pc.LoginStamp?
    || pc.LoginCreate? || pc.LoginSign? || pc.LoginStore? || pc.LoginCache?
  }

  lemma LoginKeepsRows(cfg: Config, st: Store, pc: Pc)
    requires ServedInv(cfg, st, ToMark(pc)) && Undisturbed(st, pc) && IsLogin(pc)
    ensures RowsInv(Leap(cfg, st, pc).0) && AccessInv(Leap(cfg, st, pc).0)
  {
  }

  lemma OtherKeepsRows(cfg: Config, st: Store, pc: Pc)
    requires ServedInv(cfg, st, ToMark(pc)) && Undisturbed(st, pc) && !IsLogin(pc) && !pc.Done?
    ensures RowsInv(Leap(cfg, st, pc).0) && AccessInv(Leap(cfg, st, pc).0)
  {
  }

  lemma LoginKeepsFlags(cfg: Config, st: Store, pc: Pc)
    requires ServedInv(cfg, st, ToMark(pc)) && Undisturbed(st, pc) && IsLogin(pc)
    ensures FlagInv(cfg, Leap(cfg, st, pc).0, ToMark(Leap(cfg, st, pc).1))
  {
  }

  lemma OtherKeepsFlags(cfg: Config, st: Store, pc: Pc)
    requires ServedInv(cfg, st, ToMark(pc)) && Undisturbed(st, pc) && !IsLogin(pc) && !pc.Done?
    ensures FlagInv(cfg, Leap(cfg, st, pc).0, ToMark(Leap(cfg, st, pc).1))
  {
  }

  lemma LoginUndisturbed(cfg: Config, st: Store, pc: Pc)
    requires ServedInv(cfg, st, ToMark(pc)) && Undisturbed(st, pc) && IsLogin(pc)
    ensures Undisturbed(Leap(cfg, st, pc).0, Leap(cfg, st, pc).1)
  {
    LeapKeepsStore(cfg, st, pc);
  }

  lemma OtherUndisturbed(cfg: Config, st: Store, pc: Pc)
    requires ServedInv(cfg, st, ToMark(pc)) && Undisturbed(st, pc) && !IsLogin(pc) && !pc.Done?
    ensures Undisturbed(Leap(cfg, st, pc).0, Leap(cfg, st, pc).1)
  {
    LeapKeepsStore(cfg, st, pc);
  }

  lemma LeapKeepsInv(cfg: Config, st: Store, pc: Pc)
    requires ServedInv(cfg, st, ToMark(pc)) && Undisturbed(st, pc) && !pc.Done?
    ensures ServedInv(cfg, Leap(cfg, st, pc).0, ToMark(Leap(cfg, st, pc).1))
  {
    LeapKeepsStore(cfg, st, pc);
    if IsLogin(pc) {
      LoginKeepsRows(cfg, st, pc);
      LoginKeepsFlags(cfg, st, pc);
    } else {
      OtherKeepsRows(cfg, st, pc);
      OtherKeepsFlags(cfg, st, pc);
    }
  }

  lemma LeapUndisturbed(cfg: Config, st: Store, pc: Pc)
    requires ServedInv(cfg, st, ToMark(pc)) && Undisturbed(st, pc) && !pc.Done?
    ensures Undisturbed(Leap(cfg, st, pc).0, Leap(cfg, st, pc).1)
  {
    if IsLogin(pc) {
      LoginUndisturbed(cfg, st, pc);
    } else {
      OtherUndisturbed(cfg, st, pc);
    }
  }

  lemma LeapDescends(cfg: Config, st: Store, pc: Pc)
    requires !pc.Done?
    ensures Rank(Leap(cfg, st, pc).1) < Rank(pc) && Leap(cfg, st, pc).0.now == st.now
  {
  }

  lemma {:induction false} FinishKeeps(cfg: Config, st: Store, pc: Pc)
    requires ServedInv(cfg, st, ToMark(pc)) && Undisturbed(st, pc)
    ensures ServedInv(cfg, Finish(cfg, st, pc).0, {}) && Finish(cfg, st, pc).0.now == st.now
    decreases Rank(pc)
  {
    if !pc.Done? {
      LeapKeepsInv(cfg, st, pc);
      LeapUndisturbed(cfg, st, pc);
      LeapDescends(cfg, st, pc);
      FinishKeeps(cfg, Leap(cfg, st, pc).0, Leap(cfg, st, pc).1);
    }
  }

  lemma {:induction false} AfterKeeps(cfg: Config, events: seq<Event>)
    ensures ServedInv(cfg, After(cfg, events), {})
  {
    if events != [] {
      var before := events[..|events| - 1];
      AfterKeeps(cfg, before);
      var e := events[|events| - 1];
      if e.Request? && (e.q.Refresh? ==> Verifies(After(cfg, before), e.q.t)) {
        FinishKeeps(cfg, After(cfg, before), EntryOf(e.q));
      }
    }
  }

  // ----- the cached check against the database check -----

  predicate Accepts(cfg: Config, st: Store, u: UserId, s: SessionId) {
    Finish(cfg, st, ValidateFlag(u, s)).1 == SessionAccepted
  }

  /** validateSession with no cache at hand. */
  predicate AcceptsFromDatabase(cfg: Config, st: Store, u: UserId, s: SessionId) {
    Accepts(cfg.(cacheOn := false), st, u, s)
  }

  predicate RowAccepts(st: Store, u: UserId, s: SessionId) {
    && s in st.sessions
    && st.sessions[s].Usable()
    && st.sessions[s].userId == u
    && st.now <= st.sessions[s].expiresAt
  }

  /** What is left of validateSession once the cache has not answered. */
  lemma DatabaseCheck(cfg: Config, st: Store, u: UserId, s: SessionId)
    ensures Finish(cfg, st, ValidateRead(u, s)) ==
      if RowAccepts(st, u, s) then (CacheInfo(cfg, st, u), SessionAccepted)
      else if s in st.sessions && st.sessions[s].Usable() && st.sessions[s].userId == u then
        (st.(sessions := Invalidate(st.sessions, {s})), SessionRefused)
      else (st, SessionRefused)
  {
    var row := FindRow(st.sessions, s);
    var check := ValidateCheck(u, s, row);
    assert Finish(cfg, st, ValidateRead(u, s)) == Finish(cfg, st, check);
    if row.None? || !row.value.Usable() || row.value.userId != u {
      LastStep(cfg, st, check);
    } else if st.now > row.value.expiresAt {
      assert Finish(cfg, st, check) == Finish(cfg, st, ExpireRow(s, SessionRefused));
      LastStep(cfg, st, ExpireRow(s, SessionRefused));
    } else {
      assert Finish(cfg, st, check) == Finish(cfg, st, ValidateCache(u));
      LastStep(cfg, st, ValidateCache(u));
    }
  }

  lemma ValidateServed(cfg: Config, st: Store, u: UserId, s: SessionId)
    ensures Finish(cfg, st, ValidateFlag(u, s)) ==
      if cfg.cacheOn && Flagged(st, s) then (st, SessionRefused)
      else if cfg.cacheOn && InfoCached(st, u) then (st, SessionAccepted)
      else Finish(cfg, st, ValidateRead(u, s))
  {
    if cfg.cacheOn && Flagged(st, s) {
      LastStep(cfg, st, ValidateFlag(u, s));
    } else {
      assert Finish(cfg, st, ValidateFlag(u, s)) == Finish(cfg, st, ValidateInfo(u, s));
      if cfg.cacheOn && InfoCached(st, u) {
        LastStep(cfg, st, ValidateInfo(u, s));
      }
    }
  }

  lemma AcceptsWhen(cfg: Config, st: Store, u: UserId, s: SessionId)
    ensures Accepts(cfg, st, u, s) <==>
      !(cfg.cacheOn && Flagged(st, s)) && ((cfg.cacheOn && InfoCached(st, u)) || RowAccepts(st, u, s))
  {
    ValidateServed(cfg, st, u, s);
    DatabaseCheck(cfg, st, u, s);
  }

  /** In any store, however it came about, a cache that has lost flags included. */
  lemma ChecksAgreeWhen(cfg: Config, st: Store, u: UserId, s: SessionId)
    requires cfg.cacheOn
    ensures Accepts(cfg, st, u, s) == AcceptsFromDatabase(cfg, st, u, s) <==>
      if RowAccepts(st, u, s) then !Flagged(st, s) else Flagged(st, s) || !InfoCached(st, u)
  {
    AcceptsWhen(cfg, st, u, s);
    AcceptsWhen(cfg.(cacheOn := false), st, u, s);
  }

  /**
   After any sequence of requests, for the pair of any access token: the cached check and the
   database check agree before the session expires, and afterwards unless the user's info is
   cached and the session is not flagged.
   */
  lemma FastPathAgrees(cfg: Config, events: seq<Event>, a: AccessToken)
    requires cfg.cacheOn && a in After(cfg, events).accessSigned
    ensures a.sessionId in After(cfg, events).sessions
    ensures var st := After(cfg, events);
      var row := st.sessions[a.sessionId];
      Accepts(cfg, st, a.userId, a.sessionId) == AcceptsFromDatabase(cfg, st, a.userId, a.sessionId) <==>
        || st.now < row.expiresAt
        || (st.now == row.expiresAt && row.isValid)
        || Flagged(st, a.sessionId)
        || !InfoCached(st, a.userId)
  {
    AfterKeeps(cfg, events);
    ChecksAgreeWhen(cfg, After(cfg, events), a.userId, a.sessionId);
  }

  /**
   The two checks do part once a session has run out: a user logs in, refreshes and is validated
   1000 s before the session expires, and 1001 s later the cached check still says yes.
   */
  lemma CachedCheckOutlivesSession(u: UserId)
    ensures var cfg := Config(1, true);
      var t := RefreshToken(u, 0, 0, REFRESH_TTL);
      var events := [Request(Login(u)), Wait(REFRESH_TTL - 1000), Request(Refresh(t)), Request(Validate(u, 0)), Wait(1001)];
      var st := After(cfg, events);
      && AccessToken(u, 0, st.now - 1001 + ACCESS_TTL) in st.accessSigned
      && Accepts(cfg, st, u, 0) && !AcceptsFromDatabase(cfg, st, u, 0)
  {
    var cfg := Config(1, true);
    var t := RefreshToken(u, 0, 0, REFRESH_TTL);
    var e1 := [Request(Login(u))];
    var e2 := e1 + [Wait(REFRESH_TTL - 1000)];
    var e3 := e2 + [Request(Refresh(t))];
    var e4 := e3 + [Request(Validate(u, 0))];
    AfterAppend(cfg, [], Request(Login(u)));
    AfterAppend(cfg, e1, Wait(REFRESH_TTL - 1000));
    AfterAppend(cfg, e2, Request(Refresh(t)));
    AfterAppend(cfg, e3, Request(Validate(u, 0)));
    AfterAppend(cfg, e4, Wait(1001));

    FirstLogin(cfg, u);
    LateValidation(cfg, After(cfg, e2), u);
    assert e4 + [Wait(1001)] ==
      [Request(Login(u)), Wait(REFRESH_TTL - 1000), Request(Refresh(t)), Request(Validate(u, 0)), Wait(1001)];
  }

  /** The last 1000 s of the only session: refreshed and validated, the user's info outlives it. */
  lemma LateValidation(cfg: Config, st: Store, u: UserId)
    requires cfg.cacheOn && st.now == REFRESH_TTL - 1000
    requires var t := RefreshToken(u, 0, 0, REFRESH_TTL);
      && t in st.refreshSigned && st.flags == map[] && st.info == map[u := USER_INFO_TTL]
      && st.sessions == map[0 := Session(u, HashOf(t), true, None, 0, REFRESH_TTL)]
    ensures var t := RefreshToken(u, 0, 0, REFRESH_TTL);
      var st' := Serve(cfg, Serve(cfg, st, Refresh(t)).0, Validate(u, 0)).0;
      var st'' := st'.(now := st'.now + 1001);
      && AccessToken(u, 0, st.now + ACCESS_TTL) in st''.accessSigned && st''.now == st.now + 1001
      && Accepts(cfg, st'', u, 0) && !AcceptsFromDatabase(cfg, st'', u, 0)
  {
    var t := RefreshToken(u, 0, 0, REFRESH_TTL);
    RefreshRotates(cfg, st, t);
    var st1 := Serve(cfg, st, Refresh(t)).0;
    ValidateServed(cfg, st1, u, 0);
    DatabaseCheck(cfg, st1, u, 0);
    var st' := Serve(cfg, st1, Validate(u, 0)).0;
    assert st' == CacheInfo(cfg, st1, u);
    var st'' := st'.(now := st'.now + 1001);
    AcceptsWhen(cfg, st'', u, 0);
    AcceptsWhen(cfg.(cacheOn := false), st'', u, 0);
  }

  lemma AfterAppend(cfg: Config, events: seq<Event>, e: Event)
    ensures After(cfg, events + [e]) == AfterEvent(cfg, After(cfg, events), e)
  {
    assert (events + [e])[..|events|] == events;
  }

  lemma FirstLogin(cfg: Config, u: UserId)
    requires cfg.cacheOn
    ensures var t := RefreshToken(u, 0, 0, REFRESH_TTL);
      var st := Serve(cfg, EMPTY_STORE, Login(u)).0;
      && st.now == 0 && st.refreshSigned == {t} && st.flags == map[] && st.info == map[u := USER_INFO_TTL]
      && st.sessions == map[0 := Session(u, HashOf(t), true, None, 0, REFRESH_TTL)]
  {
    assert ActiveOf(map[], u) == {};
    LoginInvalidates(cfg, EMPTY_STORE, u);
    LoginCreates(cfg, EMPTY_STORE, u);
  }

  /**
   Served one at a time is needed: a sweep invalidates whatever is active when it writes, but flags
   only `ids`, which it read before.  For a session active at the write the two checks agree
   afterwards exactly in these cases.
   */
  lemma ChecksAgreeAfterSweep(cfg: Config, st: Store, u: UserId, ids: set<SessionId>, cause: Cause, s: SessionId)
    requires cfg.cacheOn && s in ActiveOf(st.sessions, u)
    ensures var st' := Finish(cfg, st, AllInvalidate(u, ids, cause)).0;
      Accepts(cfg, st', u, s) == AcceptsFromDatabase(cfg, st', u, s) <==>
        s in ids || Flagged(st, s) || !InfoCached(st, u) || cause.LogoutEverywhere?
  {
    var st1 := st.(sessions := Invalidate(st.sessions, ActiveOf(st.sessions, u)));
    var st2 := Mark(cfg, st1, ids);
    assert Finish(cfg, st, AllInvalidate(u, ids, cause)) == Finish(cfg, st1, MarkThen(u, ids, cause));
    assert Finish(cfg, st1, MarkThen(u, ids, cause)) == Finish(cfg, st2, AfterMarks(u, cause));
    if cause.LogoutEverywhere? {
      LastStep(cfg, st2, ClearInfo(u));
    }
    ChecksAgreeWhen(cfg, Finish(cfg, st, AllInvalidate(u, ids, cause)).0, u, s);
  }

  // ----- a token works once -----

  /** Signed and stored nowhere; `SessionSafety.Spent` with no request under way. */
  ghost predicate SpentAlone(st: Store, t: RefreshToken) {
    t in st.refreshSigned && forall s <- st.sessions :: st.sessions[s].hash != HashOf(t)
  }

  lemma {:induction false} FinishKeepsSpent(cfg: Config, st: Store, pc: Pc, t: RefreshToken)
    requires ServedInv(cfg, st, ToMark(pc)) && Undisturbed(st, pc)
    requires SpentAlone(st, t) && Pending(pc) != Some(t)
    ensures SpentAlone(Finish(cfg, st, pc).0, t)
    decreases Rank(pc)
  {
    if !pc.Done? {
      LeapKeepsInv(cfg, st, pc);
      LeapUndisturbed(cfg, st, pc);
      LeapDescends(cfg, st, pc);
      LeapKeepsSpent(cfg, st, pc, t);
      FinishKeepsSpent(cfg, Leap(cfg, st, pc).0, Leap(cfg, st, pc).1, t);
    }
  }

  lemma LeapKeepsSpent(cfg: Config, st: Store, pc: Pc, t: RefreshToken)
    requires StoreInv(st) && PcInv(st, pc) && !pc.Done?
    requires SpentAlone(st, t) && Pending(pc) != Some(t)
    ensures SpentAlone(Leap(cfg, st, pc).0, t) && Pending(Leap(cfg, st, pc).1) != Some(t)
  {
    if !pc.LoginMark? && !pc.MarkThen? {
      AdvanceGrows(cfg, st, pc, 0);
      AdvancePending(cfg, st, pc, 0);
    }
  }

  lemma {:induction false} SpentThroughout(cfg: Config, events: seq<Event>, n: nat, t: RefreshToken)
    requires n <= |events| && SpentAlone(After(cfg, events[..n]), t)
    ensures SpentAlone(After(cfg, events), t)
    decreases |events| - n
  {
    if n < |events| {
      var here, e := events[..n], events[n];
      assert events[..n + 1][..n] == here;
      AfterKeeps(cfg, here);
      if e.Request? && (e.q.Refresh? ==> Verifies(After(cfg, here), e.q.t)) {
        FinishKeepsSpent(cfg, After(cfg, here), EntryOf(e.q), t);
      }
      assert SpentAlone(After(cfg, events[..n + 1]), t);
      SpentThroughout(cfg, events, n + 1, t);
    } else {
      assert events[..n] == events;
    }
  }

  /** What a served refresh answers and leaves in the table. */
  lemma RefreshServed(cfg: Config, st: Store, t: RefreshToken)
    requires StoreInv(st)
    ensures var (st', outcome) := Serve(cfg, st, Refresh(t));
      outcome.Refreshed? <==> Verifies(st, t) && RowAccepts(st, t.userId, t.sessionId)
                              && st.sessions[t.sessionId].hash == HashOf(t)
    ensures var (st', outcome) := Serve(cfg, st, Refresh(t));
      outcome.Refreshed? ==> SpentAlone(st', t) && outcome.token !in st.refreshSigned
                             && t.sessionId in st'.sessions
                             && st'.sessions[t.sessionId] == st.sessions[t.sessionId].(hash := HashOf(outcome.token))
  {
    if Verifies(st, t) {
      var row := FindRow(st.sessions, t.sessionId);
      assert Owns(st, t.userId, t.sessionId);
      assert Finish(cfg, st, RefreshRead(t)) == Finish(cfg, st, RefreshCheck(t, row));
      if row.Some? && row.value.Usable() && st.now <= row.value.expiresAt {
        if row.value.hash == HashOf(t) {
          SignKeeps(st, t.userId, t.sessionId);
          RefreshRotates(cfg, st, t);
          var st' := Serve(cfg, st, Refresh(t)).0;
          forall s <- st'.sessions
            ensures st'.sessions[s].hash != HashOf(t)
          {
            assert HashInv(st, s, st.sessions[s].hash);
          }
        } else {
          assert Finish(cfg, st, RefreshCheck(t, row)) == Finish(cfg, st, AllRead(t.userId, TokenReuse));
          SweepNeverRefreshes(cfg, st, t.userId, TokenReuse);
        }
      } else if row.Some? && row.value.Usable() {
        assert Finish(cfg, st, RefreshCheck(t, row)) == Finish(cfg, st, ExpireRow(t.sessionId, Rejected));
        LastStep(cfg, st, ExpireRow(t.sessionId, Rejected));
      } else {
        assert Finish(cfg, st, RefreshCheck(t, row)) == Finish(cfg, st, Done(Rejected));
      }
    }
  }

  /** The whole store after a refresh that succeeds. */
  lemma RefreshRotates(cfg: Config, st: Store, t: RefreshToken)
    requires Verifies(st, t) && RowAccepts(st, t.userId, t.sessionId)
    requires st.sessions[t.sessionId].hash == HashOf(t)
    ensures var t' := NewToken(st, t.userId, t.sessionId);
      Serve(cfg, st, Refresh(t)) ==
        (SetHash(Sign(st, t.userId, t.sessionId), t.sessionId, HashOf(t')), Refreshed(t'))
  {
    var t' := NewToken(st, t.userId, t.sessionId);
    var st1 := Sign(st, t.userId, t.sessionId);
    var check := RefreshCheck(t, FindRow(st.sessions, t.sessionId));
    assert Finish(cfg, st, RefreshRead(t)) == Finish(cfg, st, check);
    assert Finish(cfg, st, check) == Finish(cfg, st1, RefreshStore(t.sessionId, t'));
    LastStep(cfg, st1, RefreshStore(t.sessionId, t'));
  }

  lemma SweepNeverRefreshes(cfg: Config, st: Store, u: UserId, cause: Cause)
    ensures !Finish(cfg, st, AllRead(u, cause)).1.Refreshed?
  {
    SweepFinishes(cfg, st, u, cause);
    if cause.LogoutEverywhere? {
      LastStep(cfg, Swept(cfg, st, u), ClearInfo(u));
    }
  }

  /** However the requests before, between and after are chosen, a refresh token succeeds at most once. */
  lemma RefreshedAtMostOnce(cfg: Config, events: seq<Event>, i: nat, j: nat, t: RefreshToken)
    requires i < j <= |events| && events[i] == Request(Refresh(t))
    requires Serve(cfg, After(cfg, events[..i]), Refresh(t)).1.Refreshed?
    ensures !Serve(cfg, After(cfg, events[..j]), Refresh(t)).1.Refreshed?
  {
    AfterKeeps(cfg, events[..i]);
    AfterKeeps(cfg, events[..j]);
    RefreshServed(cfg, After(cfg, events[..i]), t);
    assert events[..i + 1][..i] == events[..i];
    assert events[..j][..i + 1] == events[..i + 1];
    SpentThroughout(cfg, events[..j], i + 1, t);
    RefreshServed(cfg, After(cfg, events[..j]), t);
  }

  // ----- how long one login lasts -----

  /** However often a session is rotated, no access token for it outlives its creation by more than both lifetimes. */
  lemma LifetimeBound(cfg: Config, events: seq<Event>, a: AccessToken)
    requires a in After(cfg, events).accessSigned
    ensures var st := After(cfg, events);
      a.sessionId in st.sessions && a.exp <= st.sessions[a.sessionId].createdAt + REFRESH_TTL + ACCESS_TTL
  {
    AfterKeeps(cfg, events);
  }
}
