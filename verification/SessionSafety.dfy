/**
 What every interleaving of AuthService requests keeps: tokens belong to the owner of their
 session, rows never become usable again, a replaced refresh-token hash never comes back, and
 reuse detection leaves none of the user's sessions alive.
 */
module SessionSafety {
  import opened Wrappers
  import opened SessionModel

  // ----- invariants -----

  /** Session `s` has been created, and while it exists its owner is `u`. */
  ghost predicate Owns(st: Store, u: UserId, s: SessionId) {
    s < st.nextSession && (s in st.sessions ==> st.sessions[s].userId == u)
  }

  ghost predicate StoreInv(st: Store) {
    && (forall s <- st.sessions :: s < st.nextSession)
    && (forall t <- st.refreshSigned :: t.tokenId < st.nextToken && Owns(st, t.userId, t.sessionId))
    && (forall t <- st.refreshSigned, t' <- st.refreshSigned :: t.tokenId == t'.tokenId ==> t == t')
    && (forall a <- st.accessSigned :: Owns(st, a.userId, a.sessionId))
    && (forall s <- st.sessions :: HashInv(st, s, st.sessions[s].hash))
  }

  ghost predicate HashInv(st: Store, s: SessionId, h: Hash) {
    h.HashOf? ==> h.token in st.refreshSigned && h.token.sessionId == s
  }

  ghost predicate PcInv(st: Store, pc: Pc) {
    match pc
    case LoginInvalidate(u, ids) => forall s <- ids :: Owns(st, u, s)
    case LoginSign(u, s) => Owns(st, u, s)
    case LoginStore(u, s, t) => t in st.refreshSigned && t.sessionId == s && t.userId == u
    case RefreshRead(t) => t in st.refreshSigned
    case RefreshCheck(t, row) => t in st.refreshSigned && (row.Some? ==> row.value.userId == t.userId)
    case RefreshStore(s, t) => t in st.refreshSigned && t.sessionId == s
    case _ => true
  }

  /** The token a request has signed but not yet stored. */
  function Pending(pc: Pc): Option<RefreshToken> {
    match pc
    case LoginStore(_, _, t) => Some(t)
    case RefreshStore(_, t) => Some(t)
    case _ => None
  }

  ghost predicate IsPending(w: World, t: RefreshToken) {
    exists r :: r in w.reqs && Pending(w.reqs[r]) == Some(t)
  }

  ghost predicate IsStored(w: World, t: RefreshToken) {
    exists s :: s in w.st.sessions && w.st.sessions[s].hash == HashOf(t)
  }

  /** A token waiting to be stored waits in one request only and has never been stored. */
  ghost predicate PendingInv(w: World) {
    && (forall r, r' | r in w.reqs && r' in w.reqs && r != r' && Pending(w.reqs[r]).Some? ::
          Pending(w.reqs[r]) != Pending(w.reqs[r']))
    && (forall r, s | r in w.reqs && s in w.st.sessions && Pending(w.reqs[r]).Some? ::
          w.st.sessions[s].hash != HashOf(Pending(w.reqs[r]).value))
  }

  ghost predicate WorldInv(w: World) {
    && StoreInv(w.st)
    && (forall r <- w.reqs :: PcInv(w.st, w.reqs[r]))
    && PendingInv(w)
  }

  // ----- rows only get worse -----

  ghost predicate RowWorsens(row: Session, row': Session) {
    && row'.userId == row.userId
    && row'.createdAt == row.createdAt
    && row'.expiresAt == row.expiresAt
    && (row'.Usable() ==> row.Usable())
    && (row.hash.HashOf? ==> row'.hash.HashOf?)
  }

  /** What any step may do to the store: old rows worsen or go, and nothing signed is forgotten. */
  ghost predicate Grows(st: Store, st': Store) {
    && st.now <= st'.now
    && st.nextSession <= st'.nextSession
    && st.nextToken <= st'.nextToken
    && st.refreshSigned <= st'.refreshSigned
    && (forall s <- st'.sessions :: s < st.nextSession ==>
          s in st.sessions && RowWorsens(st.sessions[s], st'.sessions[s]))
  }

  lemma AdvanceGrows(cfg: Config, st: Store, pc: Pc, pick: SessionId)
    requires StoreInv(st) && CanAdvance(pc, pick)
    ensures Grows(st, Advance(cfg, st, pc, pick).0)
  {
  }

  lemma DoGrows(cfg: Config, w: World, a: Action)
    requires WorldInv(w) && Enabled(w, a)
    ensures Grows(w.st, Do(cfg, w, a).st)
  {
    if a.Run? {
      AdvanceGrows(cfg, w.st, w.reqs[a.r], a.pick);
    }
  }

  /** The other requests do not disturb what a request relies on. */
  lemma PcInvStable(st: Store, st': Store, pc: Pc)
    requires PcInv(st, pc) && Grows(st, st')
    ensures PcInv(st', pc)
  {
  }

  lemma SignKeeps(st: Store, u: UserId, s: SessionId)
    requires StoreInv(st) && Owns(st, u, s)
    ensures StoreInv(Sign(st, u, s))
    ensures NewToken(st, u, s) in Sign(st, u, s).refreshSigned && NewToken(st, u, s) !in st.refreshSigned
  {
    var st' := Sign(st, u, s);
    forall t <- st'.refreshSigned, t' <- st'.refreshSigned | t.tokenId == t'.tokenId
      ensures t == t'
    {
      assert t in st.refreshSigned || t == NewToken(st, u, s);
      assert t' in st.refreshSigned || t' == NewToken(st, u, s);
    }
  }

  /** Rows that keep their owner and keep or store a signed hash leave the invariant alone. */
  lemma RowsKeep(st: Store, st': Store)
    requires StoreInv(st) && Grows(st, st')
    requires st'.refreshSigned == st.refreshSigned && st'.accessSigned == st.accessSigned
    requires forall s <- st'.sessions :: s < st'.nextSession && HashInv(st, s, st'.sessions[s].hash)
    requires forall s <- st'.sessions :: s >= st.nextSession || s in st.sessions
    ensures StoreInv(st')
  {
    forall t <- st'.refreshSigned
      ensures t.tokenId < st'.nextToken && Owns(st', t.userId, t.sessionId)
    {
      assert Owns(st, t.userId, t.sessionId);
    }
    forall a <- st'.accessSigned
      ensures Owns(st', a.userId, a.sessionId)
    {
      assert Owns(st, a.userId, a.sessionId);
    }
  }

  lemma AdvanceKeepsStore(cfg: Config, st: Store, pc: Pc, pick: SessionId)
    requires StoreInv(st) && PcInv(st, pc) && CanAdvance(pc, pick)
    ensures StoreInv(Advance(cfg, st, pc, pick).0)
  {
    if pc.LoginSign? {
      SignKeeps(st, pc.u, pc.s);
    } else if pc.RefreshCheck? {
      SignKeeps(st, pc.t.userId, pc.t.sessionId);
    } else {
      AdvanceGrows(cfg, st, pc, pick);
      RowsKeep(st, Advance(cfg, st, pc, pick).0);
    }
  }

  lemma AdvanceKeepsPc(cfg: Config, st: Store, pc: Pc, pick: SessionId)
    requires StoreInv(st) && PcInv(st, pc) && CanAdvance(pc, pick)
    ensures PcInv(Advance(cfg, st, pc, pick).0, Advance(cfg, st, pc, pick).1)
  {
    match pc {
      case LoginSign(u, s) => SignKeeps(st, u, s);
      case RefreshCheck(t, row) => SignKeeps(st, t.userId, t.sessionId);
      case _ =>
    }
  }

  /** A pending token is either the one the request already held or a brand-new one. */
  lemma AdvancePending(cfg: Config, st: Store, pc: Pc, pick: SessionId)
    requires StoreInv(st) && PcInv(st, pc) && CanAdvance(pc, pick)
    ensures var (st', pc') := Advance(cfg, st, pc, pick);
      Pending(pc').Some? ==> Pending(pc').value in st'.refreshSigned && Pending(pc').value !in st.refreshSigned
    ensures var st' := Advance(cfg, st, pc, pick).0;
      forall s <- st'.sessions ::
        || (s in st.sessions && st'.sessions[s].hash == st.sessions[s].hash)
        || st'.sessions[s].hash == NoHash
        || (Pending(pc).Some? && st'.sessions[s].hash == HashOf(Pending(pc).value))
  {
    match pc {
      case LoginSign(u, s) => SignKeeps(st, u, s);
      case RefreshCheck(t, row) => SignKeeps(st, t.userId, t.sessionId);
      case _ =>
    }
  }

  lemma DoKeepsStore(cfg: Config, w: World, a: Action)
    requires WorldInv(w) && Enabled(w, a)
    ensures StoreInv(Do(cfg, w, a).st)
  {
    if a.Run? {
      AdvanceKeepsStore(cfg, w.st, w.reqs[a.r], a.pick);
    }
  }

  lemma DoKeepsPcs(cfg: Config, w: World, a: Action)
    requires WorldInv(w) && Enabled(w, a)
    ensures var w' := Do(cfg, w, a); forall r <- w'.reqs :: PcInv(w'.st, w'.reqs[r])
  {
    var w' := Do(cfg, w, a);
    DoGrows(cfg, w, a);
    forall r <- w.reqs {
      PcInvStable(w.st, w'.st, w.reqs[r]);
    }
    if a.Run? {
      AdvanceKeepsPc(cfg, w.st, w.reqs[a.r], a.pick);
    }
  }

  lemma DoKeepsPending(cfg: Config, w: World, a: Action)
    requires WorldInv(w) && Enabled(w, a)
    ensures PendingInv(Do(cfg, w, a))
  {
    if a.Run? {
      AdvancePending(cfg, w.st, w.reqs[a.r], a.pick);
    }
  }

  lemma DoKeeps(cfg: Config, w: World, a: Action)
    requires WorldInv(w) && Enabled(w, a)
    ensures WorldInv(Do(cfg, w, a))
  {
    DoKeepsStore(cfg, w, a);
    DoKeepsPcs(cfg, w, a);
    DoKeepsPending(cfg, w, a);
  }

  lemma {:induction false} RunKeeps(cfg: Config, ws: seq<World>, i: nat)
    requires IsRun(cfg, ws) && WorldInv(ws[0]) && i < |ws|
    ensures WorldInv(ws[i])
  {
    if i > 0 {
      RunKeeps(cfg, ws, i - 1);
      var a := StepAt(cfg, ws, i - 1);
      DoKeeps(cfg, ws[i - 1], a);
    }
  }

  lemma EmptyWorldInv()
    ensures WorldInv(EMPTY_WORLD)
  {
  }

  // ----- rotation never goes back -----

  function HashAt(w: World, s: SessionId): Option<Hash> {
    if s in w.st.sessions then Some(w.st.sessions[s].hash) else None
  }

  /** Signed, not waiting to be stored and stored nowhere: no refresh can ever match it again. */
  ghost predicate Spent(w: World, t: RefreshToken) {
    t in w.st.refreshSigned && !IsPending(w, t) && !IsStored(w, t)
  }

  lemma StoredIsNotPending(w: World, t: RefreshToken)
    requires WorldInv(w) && IsStored(w, t)
    ensures t in w.st.refreshSigned && !IsPending(w, t)
  {
    var s :| s in w.st.sessions && w.st.sessions[s].hash == HashOf(t);
    assert HashInv(w.st, s, HashOf(t));
  }

  lemma SettledStays(cfg: Config, w: World, a: Action, t: RefreshToken)
    requires WorldInv(w) && Enabled(w, a)
    requires t in w.st.refreshSigned && !IsPending(w, t)
    ensures t in Do(cfg, w, a).st.refreshSigned && !IsPending(Do(cfg, w, a), t)
    ensures IsStored(Do(cfg, w, a), t) ==> IsStored(w, t)
  {
    var w' := Do(cfg, w, a);
    DoGrows(cfg, w, a);
    if a.Run? {
      AdvancePending(cfg, w.st, w.reqs[a.r], a.pick);
    }
    forall r <- w'.reqs
      ensures Pending(w'.reqs[r]) != Some(t)
    {
      assert r in w.reqs ==> Pending(w.reqs[r]) != Some(t);
    }
    if IsStored(w', t) {
      var s :| s in w'.st.sessions && w'.st.sessions[s].hash == HashOf(t);
      assert a.Run? ==> Pending(w.reqs[a.r]) != Some(t);
      assert s in w.st.sessions && w.st.sessions[s].hash == HashOf(t);
    }
  }

  /** In every interleaving: once spent, spent for good. */
  lemma {:induction false} SpentForever(cfg: Config, ws: seq<World>, i: nat, j: nat, t: RefreshToken)
    requires IsRun(cfg, ws) && WorldInv(ws[0]) && i <= j < |ws|
    requires Spent(ws[i], t)
    ensures Spent(ws[j], t)
  {
    if i < j {
      SpentForever(cfg, ws, i, j - 1, t);
      RunKeeps(cfg, ws, j - 1);
      var a := StepAt(cfg, ws, j - 1);
      SettledStays(cfg, ws[j - 1], a, t);
    }
  }

  lemma {:induction false} SettledForever(cfg: Config, ws: seq<World>, i: nat, j: nat, t: RefreshToken)
    requires IsRun(cfg, ws) && WorldInv(ws[0]) && i <= j < |ws|
    requires t in ws[i].st.refreshSigned && !IsPending(ws[i], t)
    ensures t in ws[j].st.refreshSigned && !IsPending(ws[j], t)
  {
    if i < j {
      SettledForever(cfg, ws, i, j - 1, t);
      RunKeeps(cfg, ws, j - 1);
      var a := StepAt(cfg, ws, j - 1);
      SettledStays(cfg, ws[j - 1], a, t);
    }
  }

  lemma GrowsTransitive(st: Store, st': Store, st'': Store)
    requires Grows(st, st') && Grows(st', st'')
    ensures Grows(st, st'')
  {
  }

  lemma {:induction false} GrowsAlong(cfg: Config, ws: seq<World>, i: nat, j: nat)
    requires IsRun(cfg, ws) && WorldInv(ws[0]) && i <= j < |ws|
    ensures Grows(ws[i].st, ws[j].st)
  {
    if i < j {
      GrowsAlong(cfg, ws, i, j - 1);
      RunKeeps(cfg, ws, j - 1);
      var a := StepAt(cfg, ws, j - 1);
      DoGrows(cfg, ws[j - 1], a);
      GrowsTransitive(ws[i].st, ws[j - 1].st, ws[j].st);
    }
  }

  /** A session's stored hash, once it has changed, never takes an earlier value again. */
  lemma HashNeverReturns(cfg: Config, ws: seq<World>, i: nat, j: nat, k: nat, s: SessionId, h: Hash)
    requires IsRun(cfg, ws) && WorldInv(ws[0]) && i <= j <= k < |ws|
    requires HashAt(ws[i], s) == Some(h) && HashAt(ws[j], s) != Some(h)
    ensures HashAt(ws[k], s) != Some(h)
  {
    RunKeeps(cfg, ws, i);
    RunKeeps(cfg, ws, j);
    GrowsAlong(cfg, ws, i, j);
    GrowsAlong(cfg, ws, j, k);
    if h.HashOf? {
      var t := h.token;
      assert IsStored(ws[i], t);
      StoredIsNotPending(ws[i], t);
      SettledForever(cfg, ws, i, j, t);
      assert HashInv(ws[i].st, s, h);
      forall s' <- ws[j].st.sessions
        ensures ws[j].st.sessions[s'].hash != h
      {
        assert HashInv(ws[j].st, s', ws[j].st.sessions[s'].hash);
      }
      SpentForever(cfg, ws, j, k, t);
    }
  }

  /** Committing any rotation of the stored token spends it. */
  lemma RotationSpends(cfg: Config, w: World, r: RequestId, pick: SessionId, t: RefreshToken)
    requires WorldInv(w) && r in w.reqs && w.reqs[r].RefreshStore?
    requires HashAt(w, w.reqs[r].s) == Some(HashOf(t))
    ensures Spent(Do(cfg, w, Run(r, pick)), t)
  {
    var s := w.reqs[r].s;
    var w' := Do(cfg, w, Run(r, pick));
    assert IsStored(w, t);
    StoredIsNotPending(w, t);
    SettledStays(cfg, w, Run(r, pick), t);
    assert w.reqs[r].t != t by {
      assert Pending(w.reqs[r]) == Some(w.reqs[r].t);
    }
    assert HashInv(w.st, s, HashOf(t));
    forall s' <- w'.st.sessions
      ensures w'.st.sessions[s'].hash != HashOf(t)
    {
      assert HashInv(w.st, s', w.st.sessions[s'].hash);
    }
  }

  /** Whatever the clock says when it checks, a read that follows the rotation never leads to new tokens. */
  lemma SpentTokenIsRefused(cfg: Config, ws: seq<World>, i: nat, j: nat, r: RequestId, t: RefreshToken,
                            pick: SessionId, later: Store, pick': SessionId)
    requires IsRun(cfg, ws) && WorldInv(ws[0]) && i <= j < |ws|
    requires Spent(ws[i], t)
    requires r in ws[j].reqs && ws[j].reqs[r] == RefreshRead(t)
    ensures var check := Do(cfg, ws[j], Run(r, pick)).reqs[r];
      CanAdvance(check, pick') && !Advance(cfg, later, check, pick').1.RefreshStore?
  {
    SpentForever(cfg, ws, i, j, t);
    if t.sessionId in ws[j].st.sessions {
      assert ws[j].st.sessions[t.sessionId].hash != HashOf(t);
    }
  }

  // ----- reuse detection -----

  /** No later read of this session lets it be refreshed or validated. */
  ghost predicate Refused(st: Store, s: SessionId) {
    s < st.nextSession && (s in st.sessions ==> !st.sessions[s].Usable())
  }

  lemma RefusedForever(cfg: Config, ws: seq<World>, i: nat, j: nat, s: SessionId)
    requires IsRun(cfg, ws) && WorldInv(ws[0]) && i <= j < |ws|
    requires Refused(ws[i].st, s)
    ensures Refused(ws[j].st, s)
  {
    GrowsAlong(cfg, ws, i, j);
  }

  /** A request that must invalidate all of u's sessions has not done so yet, or session s is refused. */
  ghost predicate SweepPhase(w: World, r: RequestId, u: UserId, s: SessionId) {
    && s < w.st.nextSession
    && Owns(w.st, u, s)
    && r in w.reqs
    && (|| (w.reqs[r].AllRead? && w.reqs[r].u == u)
        || (w.reqs[r].AllInvalidate? && w.reqs[r].u == u)
        || Refused(w.st, s))
  }

  lemma SweepStep(cfg: Config, w: World, a: Action, r: RequestId, u: UserId, s: SessionId)
    requires WorldInv(w) && Enabled(w, a) && SweepPhase(w, r, u, s)
    ensures SweepPhase(Do(cfg, w, a), r, u, s)
  {
    DoGrows(cfg, w, a);
    if !Refused(w.st, s) && a.Run? && a.r == r {
      assert s in ActiveOf(w.st.sessions, u);
    }
  }

  /** From here on the request will write, and then end, for user u. */
  predicate WillSweep(pc: Pc, u: UserId) {
    (pc.AllRead? || pc.AllInvalidate?) && pc.u == u
  }

  /**
   However it is interleaved with other requests, a sweep over user u's sessions that has ended
   leaves every session refused that existed at any moment up to its update: those it read, and
   those created between the read and the update, which repeats the query.
   */
  lemma {:induction false} SweepEndsAllSessions(cfg: Config, ws: seq<World>, m: nat, n: nat, r: RequestId, u: UserId,
                                                s: SessionId)
    requires IsRun(cfg, ws) && WorldInv(ws[0]) && m <= n < |ws|
    requires r in ws[m].reqs && WillSweep(ws[m].reqs[r], u)
    requires s in ws[m].st.sessions && ws[m].st.sessions[s].userId == u
    ensures SweepPhase(ws[n], r, u, s)
    ensures ws[n].reqs[r].Done? ==> Refused(ws[n].st, s)
    decreases n - m
  {
    RunKeeps(cfg, ws, m);
    if n > m {
      SweepEndsAllSessions(cfg, ws, m, n - 1, r, u, s);
      RunKeeps(cfg, ws, n - 1);
      var a := StepAt(cfg, ws, n - 1);
      SweepStep(cfg, ws[n - 1], a, r, u, s);
    }
  }

  predicate InSweep(pc: Pc, u: UserId) {
    WillSweep(pc, u) || (pc.MarkThen? && pc.u == u) || (pc.ClearInfo? && pc.u == u) || pc.Done?
  }

  lemma {:induction false} SweepKeepsUser(cfg: Config, ws: seq<World>, m: nat, n: nat, r: RequestId, u: UserId)
    requires IsRun(cfg, ws) && m <= n < |ws|
    requires r in ws[m].reqs && InSweep(ws[m].reqs[r], u)
    ensures r in ws[n].reqs && InSweep(ws[n].reqs[r], u)
    decreases n - m
  {
    if n > m {
      SweepKeepsUser(cfg, ws, m, n - 1, r, u);
      var a := StepAt(cfg, ws, n - 1);
    }
  }

  /**
   Reuse detection.  A request is about to check token t against the row it read: usable, not
   expired, but holding another hash.  When the request ends, every session of the row's owner
   that existed at the check, or at any later moment up to and including the update, is refused.
   */
  lemma ReuseDetection(cfg: Config, ws: seq<World>, m: nat, n: nat, r: RequestId, pick: SessionId, s: SessionId)
    requires IsRun(cfg, ws) && WorldInv(ws[0]) && m <= n < |ws| && n >= 1
    requires r in ws[0].reqs && ws[0].reqs[r].RefreshCheck? && ws[0].reqs[r].row.Some?
    requires var row := ws[0].reqs[r].row.value;
      row.Usable() && ws[0].st.now <= row.expiresAt && row.hash != HashOf(ws[0].reqs[r].t)
    requires ws[1] == Do(cfg, ws[0], Run(r, pick))
    requires m == 0 || (r in ws[m].reqs && (ws[m].reqs[r].AllRead? || ws[m].reqs[r].AllInvalidate?))
    requires r in ws[n].reqs && ws[n].reqs[r].Done?
    requires s in ws[m].st.sessions && ws[m].st.sessions[s].userId == ws[0].reqs[r].row.value.userId
    ensures Refused(ws[n].st, s)
  {
    var u := ws[0].reqs[r].row.value.userId;
    assert PcInv(ws[0].st, ws[0].reqs[r]);
    assert ws[1].reqs[r] == AllRead(u, TokenReuse);
    if m == 0 {
      assert ws[1].st.sessions == ws[0].st.sessions;
      SweepEndsAllSessions(cfg, ws, 1, n, r, u, s);
    } else {
      SweepKeepsUser(cfg, ws, 1, m, r, u);
      SweepEndsAllSessions(cfg, ws, m, n, r, u, s);
    }
  }

  /** The user on whose behalf a request runs; an expired row is marked on nobody's. */
  function Serves(pc: Pc): Option<UserId> {
    match pc
    case LoginRead(u) => Some(u)
    case LoginInvalidate(u, _) => Some(u)
    case LoginMark(u, _) => Some(u)
    case LoginStamp(u) => Some(u)
    case LoginCreate(u, _) => Some(u)
    case LoginSign(u, _) => Some(u)
    case LoginStore(u, _, _) => Some(u)
    case LoginCache(u, _) => Some(u)
    case RefreshRead(t) => Some(t.userId)
    case RefreshCheck(t, _) => Some(t.userId)
    case RefreshStore(_, t) => Some(t.userId)
    case AllRead(u, _) => Some(u)
    case AllInvalidate(u, _, _) => Some(u)
    case MarkThen(u, _, _) => Some(u)
    case LogoutOne(u, _) => Some(u)
    case ClearInfo(u) => Some(u)
    case ValidateFlag(u, _) => Some(u)
    case ValidateInfo(u, _) => Some(u)
    case ValidateRead(u, _) => Some(u)
    case ValidateCheck(u, _, _) => Some(u)
    case ValidateCache(u) => Some(u)
    case _ => None
  }

  /**
   Whatever is interleaved, a login, a refresh or a sweep writes rows of its own user only.  The two
   steps that write a row by its id alone are the logout of one session and the marking of an
   expired one.
   */
  lemma OnlyOwnRequestsWrite(cfg: Config, w: World, r: RequestId, pick: SessionId, s: SessionId)
    requires WorldInv(w) && Enabled(w, Run(r, pick)) && s in w.st.sessions
    ensures s in Do(cfg, w, Run(r, pick)).st.sessions
    ensures Do(cfg, w, Run(r, pick)).st.sessions[s] != w.st.sessions[s] ==>
      || Serves(w.reqs[r]) == Some(w.st.sessions[s].userId)
      || (w.reqs[r].LogoutOne? && w.reqs[r].s == s)
      || (w.reqs[r].ExpireRow? && w.reqs[r].s == s)
  {
    assert PcInv(w.st, w.reqs[r]);
  }
}
