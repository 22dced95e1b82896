/**
 Runs from the empty world in which requests overlap: they reach the bound of module DeviceLimit, and
 they part the two session checks that module ServedRequests proves equal for requests one by one.
 */
module Overlaps {
  import opened Wrappers
  import opened SessionModel
  import opened SessionSafety
  import opened ServedRequests
  import opened DeviceLimit
  import opened Sets

  // ----- making runs longer -----

  function Last(ws: seq<World>): World
    requires ws != []
  {
    ws[|ws| - 1]
  }

  lemma Extend(cfg: Config, ws: seq<World>, a: Action)
    requires IsRun(cfg, ws) && Enabled(Last(ws), a)
    ensures IsRun(cfg, ws + [Do(cfg, Last(ws), a)])
  {
    var ws' := ws + [Do(cfg, Last(ws), a)];
    forall i | 0 <= i < |ws'| - 1
      ensures Follows(cfg, ws', i)
    {
      if i + 1 < |ws| {
        var b := StepAt(cfg, ws, i);
        assert ws'[i + 1] == Do(cfg, ws'[i], b);
      } else {
        assert ws'[i + 1] == Do(cfg, ws'[i], a);
      }
    }
  }

  lemma Joined(cfg: Config, ws: seq<World>, more: seq<World>)
    requires IsRun(cfg, ws) && IsRun(cfg, more) && more[0] == Last(ws)
    ensures IsRun(cfg, ws + more[1..])
  {
    var all := ws + more[1..];
    forall i | 0 <= i < |all| - 1
      ensures Follows(cfg, all, i)
    {
      if i + 1 < |ws| {
        var a := StepAt(cfg, ws, i);
        assert all[i + 1] == Do(cfg, all[i], a);
      } else {
        var j := i - |ws| + 1;
        var a := StepAt(cfg, more, j);
        assert all[i] == more[j] && all[i + 1] == more[j + 1];
        assert all[i + 1] == Do(cfg, all[i], a);
      }
    }
  }

  /** The requests of each world from `from` on are those of w, all where they were except perhaps r. */
  ghost predicate OthersWait(ws: seq<World>, from: nat, w: World, r: RequestId) {
    forall i :: from <= i < |ws| ==> OnlyOneMoves(w, ws[i], r)
  }

  /** A request under way runs to its end. */
  lemma LetFinish(cfg: Config, ws: seq<World>, r: RequestId) returns (ws': seq<World>)
    requires IsRun(cfg, ws) && r in Last(ws).reqs
    ensures IsRun(cfg, ws') && ws <= ws' && OthersWait(ws', |ws| - 1, Last(ws), r)
    ensures var (st, outcome) := Finish(cfg, Last(ws).st, Last(ws).reqs[r]);
      Last(ws') == World(st, Last(ws).reqs[r := Done(outcome)])
  {
    var more := FinishIsARun(cfg, Last(ws), r);
    Joined(cfg, ws, more);
    ws' := ws + more[1..];
    forall i | |ws| - 1 <= i < |ws'|
      ensures OnlyOneMoves(Last(ws), ws'[i], r)
    {
      assert ws'[i] == more[i - |ws| + 1];
    }
    assert Last(ws') == more[|more| - 1];
  }

  /** A new request begins and runs to its end. */
  lemma ServeNext(cfg: Config, ws: seq<World>, r: RequestId, pc: Pc) returns (ws': seq<World>)
    requires IsRun(cfg, ws) && Enabled(Last(ws), Begin(r, pc))
    ensures IsRun(cfg, ws') && ws <= ws' && |ws'| > |ws|
    ensures OthersWait(ws', |ws|, Do(cfg, Last(ws), Begin(r, pc)), r)
    ensures var (st, outcome) := Finish(cfg, Last(ws).st, pc);
      Last(ws') == World(st, Last(ws).reqs[r := Done(outcome)])
  {
    var begun := Do(cfg, Last(ws), Begin(r, pc));
    Extend(cfg, ws, Begin(r, pc));
    var ws1 := ws + [begun];
    ws' := LetFinish(cfg, ws1, r);
    assert begun.reqs[r := Done(Finish(cfg, Last(ws).st, pc).1)] == Last(ws).reqs[r := Done(Finish(cfg, Last(ws).st, pc).1)];
  }

  // ----- the device bound is reached -----

  /** At no time are more than k of u's logins between their read and their create. */
  ghost predicate Overlap(ws: seq<World>, u: UserId, k: nat) {
    forall i :: 0 <= i < |ws| ==> |InFlight(ws[i], u)| <= k
  }

  /** The first n request ids have been used, by requests that have ended. */
  ghost predicate Settled(w: World, n: nat) {
    forall r <- w.reqs :: r < n && w.reqs[r].Done?
  }

  /** Below the limit a login adds one session. */
  lemma LoginAdds(cfg: Config, st: Store, u: UserId)
    requires (forall s <- st.sessions :: s < st.nextSession) && |ActiveOf(st.sessions, u)| < cfg.maxDevices
    ensures |ActiveOf(Finish(cfg, st, LoginRead(u)).0.sessions, u)| == |ActiveOf(st.sessions, u)| + 1
  {
    LoginServed(cfg, st, u);
    var st' := Finish(cfg, st, LoginRead(u)).0;
    assert ActiveOf(st'.sessions, u) == ActiveOf(st.sessions, u) + {st.nextSession};
  }

  lemma OneMoreLogin(cfg: Config, ws0: seq<World>, u: UserId, n: nat) returns (ws: seq<World>)
    requires IsRun(cfg, ws0) && WorldInv(ws0[0]) && Overlap(ws0, u, 1)
    requires Settled(Last(ws0), n) && |Active(Last(ws0), u)| < cfg.maxDevices
    ensures IsRun(cfg, ws) && ws[0] == ws0[0] && Overlap(ws, u, 1)
    ensures Settled(Last(ws), n + 1) && |Active(Last(ws), u)| == |Active(Last(ws0), u)| + 1
  {
    RunKeeps(cfg, ws0, |ws0| - 1);
    ws := ServeNext(cfg, ws0, n, LoginRead(u));
    LoginAdds(cfg, Last(ws0).st, u);
    var begun := Do(cfg, Last(ws0), Begin(n, LoginRead(u)));
    forall i | 0 <= i < |ws|
      ensures |InFlight(ws[i], u)| <= 1
    {
      if i < |ws0| {
        assert ws[i] == ws0[i];
      } else {
        assert OnlyOneMoves(begun, ws[i], n);
        OneInFlight(begun, ws[i], u, n);
      }
    }
  }

  lemma OneInFlight(begun: World, w: World, u: UserId, n: nat)
    requires OnlyOneMoves(begun, w, n) && forall r <- begun.reqs :: r != n ==> begun.reqs[r].Done?
    ensures |InFlight(w, u)| <= 1
  {
    SubsetSize(InFlight(w, u), {n});
  }

  /** n logins, each after the one before has ended. */
  lemma {:induction false} FillUp(cfg: Config, u: UserId, n: nat) returns (ws: seq<World>)
    requires n <= cfg.maxDevices
    ensures IsRun(cfg, ws) && ws[0] == EMPTY_WORLD && Overlap(ws, u, 1)
    ensures Settled(Last(ws), n) && |Active(Last(ws), u)| == n
  {
    if n == 0 {
      ws := [EMPTY_WORLD];
    } else {
      EmptyWorldInv();
      ws := FillUp(cfg, u, n - 1);
      ws := OneMoreLogin(cfg, ws, u, n - 1);
    }
  }

  /** In every world of the run requests before `base` have ended, and only the k after them exist besides. */
  ghost predicate UsesOnly(ws: seq<World>, base: nat, k: nat) {
    forall i, r :: 0 <= i < |ws| && r in ws[i].reqs ==> r < base + k && (r < base ==> ws[i].reqs[r].Done?)
  }

  /** k logins read while the user is one short of the limit: none of them invalidates anything. */
  lemma {:induction false} AllRead(cfg: Config, w: World, u: UserId, base: nat, j: nat, k: nat) returns (ws: seq<World>)
    requires Settled(w, base) && |Active(w, u)| < cfg.maxDevices && j <= k
    ensures IsRun(cfg, ws) && ws[0] == w && UsesOnly(ws, base, k)
    ensures var last := Last(ws);
      && last.st == w.st
      && (forall r <- last.reqs :: r < base + j)
      && (forall r :: base <= r < base + j ==> r in last.reqs && last.reqs[r] == LoginStamp(u))
  {
    if j == 0 {
      ws := [w];
    } else {
      ws := AllRead(cfg, w, u, base, j - 1, k);
      var begin, read := Begin(base + j - 1, LoginRead(u)), Run(base + j - 1, 0);
      Extend(cfg, ws, begin);
      ws := ws + [Do(cfg, Last(ws), begin)];
      Extend(cfg, ws, read);
      ws := ws + [Do(cfg, Last(ws), read)];
    }
  }

  lemma StampStep(cfg: Config, w: World, r: RequestId, u: UserId)
    requires WorldInv(w) && r in w.reqs && w.reqs[r] == LoginStamp(u)
    ensures var w1 := Do(cfg, w, Run(r, 0));
      && WorldInv(w1)
      && Active(w1, u) == Active(w, u)
      && w1.reqs == w.reqs[r := LoginCreate(u, w.st.now + REFRESH_TTL)]
  {
    DoKeeps(cfg, w, Run(r, 0));
  }

  lemma CreateStep(cfg: Config, w: World, r: RequestId, u: UserId)
    requires WorldInv(w) && r in w.reqs && w.reqs[r].LoginCreate? && w.reqs[r].u == u
    ensures var w1 := Do(cfg, w, Run(r, 0));
      && WorldInv(w1)
      && |Active(w1, u)| == |Active(w, u)| + 1
      && w1.reqs == w.reqs[r := LoginSign(u, w.st.nextSession)]
  {
    DoKeeps(cfg, w, Run(r, 0));
    assert Active(Do(cfg, w, Run(r, 0)), u) == Active(w, u) + {w.st.nextSession};
  }

  lemma StampAndCreate(cfg: Config, w: World, r: RequestId, u: UserId) returns (w1: World, w2: World)
    requires WorldInv(w) && r in w.reqs && w.reqs[r] == LoginStamp(u)
    ensures Enabled(w, Run(r, 0)) && w1 == Do(cfg, w, Run(r, 0))
    ensures Enabled(w1, Run(r, 0)) && w2 == Do(cfg, w1, Run(r, 0))
    ensures WorldInv(w2) && |Active(w2, u)| == |Active(w, u)| + 1
    ensures OnlyOneMoves(w, w1, r) && OnlyOneMoves(w, w2, r)
  {
    StampStep(cfg, w, r, u);
    w1 := Do(cfg, w, Run(r, 0));
    CreateStep(cfg, w1, r, u);
    w2 := Do(cfg, w1, Run(r, 0));
  }

  /** The logins from r on have read and not yet created. */
  ghost predicate Ready(w: World, u: UserId, r: RequestId, end: nat) {
    forall q :: r <= q < end ==> q in w.reqs && w.reqs[q] == LoginStamp(u)
  }

  lemma CreateNext(cfg: Config, ws: seq<World>, u: UserId, r: RequestId, base: nat, k: nat) returns (ws': seq<World>)
    requires IsRun(cfg, ws) && UsesOnly(ws, base, k) && base <= r < base + k
    requires WorldInv(Last(ws)) && Ready(Last(ws), u, r, base + k)
    ensures IsRun(cfg, ws') && ws'[0] == ws[0] && UsesOnly(ws', base, k)
    ensures WorldInv(Last(ws')) && Ready(Last(ws'), u, r + 1, base + k)
    ensures |Active(Last(ws'), u)| == |Active(Last(ws), u)| + 1
  {
    var w1, w2 := StampAndCreate(cfg, Last(ws), r, u);
    Extend(cfg, ws, Run(r, 0));
    Extend(cfg, ws + [w1], Run(r, 0));
    ws' := ws + [w1] + [w2];
  }

  /** Then each of them creates its session. */
  lemma {:induction false} AllCreate(cfg: Config, w: World, u: UserId, base: nat, j: nat, k: nat) returns (ws: seq<World>)
    requires WorldInv(w) && Settled(w, base) && |Active(w, u)| < cfg.maxDevices && j <= k
    ensures IsRun(cfg, ws) && ws[0] == w && UsesOnly(ws, base, k)
    ensures WorldInv(Last(ws)) && Ready(Last(ws), u, base + j, base + k)
    ensures |Active(Last(ws), u)| == |Active(w, u)| + j
  {
    if j == 0 {
      ws := AllRead(cfg, w, u, base, k, k);
      RunKeeps(cfg, ws, |ws| - 1);
    } else {
      ws := AllCreate(cfg, w, u, base, j - 1, k);
      ws := CreateNext(cfg, ws, u, base + j - 1, base, k);
    }
  }

  function Between(base: nat, k: nat): (rs: set<RequestId>)
    ensures |rs| == k
    ensures forall r: RequestId :: r in rs <==> base <= r < base + k
  {
    if k == 0 then {} else Between(base, k - 1) + {base + k - 1}
  }

  /**
   For every limit and every k some run from the empty world, with never more than k of the user's
   logins in flight, ends with maxDevices + k - 1 usable sessions: maxDevices - 1 logins one after
   another, then k that overlap.
   */
  lemma DeviceBoundReached(cfg: Config, u: UserId, k: nat) returns (ws: seq<World>)
    requires cfg.maxDevices >= 1 && k >= 1
    ensures IsRun(cfg, ws) && ws[0] == EMPTY_WORLD
    ensures forall i :: 0 <= i < |ws| ==> |InFlight(ws[i], u)| <= k
    ensures |Active(ws[|ws| - 1], u)| == cfg.maxDevices + k - 1
  {
    var base: nat := cfg.maxDevices - 1;
    var first := FillUp(cfg, u, base);
    EmptyWorldInv();
    RunKeeps(cfg, first, |first| - 1);
    var more := AllCreate(cfg, Last(first), u, base, k, k);
    Joined(cfg, first, more);
    ws := first + more[1..];
    forall i | 0 <= i < |ws|
      ensures |InFlight(ws[i], u)| <= k
    {
      if i < |first| {
        assert ws[i] == first[i];
      } else {
        assert ws[i] == more[i - |first| + 1];
        SubsetSize(InFlight(ws[i], u), Between(base, k));
      }
    }
    assert Last(ws) == Last(more);
  }

  // ----- the two session checks part -----

  /** The store after a first login and one refresh. */
  lemma RefreshedStore(cfg: Config, u: UserId) returns (t: RefreshToken, st1: Store, st2: Store)
    requires cfg.cacheOn
    ensures t == RefreshToken(u, 0, 0, REFRESH_TTL)
    ensures st1 == Finish(cfg, EMPTY_STORE, LoginRead(u)).0 && Verifies(st1, t)
    ensures st2 == Finish(cfg, st1, RefreshRead(t)).0 && Verifies(st2, t)
    ensures st2.now == 0 && st2.nextSession == 1 && st2.flags == map[]
    ensures st2.sessions.Keys == {0} && st2.sessions[0].userId == u && st2.sessions[0].Usable()
    ensures st2.sessions[0].expiresAt == REFRESH_TTL && st2.sessions[0].hash != HashOf(t)
  {
    t := RefreshToken(u, 0, 0, REFRESH_TTL);
    FirstLogin(cfg, u);
    st1 := Finish(cfg, EMPTY_STORE, LoginRead(u)).0;
    LoginServed(cfg, EMPTY_STORE, u);
    RefreshRotates(cfg, st1, t);
    st2 := Finish(cfg, st1, RefreshRead(t)).0;
  }

  /** Session 0 is the only one there has been; a sweep that has read it has not written yet. */
  ghost predicate SweepUnderWay(w: World, u: UserId) {
    && w.st.nextSession == 1 && w.st.sessions.Keys == {0} && w.st.flags == map[]
    && w.reqs.Keys == {0, 1, 2} && w.reqs[0].Done? && w.reqs[1].Done?
    && w.reqs[2] == AllInvalidate(u, {0}, TokenReuse)
  }

  /** A second login then: its session is active and unflagged, and the user's info is cached. */
  lemma SecondLogin(cfg: Config, st: Store, u: UserId)
    requires cfg.cacheOn && st.nextSession == 1 && 1 !in st.sessions && (forall s <- st.flags :: s in st.sessions)
    requires forall s <- st.sessions :: s < 1
    ensures var st' := Finish(cfg, st, LoginRead(u)).0;
      && 1 in ActiveOf(st'.sessions, u)
      && !Flagged(st', 1)
      && InfoCached(st', u)
      && AccessToken(u, 1, st'.now + ACCESS_TTL) in st'.accessSigned
      && st'.now == st.now
  {
    LoginServed(cfg, st, u);
  }

  /** A replayed token on its way: the check finds another hash, and the sweep reads session 0. */
  lemma Replay(cfg: Config, ws: seq<World>, u: UserId, t: RefreshToken) returns (ws': seq<World>)
    requires IsRun(cfg, ws) && 2 !in Last(ws).reqs && t == RefreshToken(u, 0, 0, REFRESH_TTL)
    requires var st := Last(ws).st;
      && Verifies(st, t) && st.now == 0 && st.sessions.Keys == {0}
      && st.sessions[0].userId == u && st.sessions[0].Usable()
      && st.sessions[0].expiresAt == REFRESH_TTL && st.sessions[0].hash != HashOf(t)
    ensures IsRun(cfg, ws') && ws <= ws'
    ensures Last(ws') == World(Last(ws).st, Last(ws).reqs[2 := AllInvalidate(u, {0}, TokenReuse)])
  {
    var st, reqs := Last(ws).st, Last(ws).reqs;
    assert ActiveOf(st.sessions, u) == {0};
    var pcs := [
      RefreshRead(t), RefreshCheck(t, Some(st.sessions[0])), Pc.AllRead(u, TokenReuse), AllInvalidate(u, {0}, TokenReuse)];
    Extend(cfg, ws, Begin(2, pcs[0]));
    ws' := ws + [World(st, reqs[2 := pcs[0]])];
    for i := 0 to 3
      invariant IsRun(cfg, ws') && ws <= ws' && Last(ws') == World(st, reqs[2 := pcs[i]])
    {
      Extend(cfg, ws', Run(2, 0));
      assert Advance(cfg, st, pcs[i], 0) == (st, pcs[i + 1]);
      assert reqs[2 := pcs[i]][2 := pcs[i + 1]] == reqs[2 := pcs[i + 1]];
      ws' := ws' + [World(st, reqs[2 := pcs[i + 1]])];
    }
  }

  /** After the update the database refuses what was active; what was signed and the clock stay. */
  lemma SweepEnds(cfg: Config, st: Store, u: UserId, ids: set<SessionId>, s: SessionId)
    requires s in ActiveOf(st.sessions, u)
    ensures var st' := Finish(cfg, st, AllInvalidate(u, ids, TokenReuse)).0;
      !AcceptsFromDatabase(cfg, st', u, s) && st'.accessSigned == st.accessSigned && st'.now == st.now
  {
    var st1 := st.(sessions := Invalidate(st.sessions, ActiveOf(st.sessions, u)));
    assert Finish(cfg, st, AllInvalidate(u, ids, TokenReuse)) == Finish(cfg, st1, MarkThen(u, ids, TokenReuse));
    assert Finish(cfg, st1, MarkThen(u, ids, TokenReuse)) == (Mark(cfg, st1, ids), ReuseDetected);
    AcceptsWhen(cfg.(cacheOn := false), Mark(cfg, st1, ids), u, s);
  }

  lemma ReachSweep(cfg: Config, u: UserId) returns (ws: seq<World>)
    requires cfg.cacheOn
    ensures IsRun(cfg, ws) && ws[0] == EMPTY_WORLD && SweepUnderWay(Last(ws), u)
  {
    var t, st1, st2 := RefreshedStore(cfg, u);
    ws := ServeNext(cfg, [EMPTY_WORLD], 0, LoginRead(u));
    ws := ServeNext(cfg, ws, 1, RefreshRead(t));
    ws := Replay(cfg, ws, u, t);
  }

  lemma LoginThenSweep(cfg: Config, ws: seq<World>, u: UserId) returns (ws': seq<World>)
    requires IsRun(cfg, ws) && SweepUnderWay(Last(ws), u)
    ensures IsRun(cfg, ws') && ws <= ws' && forall r <- Last(ws').reqs :: Last(ws').reqs[r].Done?
    ensures var st := Finish(cfg, Last(ws).st, LoginRead(u)).0;
      Last(ws').st == Finish(cfg, st, AllInvalidate(u, {0}, TokenReuse)).0
  {
    var reqs := Last(ws).reqs;
    ws' := ServeNext(cfg, ws, 3, LoginRead(u));
    assert Last(ws').reqs[2] == reqs[2];
    ws' := LetFinish(cfg, ws', 2);
  }

  lemma SweepThenParts(cfg: Config, w: World, st: Store, u: UserId)
    requires cfg.cacheOn && SweepUnderWay(w, u) && st == Finish(cfg, w.st, LoginRead(u)).0
    ensures var st' := Finish(cfg, st, AllInvalidate(u, {0}, TokenReuse)).0;
      && Accepts(cfg, st', u, 1) && !AcceptsFromDatabase(cfg, st', u, 1)
      && AccessToken(u, 1, st'.now + ACCESS_TTL) in st'.accessSigned
  {
    SecondLogin(cfg, w.st, u);
    ChecksAgreeAfterSweep(cfg, st, u, {0}, TokenReuse, 1);
    SweepEnds(cfg, st, u, {0}, 1);
  }

  /**
   From the empty world, whatever the limit: a login, a refresh, and the old token again; while its
   sweep stands between read and update the user logs in once more.  In the end every request has
   ended, the new session is invalid in the table, and the cached check accepts it.
   */
  lemma ChecksPart(cfg: Config, u: UserId) returns (ws: seq<World>)
    requires cfg.cacheOn
    ensures IsRun(cfg, ws) && ws[0] == EMPTY_WORLD && forall r <- Last(ws).reqs :: Last(ws).reqs[r].Done?
    ensures AccessToken(u, 1, Last(ws).st.now + ACCESS_TTL) in Last(ws).st.accessSigned
    ensures Accepts(cfg, Last(ws).st, u, 1) && !AcceptsFromDatabase(cfg, Last(ws).st, u, 1)
  {
    var reached := ReachSweep(cfg, u);
    ws := LoginThenSweep(cfg, reached, u);
    SweepThenParts(cfg, Last(reached), Finish(cfg, Last(reached).st, LoginRead(u)).0, u);
  }
}
