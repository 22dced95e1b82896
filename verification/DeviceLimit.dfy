/**
 How many usable sessions a user can have when logins overlap.

 A login reads the user's active sessions, invalidates what it read when the limit is reached,
 and only then creates its own.  With at most k logins of the user in flight between the read and
 the create, the user never has more than maxDevices + k - 1 usable sessions: the documented limit
 holds when logins do not overlap.  Module Overlaps shows that the bound is reached.
 */
module DeviceLimit {
  import opened Wrappers
  import opened SessionModel
  import opened SessionSafety
  import opened Sets

  // ----- one user's logins -----

  /** A login of u that has begun and has not created its session yet. */
  predicate BeforeCreate(pc: Pc, u: UserId) {
    (pc == LoginRead(u)) || WillInvalidate(pc, u) || WillCreate(pc, u)
  }

  predicate WillInvalidate(pc: Pc, u: UserId) {
    pc.LoginInvalidate? && pc.u == u
  }

  /** Nothing but the create lies ahead for the user's rows. */
  predicate WillCreate(pc: Pc, u: UserId) {
    (pc.LoginMark? || pc.LoginStamp? || pc.LoginCreate?) && pc.u == u
  }

  function InFlight(w: World, u: UserId): set<RequestId> {
    set r | r in w.reqs && BeforeCreate(w.reqs[r], u)
  }

  function Active(w: World, u: UserId): set<SessionId> {
    ActiveOf(w.st.sessions, u)
  }

  /** All that matters for the bound: usable sessions, logins sure to create, and who waits with what. */
  datatype Lineup = Lineup(
    active: set<SessionId>,
    creators: set<RequestId>,
    waiting: map<RequestId, set<SessionId>>,
    next: SessionId)

  function LineupOf(w: World, u: UserId): Lineup {
    Lineup(
      Active(w, u),
      set r | r in w.reqs && WillCreate(w.reqs[r], u),
      map r | r in w.reqs && WillInvalidate(w.reqs[r], u) :: w.reqs[r].ids,
      w.st.nextSession)
  }

  datatype Move =
    | Shrink(active: set<SessionId>, next: SessionId)
    | Join(r: RequestId)
    | Pass(r: RequestId)
    | Sweep(r: RequestId)
    | Create(r: RequestId)

  predicate CanMove(l: Lineup, m: Move, max: int) {
    match m
    case Shrink(active, next) => active <= l.active && l.next <= next
    case Join(r) => r !in l.waiting && r !in l.creators
    case Pass(r) => r !in l.creators && r !in l.waiting && |l.active| < max
    case Sweep(r) => r in l.waiting && r !in l.creators
    case Create(r) => r in l.creators && l.next !in l.active
  }

  function Moved(l: Lineup, m: Move): Lineup
    requires m.Sweep? ==> m.r in l.waiting
  {
    match m
    case Shrink(active, next) => l.(active := active, next := next)
    case Join(r) => l.(waiting := l.waiting[r := l.active])
    case Pass(r) => l.(creators := l.creators + {r})
    case Sweep(r) => l.(active := l.active - l.waiting[r], creators := l.creators + {r}, waiting := l.waiting - {r})
    case Create(r) => l.(active := l.active + {l.next}, creators := l.creators - {r}, next := l.next + 1)
  }

  // ----- the protocol seen as moves -----

  /** Only a create adds a session to a user, and only these stages of a login count as waiting or sure. */
  lemma AdvanceLineup(cfg: Config, st: Store, pc: Pc, pick: SessionId, u: UserId)
    requires StoreInv(st) && CanAdvance(pc, pick)
    requires pc != LoginRead(u) && !WillInvalidate(pc, u) && !(pc.LoginCreate? && pc.u == u)
    ensures var (st', pc') := Advance(cfg, st, pc, pick);
      && ActiveOf(st'.sessions, u) <= ActiveOf(st.sessions, u)
      && st.nextSession <= st'.nextSession
      && !WillInvalidate(pc', u)
      && (WillCreate(pc', u) <==> WillCreate(pc, u))
  {
  }

  lemma OtherRunShrinks(cfg: Config, w: World, a: Action, u: UserId)
    requires WorldInv(w) && Enabled(w, a) && a.Run?
    requires var pc := w.reqs[a.r];
      pc != LoginRead(u) && !WillInvalidate(pc, u) && !(pc.LoginCreate? && pc.u == u)
    ensures var l, l' := LineupOf(w, u), LineupOf(Do(cfg, w, a), u);
      l'.active <= l.active && l.next <= l'.next && l' == l.(active := l'.active, next := l'.next)
  {
    AdvanceLineup(cfg, w.st, w.reqs[a.r], a.pick, u);
    var l, l' := LineupOf(w, u), LineupOf(Do(cfg, w, a), u);
    assert l'.creators == l.creators;
    assert l'.waiting == l.waiting;
  }

  lemma NoRunShrinks(cfg: Config, w: World, a: Action, u: UserId)
    requires WorldInv(w) && Enabled(w, a) && !a.Run?
    ensures var l, l' := LineupOf(w, u), LineupOf(Do(cfg, w, a), u);
      l'.active <= l.active && l.next <= l'.next && l' == l.(active := l'.active, next := l'.next)
  {
    var l, l' := LineupOf(w, u), LineupOf(Do(cfg, w, a), u);
    assert l'.creators == l.creators;
    assert l'.waiting == l.waiting;
  }

  lemma ReadMoves(cfg: Config, w: World, r: RequestId, pick: SessionId, u: UserId)
    requires cfg.maxDevices > 0 && r in w.reqs && w.reqs[r] == LoginRead(u)
    ensures var l := LineupOf(w, u);
      var m := if |l.active| >= cfg.maxDevices then Join(r) else Pass(r);
      CanMove(l, m, cfg.maxDevices) && LineupOf(Do(cfg, w, Run(r, pick)), u) == Moved(l, m)
  {
    var l, l' := LineupOf(w, u), LineupOf(Do(cfg, w, Run(r, pick)), u);
    if |l.active| >= cfg.maxDevices {
      assert l'.creators == l.creators;
      assert l'.waiting == l.waiting[r := l.active];
    } else {
      assert l'.creators == l.creators + {r};
      assert l'.waiting == l.waiting;
    }
  }

  lemma InvalidateMoves(cfg: Config, w: World, r: RequestId, pick: SessionId, u: UserId)
    requires r in w.reqs && WillInvalidate(w.reqs[r], u)
    ensures var l := LineupOf(w, u);
      CanMove(l, Sweep(r), cfg.maxDevices) && LineupOf(Do(cfg, w, Run(r, pick)), u) == Moved(l, Sweep(r))
  {
    var l, l' := LineupOf(w, u), LineupOf(Do(cfg, w, Run(r, pick)), u);
    assert l'.active == l.active - l.waiting[r];
    assert l'.creators == l.creators + {r};
    assert l'.waiting == l.waiting - {r};
  }

  lemma CreateMoves(cfg: Config, w: World, r: RequestId, pick: SessionId, u: UserId)
    requires WorldInv(w) && r in w.reqs && w.reqs[r].LoginCreate? && w.reqs[r].u == u
    ensures var l := LineupOf(w, u);
      CanMove(l, Create(r), cfg.maxDevices) && LineupOf(Do(cfg, w, Run(r, pick)), u) == Moved(l, Create(r))
  {
    var l, l' := LineupOf(w, u), LineupOf(Do(cfg, w, Run(r, pick)), u);
    assert l'.active == l.active + {l.next};
    assert l'.creators == l.creators - {r};
    assert l'.waiting == l.waiting;
  }

  lemma StepMoves(cfg: Config, w: World, a: Action, u: UserId) returns (m: Move)
    requires cfg.maxDevices > 0 && WorldInv(w) && Enabled(w, a)
    ensures CanMove(LineupOf(w, u), m, cfg.maxDevices)
    ensures LineupOf(Do(cfg, w, a), u) == Moved(LineupOf(w, u), m)
  {
    if a.Run? && w.reqs[a.r] == LoginRead(u) {
      ReadMoves(cfg, w, a.r, a.pick, u);
      m := if |Active(w, u)| >= cfg.maxDevices then Join(a.r) else Pass(a.r);
    } else if a.Run? && WillInvalidate(w.reqs[a.r], u) {
      InvalidateMoves(cfg, w, a.r, a.pick, u);
      m := Sweep(a.r);
    } else if a.Run? && w.reqs[a.r].LoginCreate? && w.reqs[a.r].u == u {
      CreateMoves(cfg, w, a.r, a.pick, u);
      m := Create(a.r);
    } else {
      if a.Run? {
        OtherRunShrinks(cfg, w, a, u);
      } else {
        NoRunShrinks(cfg, w, a, u);
      }
      m := Shrink(Active(Do(cfg, w, a), u), Do(cfg, w, a).st.nextSession);
    }
  }

  // ----- the bound on moves -----

  /**
   `q` lists the waiting logins in the order they read.  What an earlier one read and is still
   usable was read by every later one too.
   */
  ghost predicate IsQueue(l: Lineup, q: seq<RequestId>) {
    && (forall i :: 0 <= i < |q| ==> q[i] in l.waiting)
    && (forall i, j :: 0 <= i < j < |q| ==> q[i] != q[j])
    && (forall r <- l.waiting :: r in q)
    && (forall r <- l.waiting, s <- l.waiting[r] :: s < l.next)
    && (forall i, j :: 0 <= i < j < |q| ==> l.active * l.waiting[q[i]] <= l.waiting[q[j]])
  }

  /** Room for the i-th in line and those before it, once it has invalidated what it read. */
  ghost predicate HasRoom(l: Lineup, q: seq<RequestId>, bound: int, i: int) {
    0 <= i < |q| && q[i] in l.waiting && |l.active - l.waiting[q[i]]| + |l.creators| + i + 1 <= bound
  }

  ghost predicate LimitInv(l: Lineup, q: seq<RequestId>, bound: int) {
    && IsQueue(l, q)
    && (forall s <- l.active :: s < l.next)
    && |l.active| + |l.creators| <= bound
    && forall i {:trigger HasRoom(l, q, bound, i)} :: 0 <= i < |q| ==> HasRoom(l, q, bound, i)
  }

  ghost predicate Limited(l: Lineup, bound: int) {
    exists q :: LimitInv(l, q, bound)
  }

  lemma {:induction false} QueueSize(q: seq<RequestId>, rs: set<RequestId>)
    requires forall i, j :: 0 <= i < j < |q| ==> q[i] != q[j]
    requires forall r <- q :: r in rs
    ensures |q| <= |rs|
  {
    if q != [] {
      QueueSize(q[1..], rs - {q[0]});
    }
  }

  lemma ShrinkKeeps(l: Lineup, m: Move, bound: int, max: int)
    requires m.Shrink? && CanMove(l, m, max) && Limited(l, bound)
    ensures Limited(Moved(l, m), bound)
  {
    var q :| LimitInv(l, q, bound);
    SubsetSize(m.active, l.active);
    forall i | 0 <= i < |q|
      ensures HasRoom(Moved(l, m), q, bound, i)
    {
      assert HasRoom(l, q, bound, i);
      SubsetSize(m.active - l.waiting[q[i]], l.active - l.waiting[q[i]]);
    }
    assert LimitInv(Moved(l, m), q, bound);
  }

  /** At the end of the line stands one who has read everything: only the others' creates can exceed it. */
  lemma JoinKeeps(l: Lineup, m: Move, max: int, k: nat, bound: int)
    requires max > 0 && bound == max + k - 1 && m.Join? && CanMove(l, m, max) && Limited(l, bound)
    requires |Moved(l, m).waiting.Keys| + |l.creators| <= k
    ensures Limited(Moved(l, m), bound)
  {
    var q :| LimitInv(l, q, bound);
    var l', q' := Moved(l, m), q + [m.r];
    QueueSize(q', l'.waiting.Keys);
    forall i {:trigger HasRoom(l', q', bound, i)} | 0 <= i < |q'|
      ensures HasRoom(l', q', bound, i)
    {
      if i < |q| {
        assert HasRoom(l, q, bound, i);
      } else {
        assert l'.active - l'.waiting[m.r] == {};
      }
    }
    assert LimitInv(l', q', bound);
  }

  lemma PassKeeps(l: Lineup, m: Move, max: int, k: nat, bound: int)
    requires max > 0 && bound == max + k - 1 && m.Pass? && CanMove(l, m, max) && Limited(l, bound)
    requires |l.waiting.Keys| + |Moved(l, m).creators| <= k
    ensures Limited(Moved(l, m), bound)
  {
    var q :| LimitInv(l, q, bound);
    QueueSize(q, l.waiting.Keys);
    forall i {:trigger HasRoom(Moved(l, m), q, bound, i)} | 0 <= i < |q|
      ensures HasRoom(Moved(l, m), q, bound, i)
    {
      SubsetSize(l.active - l.waiting[q[i]], l.active);
    }
    assert LimitInv(Moved(l, m), q, bound);
  }

  /** `q'` is `q` without its j-th entry. */
  ghost predicate Leaves(q: seq<RequestId>, j: nat, q': seq<RequestId>) {
    && j < |q|
    && |q'| == |q| - 1
    && (forall i {:trigger q'[i]} :: 0 <= i < j ==> q'[i] == q[i])
    && (forall i {:trigger q'[i]} :: j <= i < |q'| ==> q'[i] == q[i + 1])
  }

  lemma SweepQueue(l: Lineup, q: seq<RequestId>, j: nat, q': seq<RequestId>)
    requires IsQueue(l, q) && Leaves(q, j, q')
    ensures IsQueue(Moved(l, Sweep(q[j])), q')
  {
    var l' := Moved(l, Sweep(q[j]));
    forall x <- l'.waiting
      ensures x in q'
    {
      var i :| 0 <= i < |q| && q[i] == x;
      var h := if i < j then i else i - 1;
      assert q'[h] == q[i];
    }
    forall i | 0 <= i < |q'|
      ensures q'[i] in l'.waiting
    {
      var h := if i < j then i else i + 1;
      assert q'[i] == q[h] && q[h] != q[j];
    }
    forall i, i' | 0 <= i < i' < |q'|
      ensures q'[i] != q'[i'] && l'.active * l'.waiting[q'[i]] <= l'.waiting[q'[i']]
    {
      var h, h' := if i < j then i else i + 1, if i' < j then i' else i' + 1;
      assert q'[i] == q[h] && q'[i'] == q[h'];
      assert q[h] != q[h'] && l.active * l.waiting[q[h]] <= l.waiting[q[h']];
    }
  }

  lemma SweepRoom(l: Lineup, q: seq<RequestId>, j: nat, q': seq<RequestId>, bound: int, i: nat)
    requires IsQueue(l, q) && Leaves(q, j, q') && q[j] !in l.creators && i < |q'|
    requires HasRoom(l, q, bound, j) && (i >= j ==> HasRoom(l, q, bound, i + 1))
    ensures HasRoom(Moved(l, Sweep(q[j])), q', bound, i)
  {
    var l' := Moved(l, Sweep(q[j]));
    if i < j {
      assert q'[i] == q[i] && q[i] != q[j];
      assert l.active * l.waiting[q[i]] <= l.waiting[q[j]];
      SubsetSize(l'.active - l'.waiting[q'[i]], l.active - l.waiting[q[j]]);
    } else {
      assert q'[i] == q[i + 1] && q[i + 1] != q[j];
      SubsetSize(l'.active - l'.waiting[q'[i]], l.active - l.waiting[q[i + 1]]);
    }
  }

  lemma WithoutOne(q: seq<RequestId>, j: nat)
    requires j < |q|
    ensures Leaves(q, j, q[..j] + q[j + 1..])
  {
  }

  lemma SweepRooms(l: Lineup, q: seq<RequestId>, j: nat, q': seq<RequestId>, bound: int)
    requires LimitInv(l, q, bound) && Leaves(q, j, q') && q[j] !in l.creators
    ensures forall i {:trigger HasRoom(Moved(l, Sweep(q[j])), q', bound, i)} :: 0 <= i < |q'| ==>
      HasRoom(Moved(l, Sweep(q[j])), q', bound, i)
  {
    forall i {:trigger HasRoom(Moved(l, Sweep(q[j])), q', bound, i)} | 0 <= i < |q'|
      ensures HasRoom(Moved(l, Sweep(q[j])), q', bound, i)
    {
      assert HasRoom(l, q, bound, j);
      assert i >= j ==> HasRoom(l, q, bound, i + 1);
      SweepRoom(l, q, j, q', bound, i);
    }
  }

  /** Wherever it stood, the one that invalidates makes room for itself and for those before it. */
  lemma SweepKeeps(l: Lineup, m: Move, bound: int, max: int)
    requires m.Sweep? && CanMove(l, m, max) && Limited(l, bound)
    ensures Limited(Moved(l, m), bound)
  {
    var q :| LimitInv(l, q, bound);
    var j :| 0 <= j < |q| && q[j] == m.r;
    var q' := q[..j] + q[j + 1..];
    assert HasRoom(l, q, bound, j);
    WithoutOne(q, j);
    SweepQueue(l, q, j, q');
    SweepRooms(l, q, j, q', bound);
    SubsetSize(l.active - l.waiting[q[j]], l.active);
    assert LimitInv(Moved(l, m), q', bound);
  }

  lemma CreateKeeps(l: Lineup, m: Move, bound: int, max: int)
    requires m.Create? && CanMove(l, m, max) && Limited(l, bound)
    ensures Limited(Moved(l, m), bound)
  {
    var q :| LimitInv(l, q, bound);
    var l' := Moved(l, m);
    forall i | 0 <= i < |q|
      ensures HasRoom(l', q, bound, i)
    {
      assert HasRoom(l, q, bound, i);
      assert l'.active - l'.waiting[q[i]] == (l.active - l.waiting[q[i]]) + {l.next};
    }
    assert LimitInv(l', q, bound);
  }

  /** Waiting logins and creators are all in flight. */
  lemma LineupFits(w: World, u: UserId)
    ensures var l := LineupOf(w, u); |l.waiting.Keys| + |l.creators| <= |InFlight(w, u)|
  {
    var l := LineupOf(w, u);
    assert l.waiting.Keys !! l.creators;
    SubsetSize(l.waiting.Keys + l.creators, InFlight(w, u));
  }

  lemma MoveKeeps(l: Lineup, m: Move, max: int, k: nat, bound: int)
    requires max > 0 && bound == max + k - 1 && CanMove(l, m, max) && Limited(l, bound)
    requires |Moved(l, m).waiting.Keys| + |Moved(l, m).creators| <= k
    ensures Limited(Moved(l, m), bound)
  {
    match m {
      case Shrink(_, _) => ShrinkKeeps(l, m, bound, max);
      case Join(_) => JoinKeeps(l, m, max, k, bound);
      case Pass(_) => PassKeeps(l, m, max, k, bound);
      case Sweep(_) => SweepKeeps(l, m, bound, max);
      case Create(_) => CreateKeeps(l, m, bound, max);
    }
  }

  // ----- whole runs -----

  /** A world to start from: none of u's logins is under way and u is within the limit. */
  ghost predicate Quiet(cfg: Config, w: World, u: UserId) {
    && WorldInv(w)
    && (forall r <- w.reqs :: !BeforeCreate(w.reqs[r], u))
    && |Active(w, u)| <= cfg.maxDevices
  }

  lemma StepKeepsLimit(cfg: Config, w: World, a: Action, u: UserId, k: nat, bound: int)
    requires cfg.maxDevices > 0 && bound == cfg.maxDevices + k - 1 && WorldInv(w) && Enabled(w, a)
    requires |InFlight(Do(cfg, w, a), u)| <= k && Limited(LineupOf(w, u), bound)
    ensures Limited(LineupOf(Do(cfg, w, a), u), bound)
  {
    var m := StepMoves(cfg, w, a, u);
    LineupFits(Do(cfg, w, a), u);
    MoveKeeps(LineupOf(w, u), m, cfg.maxDevices, k, bound);
  }

  lemma {:induction false} LimitAlong(cfg: Config, ws: seq<World>, u: UserId, k: nat, n: nat, bound: int)
    requires cfg.maxDevices > 0 && k > 0 && bound == cfg.maxDevices + k - 1
    requires IsRun(cfg, ws) && Quiet(cfg, ws[0], u) && n < |ws|
    requires forall i :: 0 <= i <= n ==> |InFlight(ws[i], u)| <= k
    ensures Limited(LineupOf(ws[n], u), bound)
  {
    if n == 0 {
      assert LineupOf(ws[0], u).creators == {};
      assert LimitInv(LineupOf(ws[0], u), [], bound);
    } else {
      LimitAlong(cfg, ws, u, k, n - 1, bound);
      RunKeeps(cfg, ws, n - 1);
      var a := StepAt(cfg, ws, n - 1);
      StepKeepsLimit(cfg, ws[n - 1], a, u, k, bound);
    }
  }

  /** At most k logins in flight at any time: never more than maxDevices + k - 1 usable sessions. */
  lemma DeviceBound(cfg: Config, ws: seq<World>, u: UserId, k: nat, n: nat)
    requires cfg.maxDevices > 0 && k > 0 && IsRun(cfg, ws) && Quiet(cfg, ws[0], u) && n < |ws|
    requires forall i :: 0 <= i <= n ==> |InFlight(ws[i], u)| <= k
    ensures |Active(ws[n], u)| <= cfg.maxDevices + k - 1
  {
    LimitAlong(cfg, ws, u, k, n, cfg.maxDevices + k - 1);
    var q :| LimitInv(LineupOf(ws[n], u), q, cfg.maxDevices + k - 1);
  }
}
