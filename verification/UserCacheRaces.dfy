/**
 UserService with requests interleaved at every await, on the state of module UserCache.

 A request that nothing interrupts does what its operation there does.  With interruptions, what a
 lookup answers may be stale, but only by the lifetime of an entry and the longest delay between a
 database access and the cache write that follows it.  That bound is reached.
 */
module UserCacheRaces {
  import opened Wrappers
  import opened CacheService
  import opened UserCache

  type RequestId = nat

  /** Where a request stands.  `at` is when it last accessed the database. */
  datatype Pc =
    | AtGet(id: Id)
    | AtRead(id: Id)
    | AtInsert(id: Id, user: User)
    | AtCheck(id: Id, dto: Dto)
    | AtEdit(id: Id, dto: Dto)
    | AtDrop(id: Id, user: User, at: int)
    | AtDeleteCheck(id: Id)
    | AtStamp(id: Id)
    | AtDropSession(id: Id, user: User, at: int)
    | AtScan(id: Id, user: User, at: int)
    | AtSessions(id: Id, user: User, at: int, left: set<string>, mine: set<string>)
    | AtDropSessions(id: Id, user: User, at: int, mine: set<string>)
    | AtForget(id: Id, user: User, at: int)
    | AtRestoreCheck(id: Id)
    | AtRestore(id: Id)
    | AtFill(id: Id, user: User, at: int)
    | Answered(id: Id, answer: Answer)

  datatype World = World(s: State, reqs: map<RequestId, Pc>)

  /**
   `ok` says whether the cache answers a request's step, `pick` which session key it reads next; other
   programs write rows as they like, and cache keys that are no user's.
   */
  datatype Action =
    | Tick(seconds: nat)
    | Begin(r: RequestId, pc: Pc)
    | Proceed(r: RequestId, ok: bool, pick: string)
    | Abandon(r: RequestId)
    | WriteRow(id: Id, user: Option<User>)
    | WriteKey(key: string, entry: Entry<Doc>)
    | Evict(key: string)

  predicate IsStart(pc: Pc) {
    pc.AtGet? || pc.AtInsert? || pc.AtCheck? || pc.AtDeleteCheck? || pc.AtRestoreCheck?
  }

  predicate CanProceed(pc: Pc, pick: string) {
    !pc.Answered? && (pc.AtSessions? && pc.left != {} ==> pick in pc.left)
  }

  predicate Enabled(w: World, a: Action) {
    match a
    case Begin(r, pc) => r !in w.reqs && IsStart(pc)
    case Proceed(r, _, pick) => r in w.reqs && CanProceed(w.reqs[r], pick)
    case Abandon(r) => r in w.reqs
    case WriteKey(key, _) => !(USER_INFO_PREFIX <= key)
    case _ => true
  }

  function FoundUser(user: User): Answer {
    Found(Json(UserDoc(user)))
  }

  function Dropping(s: State, keys: set<string>, ok: bool): State {
    if ok then s.(keys := s.keys - keys) else s
  }

  function SessionKeys(s: State): set<string> {
    set k | k in s.keys && Live(s.keys, s.now, k) && SESSION_PREFIX <= k
  }

  /** One step of one request. */
  function Advance(s: State, pc: Pc, ok: bool, pick: string): (State, Pc) {
    match pc
    case AtGet(id) =>
      var v := Lookup(s.keys, s.now, UserInfoKey(id));
      (s, if ok && v.Some? && v.value != Count(0) then Answered(id, Found(v.value)) else AtRead(id))
    case AtRead(id) =>
      var user := FindLive(s.table, id);
      (s, if user.Some? then AtFill(id, user.value, s.now) else Answered(id, Nothing))
    case AtInsert(id, user) => (s.(table := s.table[id := user]), AtFill(id, user, s.now))
    case AtCheck(id, dto) =>
      (s, if FindLive(s.table, id).Some? then AtEdit(id, dto) else Answered(id, NotFoundException))
    case AtEdit(id, dto) =>
      if id !in s.table then (s, Answered(id, RowMissing))
      else
        var user := Edited(s.table[id], dto, s.now);
        (s.(table := s.table[id := user]), AtDrop(id, user, s.now))
    case AtDrop(id, user, at) => (Dropping(s, {UserInfoKey(id)}, ok), AtFill(id, user, at))
    case AtDeleteCheck(id) =>
      (s, if FindLive(s.table, id).Some? then AtStamp(id) else Answered(id, NotFoundException))
    case AtStamp(id) =>
      if id !in s.table then (s, Answered(id, RowMissing))
      else
        var user := Stamped(s.table[id], Some(s.now), s.now);
        (s.(table := s.table[id := user]), AtDropSession(id, user, s.now))
    case AtDropSession(id, user, at) => (Dropping(s, {UserSessionKey(id)}, ok), AtScan(id, user, at))
    case AtScan(id, user, at) => (s, AtSessions(id, user, at, if ok then SessionKeys(s) else {}, {}))
    case AtSessions(id, user, at, left, mine) =>
      if left == {} then (s, if mine == {} then AtForget(id, user, at) else AtDropSessions(id, user, at, mine))
      else
        var isMine := ok && Lookup(s.keys, s.now, pick) == Some(Json(SessionDoc(id)));
        (s, AtSessions(id, user, at, left - {pick}, if isMine then mine + {pick} else mine))
    case AtDropSessions(id, user, at, mine) => (Dropping(s, mine, ok), AtForget(id, user, at))
    case AtForget(id, user, _) => (Dropping(s, {UserInfoKey(id)}, ok), Answered(id, FoundUser(user)))
    case AtRestoreCheck(id) =>
      (s, if FindDeleted(s.table, id).Some? then AtRestore(id) else Answered(id, NotFoundException))
    case AtRestore(id) =>
      if id !in s.table then (s, Answered(id, RowMissing))
      else
        var user := Stamped(s.table[id], None, s.now);
        (s.(table := s.table[id := user]), AtFill(id, user, s.now))
    case AtFill(id, user, _) =>
      (if ok then s.(keys := Put(s.keys, s.now, UserInfoKey(id), Json(UserDoc(user)), Some(USER_INFO_TTL))) else s,
       Answered(id, FoundUser(user)))
    case Answered(_, _) => (s, pc)
  }

  function Do(w: World, a: Action): World
    requires Enabled(w, a)
  {
    match a
    case Tick(seconds) => w.(s := w.s.(now := w.s.now + seconds))
    case Begin(r, pc) => w.(reqs := w.reqs[r := pc])
    case Proceed(r, ok, pick) =>
      var (s, pc) := Advance(w.s, w.reqs[r], ok, pick);
      World(s, w.reqs[r := pc])
    case Abandon(r) => w.(reqs := w.reqs - {r})
    case WriteRow(id, user) =>
      w.(s := w.s.(table := if user.Some? then w.s.table[id := user.value] else w.s.table - {id}))
    case WriteKey(key, entry) => w.(s := w.s.(keys := w.s.keys[key := entry]))
    case Evict(key) => w.(s := w.s.(keys := w.s.keys - {key}))
  }

  ghost predicate Follows(ws: seq<World>, i: nat)
    requires i + 1 < |ws|
  {
    exists a :: Enabled(ws[i], a) && ws[i + 1] == Do(ws[i], a)
  }

  ghost predicate IsRun(ws: seq<World>) {
    && |ws| > 0
    && forall i: nat {:trigger Follows(ws, i)} :: i + 1 < |ws| ==> Follows(ws, i)
  }

  /** Runs start with any table, nothing cached and no request. */
  predicate IsFresh(w: World) {
    w.s.keys == map[] && w.reqs == map[]
  }

  lemma StepAt(ws: seq<World>, i: nat) returns (a: Action)
    requires IsRun(ws) && i + 1 < |ws|
    ensures Enabled(ws[i], a) && ws[i + 1] == Do(ws[i], a)
  {
    assert Follows(ws, i);
    a :| Enabled(ws[i], a) && ws[i + 1] == Do(ws[i], a);
  }

  // ----- a request that nothing interrupts -----

  ghost predicate Reaches(w: World, w': World) {
    exists ws :: IsRun(ws) && ws[0] == w && ws[|ws| - 1] == w'
  }

  lemma ReachNow(w: World)
    ensures Reaches(w, w)
  {
    assert IsRun([w]);
  }

  lemma ReachStep(w0: World, w: World, a: Action)
    requires Reaches(w0, w) && Enabled(w, a)
    ensures Reaches(w0, Do(w, a))
  {
    var ws :| IsRun(ws) && ws[0] == w0 && ws[|ws| - 1] == w;
    var ws' := ws + [Do(w, a)];
    forall i: nat | i + 1 < |ws'|
      ensures Follows(ws', i)
    {
      if i + 1 < |ws| {
        var b := StepAt(ws, i);
        assert ws'[i + 1] == Do(ws'[i], b);
      } else {
        assert ws'[i + 1] == Do(ws'[i], a);
      }
    }
    assert IsRun(ws');
  }

  /** Where request r alone has moved. */
  function With(w: World, s: State, r: RequestId, pc: Pc): World {
    World(s, w.reqs[r := pc])
  }

  /** The next step of r, when it is to get there. */
  lemma Onward(w: World, s: State, r: RequestId, pc: Pc, ok: bool, pick: string, s': State, pc': Pc)
    requires Reaches(w, With(w, s, r, pc)) && CanProceed(pc, pick) && Advance(s, pc, ok, pick) == (s', pc')
    ensures Reaches(w, With(w, s', r, pc'))
  {
    ReachStep(w, With(w, s, r, pc), Proceed(r, ok, pick));
    assert w.reqs[r := pc][r := pc'] == w.reqs[r := pc'];
  }

  lemma Start(w: World, r: RequestId, pc: Pc)
    requires r !in w.reqs && IsStart(pc)
    ensures Reaches(w, With(w, w.s, r, pc))
  {
    ReachNow(w);
    ReachStep(w, w, Begin(r, pc));
  }

  lemma FillEnds(w: World, s: State, r: RequestId, id: Id, user: User, at: int, link: Link)
    requires Reaches(w, With(w, s, r, AtFill(id, user, at)))
    ensures Reaches(w, With(w, s.(keys := Stored(s.keys, s.now, id, user, link)), r, Answered(id, FoundUser(user))))
  {
    Onward(w, s, r, AtFill(id, user, at), link.store, "",
           s.(keys := Stored(s.keys, s.now, id, user, link)), Answered(id, FoundUser(user)));
  }

  lemma FindIsARun(w: World, r: RequestId, id: Id, link: Link)
    requires r !in w.reqs
    ensures var (s, answer) := Find(w.s, id, link); Reaches(w, With(w, s, r, Answered(id, answer)))
  {
    Start(w, r, AtGet(id));
    var cached, user := Cached(w.s, id, link), FindLive(w.s.table, id);
    if cached.Some? {
      Onward(w, w.s, r, AtGet(id), link.fetch, "", w.s, Answered(id, Found(cached.value)));
    } else {
      Onward(w, w.s, r, AtGet(id), link.fetch, "", w.s, AtRead(id));
      if user.None? {
        Onward(w, w.s, r, AtRead(id), true, "", w.s, Answered(id, Nothing));
      } else {
        Onward(w, w.s, r, AtRead(id), true, "", w.s, AtFill(id, user.value, w.s.now));
        FillEnds(w, w.s, r, id, user.value, w.s.now, link);
      }
    }
  }

  lemma CreateIsARun(w: World, r: RequestId, id: Id, user: User, link: Link)
    requires r !in w.reqs
    ensures var (s, answer) := Create(w.s, id, user, link); Reaches(w, With(w, s, r, Answered(id, answer)))
  {
    Start(w, r, AtInsert(id, user));
    var s1 := w.s.(table := w.s.table[id := user]);
    Onward(w, w.s, r, AtInsert(id, user), true, "", s1, AtFill(id, user, w.s.now));
    FillEnds(w, s1, r, id, user, w.s.now, link);
  }

  lemma UpdateIsARun(w: World, r: RequestId, id: Id, dto: Dto, link: Link)
    requires r !in w.reqs
    ensures var (s, answer) := Update(w.s, id, dto, link); Reaches(w, With(w, s, r, Answered(id, answer)))
  {
    Start(w, r, AtCheck(id, dto));
    if FindLive(w.s.table, id).None? {
      Onward(w, w.s, r, AtCheck(id, dto), true, "", w.s, Answered(id, NotFoundException));
    } else {
      var user, at := Edited(w.s.table[id], dto, w.s.now), w.s.now;
      var s1 := w.s.(table := w.s.table[id := user]);
      var s2 := s1.(keys := Dropped(s1.keys, id, link));
      Onward(w, w.s, r, AtCheck(id, dto), true, "", w.s, AtEdit(id, dto));
      Onward(w, w.s, r, AtEdit(id, dto), true, "", s1, AtDrop(id, user, at));
      Onward(w, s1, r, AtDrop(id, user, at), link.drop, "", s2, AtFill(id, user, at));
      FillEnds(w, s2, r, id, user, at, link);
    }
  }

  lemma RestoreIsARun(w: World, r: RequestId, id: Id, link: Link)
    requires r !in w.reqs
    ensures var (s, answer) := Restore(w.s, id, link); Reaches(w, With(w, s, r, Answered(id, answer)))
  {
    Start(w, r, AtRestoreCheck(id));
    if FindDeleted(w.s.table, id).None? {
      Onward(w, w.s, r, AtRestoreCheck(id), true, "", w.s, Answered(id, NotFoundException));
    } else {
      var user := Stamped(w.s.table[id], None, w.s.now);
      var s1 := w.s.(table := w.s.table[id := user]);
      Onward(w, w.s, r, AtRestoreCheck(id), true, "", w.s, AtRestore(id));
      Onward(w, w.s, r, AtRestore(id), true, "", s1, AtFill(id, user, w.s.now));
      FillEnds(w, s1, r, id, user, w.s.now, link);
    }
  }

  /** Of the keys still to read, those that can be read and name the user. */
  function MineOf(s: State, id: Id, left: set<string>, link: Link): set<string> {
    if link.fetch then left * SessionKeysOf(s.keys, s.now, id, link.lost) else {}
  }

  /** The loop over the session keys, in whatever order it takes them. */
  lemma {:induction false} ScanIsARun(w: World, s: State, r: RequestId, id: Id, user: User, at: int,
                                      left: set<string>, mine: set<string>, link: Link)
    requires left <= SessionKeys(s)
    requires Reaches(w, With(w, s, r, AtSessions(id, user, at, left, mine)))
    ensures Reaches(w, With(w, s, r, AtSessions(id, user, at, {}, mine + MineOf(s, id, left, link))))
    decreases left
  {
    if left == {} {
      assert mine + MineOf(s, id, left, link) == mine;
    } else {
      var pick :| pick in left;
      var ok := link.fetch && pick !in link.lost;
      var mine' := if ok && Lookup(s.keys, s.now, pick) == Some(Json(SessionDoc(id))) then mine + {pick} else mine;
      Onward(w, s, r, AtSessions(id, user, at, left, mine), ok, pick, s, AtSessions(id, user, at, left - {pick}, mine'));
      ScanIsARun(w, s, r, id, user, at, left - {pick}, mine', link);
      assert mine' + MineOf(s, id, left - {pick}, link) == mine + MineOf(s, id, left, link);
    }
  }

  /** The clean-up of session entries, from the first deletion to the last. */
  lemma CleanUpIsARun(w: World, s: State, r: RequestId, id: Id, user: User, at: int, link: Link)
    requires Reaches(w, With(w, s, r, AtDropSession(id, user, at)))
    ensures Reaches(w, With(w, s.(keys := SessionsDropped(s.keys, s.now, id, link)), r, AtForget(id, user, at)))
  {
    var s1 := Dropping(s, {UserSessionKey(id)}, link.drop);
    var left := if link.fetch then SessionKeys(s1) else {};
    var mine := {} + MineOf(s1, id, left, link);
    Onward(w, s, r, AtDropSession(id, user, at), link.drop, "", s1, AtScan(id, user, at));
    Onward(w, s1, r, AtScan(id, user, at), link.fetch, "", s1, AtSessions(id, user, at, left, {}));
    ScanIsARun(w, s1, r, id, user, at, left, {}, link);
    DropMine(w, s1, r, id, user, at, mine, link);
    assert mine == if link.fetch then SessionKeysOf(s1.keys, s1.now, id, link.lost) else {};
    assert s1.keys - {} == s1.keys;
    assert Dropping(s1, mine, link.drop).keys == SessionsDropped(s.keys, s.now, id, link);
  }

  /** The last deletion, which is left out when no entry was the user's. */
  lemma DropMine(w: World, s: State, r: RequestId, id: Id, user: User, at: int, mine: set<string>, link: Link)
    requires Reaches(w, With(w, s, r, AtSessions(id, user, at, {}, mine)))
    ensures Reaches(w, With(w, Dropping(s, mine, link.drop), r, AtForget(id, user, at)))
  {
    if mine == {} {
      assert s.keys - {} == s.keys;
      Onward(w, s, r, AtSessions(id, user, at, {}, mine), true, "", s, AtForget(id, user, at));
    } else {
      Onward(w, s, r, AtSessions(id, user, at, {}, mine), true, "", s, AtDropSessions(id, user, at, mine));
      Onward(w, s, r, AtDropSessions(id, user, at, mine), link.drop, "",
             Dropping(s, mine, link.drop), AtForget(id, user, at));
    }
  }

  lemma SoftDeleteIsARun(w: World, r: RequestId, id: Id, link: Link)
    requires r !in w.reqs
    ensures var (s, answer) := SoftDelete(w.s, id, link); Reaches(w, With(w, s, r, Answered(id, answer)))
  {
    Start(w, r, AtDeleteCheck(id));
    if FindLive(w.s.table, id).None? {
      Onward(w, w.s, r, AtDeleteCheck(id), true, "", w.s, Answered(id, NotFoundException));
    } else {
      var user, at := Stamped(w.s.table[id], Some(w.s.now), w.s.now), w.s.now;
      var s1 := w.s.(table := w.s.table[id := user]);
      var s2 := s1.(keys := SessionsDropped(s1.keys, s1.now, id, link));
      Onward(w, w.s, r, AtDeleteCheck(id), true, "", w.s, AtStamp(id));
      Onward(w, w.s, r, AtStamp(id), true, "", s1, AtDropSession(id, user, at));
      CleanUpIsARun(w, s1, r, id, user, at, link);
      Onward(w, s2, r, AtForget(id, user, at), link.drop, "",
             s2.(keys := Dropped(s2.keys, id, link)), Answered(id, FoundUser(user)));
    }
  }

  // ----- where cached and fetched users come from -----

  /** No request stands longer than `gap` between its database access and its cache write. */
  predicate PromptAt(w: World, gap: nat) {
    forall r <- w.reqs.Keys :: w.reqs[r].AtFill? ==> w.s.now - w.reqs[r].at <= gap
  }

  predicate Prompt(ws: seq<World>, gap: nat) {
    forall i :: 0 <= i < |ws| ==> PromptAt(ws[i], gap)
  }

  predicate RowAt(w: World, id: Id, user: User, at: int) {
    w.s.now == at && id in w.s.table && w.s.table[id] == user
  }

  /** A request that is to cache the user it holds. */
  predicate Carries(pc: Pc) {
    pc.AtDrop? || pc.AtFill?
  }

  predicate SameUser(pc: Pc, pc': Pc) {
    Carries(pc) && Carries(pc') && pc.id == pc'.id && pc.user == pc'.user && pc.at == pc'.at
  }

  lemma OwnStepCarries(w: World, r: RequestId, ok: bool, pick: string)
    requires Enabled(w, Proceed(r, ok, pick)) && Carries(Do(w, Proceed(r, ok, pick)).reqs[r])
    ensures var w' := Do(w, Proceed(r, ok, pick));
      var pc := w'.reqs[r];
      RowAt(w, pc.id, pc.user, pc.at) || RowAt(w', pc.id, pc.user, pc.at) || SameUser(w.reqs[r], pc)
  {
  }

  lemma OthersStay(w: World, a: Action, r: RequestId)
    requires Enabled(w, a) && r in Do(w, a).reqs && Carries(Do(w, a).reqs[r]) && !(a.Proceed? && a.r == r)
    ensures r in w.reqs && w.reqs[r] == Do(w, a).reqs[r]
  {
  }

  /** A step that leaves a request with a user either found it there or accessed its row. */
  lemma StepCarries(w: World, a: Action, r: RequestId)
    requires Enabled(w, a) && r in Do(w, a).reqs && Carries(Do(w, a).reqs[r])
    ensures var pc := Do(w, a).reqs[r];
      || RowAt(w, pc.id, pc.user, pc.at)
      || RowAt(Do(w, a), pc.id, pc.user, pc.at)
      || (r in w.reqs && SameUser(w.reqs[r], pc))
  {
    if a.Proceed? && a.r == r {
      OwnStepCarries(w, r, a.ok, a.pick);
    } else {
      OthersStay(w, a, r);
    }
  }

  /** The user a request carries was the row when the request accessed the database. */
  lemma {:induction false} CarriedRow(ws: seq<World>, i: nat, r: RequestId) returns (j: nat)
    requires IsRun(ws) && IsFresh(ws[0]) && i < |ws| && r in ws[i].reqs && Carries(ws[i].reqs[r])
    ensures j <= i && RowAt(ws[j], ws[i].reqs[r].id, ws[i].reqs[r].user, ws[i].reqs[r].at)
  {
    assert i != 0;
    var pc := ws[i].reqs[r];
    var a := StepAt(ws, i - 1);
    StepCarries(ws[i - 1], a, r);
    if RowAt(ws[i - 1], pc.id, pc.user, pc.at) {
      j := i - 1;
    } else if RowAt(ws[i], pc.id, pc.user, pc.at) {
      j := i;
    } else {
      j := CarriedRow(ws, i - 1, r);
    }
  }

  /** Only a request that fills it changes a user's entry, other than by removing it. */
  lemma EntryFilled(w: World, a: Action, id: Id)
    requires Enabled(w, a) && UserInfoKey(id) in Do(w, a).s.keys
    requires !(UserInfoKey(id) in w.s.keys && w.s.keys[UserInfoKey(id)] == Do(w, a).s.keys[UserInfoKey(id)])
    ensures a.Proceed? && w.reqs[a.r].AtFill? && w.reqs[a.r].id == id
    ensures Do(w, a).s.keys[UserInfoKey(id)] == Entry(Json(UserDoc(w.reqs[a.r].user)), Some(w.s.now + USER_INFO_TTL))
  {
    if a.Proceed? && w.reqs[a.r].AtFill? {
      UserInfoKeysDiffer(id, w.reqs[a.r].id);
    }
  }

  /** A cached user was the row at most `gap` before it was cached. */
  lemma {:induction false} CachedRow(ws: seq<World>, gap: nat, i: nat, id: Id) returns (j: nat)
    requires IsRun(ws) && IsFresh(ws[0]) && Prompt(ws, gap) && i < |ws| && UserInfoKey(id) in ws[i].s.keys
    ensures var e := ws[i].s.keys[UserInfoKey(id)];
      && e.value.Json? && e.value.doc.UserDoc? && e.deadline.Some?
      && j <= i && RowAt(ws[j], id, e.value.doc.user, ws[j].s.now)
      && e.deadline.value <= ws[j].s.now + gap + USER_INFO_TTL
  {
    assert i != 0;
    var key := UserInfoKey(id);
    var a := StepAt(ws, i - 1);
    if key in ws[i - 1].s.keys && ws[i - 1].s.keys[key] == ws[i].s.keys[key] {
      j := CachedRow(ws, gap, i - 1, id);
    } else {
      EntryFilled(ws[i - 1], a, id);
      assert PromptAt(ws[i - 1], gap);
      j := CarriedRow(ws, i - 1, a.r);
    }
  }

  /** A lookup answers with something in this step. */
  predicate AnswersAt(ws: seq<World>, i: nat, r: RequestId)
    requires i + 1 < |ws|
  {
    && r in ws[i].reqs && (ws[i].reqs[r].AtGet? || ws[i].reqs[r].AtFill?)
    && r in ws[i + 1].reqs && ws[i + 1].reqs[r].Answered? && ws[i + 1].reqs[r].answer.Found?
  }

  /** Whatever a lookup answers was the row in the table less than 3600 + gap seconds before. */
  lemma BoundedStaleness(ws: seq<World>, gap: nat, i: nat, r: RequestId) returns (j: nat, user: User)
    requires IsRun(ws) && IsFresh(ws[0]) && Prompt(ws, gap) && i + 1 < |ws| && AnswersAt(ws, i, r)
    ensures ws[i + 1].reqs[r].answer == FoundUser(user)
    ensures j <= i && RowAt(ws[j], ws[i + 1].reqs[r].id, user, ws[j].s.now)
    ensures ws[i].s.now - ws[j].s.now < USER_INFO_TTL + gap
  {
    var a := StepAt(ws, i);
    assert a.Proceed? && a.r == r;
    var pc := ws[i].reqs[r];
    if pc.AtGet? {
      j := CachedRow(ws, gap, i, pc.id);
      user := ws[i].s.keys[UserInfoKey(pc.id)].value.doc.user;
    } else {
      assert PromptAt(ws[i], gap);
      j := CarriedRow(ws, i, r);
      user := pc.user;
    }
  }

  // ----- the bound is reached -----

  /** A user and what an edit at time 0 makes of it. */
  datatype Story = Story(gap: nat, id: Id, before: User, dto: Dto) {
    function Edit(): User {
      Edited(before, dto, 0)
    }

    function At(now: int, user: User, keys: KeySpace<Doc>): State {
      State(now, map[id := user], keys)
    }

    function Entry(user: User, at: int): KeySpace<Doc> {
      Put(map[], at, UserInfoKey(id), Json(UserDoc(user)), Some(USER_INFO_TTL))
    }
  }

  /**
   A lookup reads the row, an edit runs from start to end and refreshes the cache, then the lookup
   caches what it had read; another lookup finds that in the last second of its life.
   */
  function StaleRun(s: Story): (ws: seq<World>)
    ensures |ws| == 14
  {
    var before, edited := s.At(0, s.before, map[]), s.At(0, s.Edit(), map[]);
    var refreshed := s.Entry(s.Edit(), 0);
    var fill := AtFill(s.id, s.before, 0);
    var done := Answered(s.id, FoundUser(s.Edit()));
    var stale := s.Entry(s.before, s.gap);
    var all := map[0 := Answered(s.id, FoundUser(s.before)), 1 := done];
    var end := s.At(s.gap + USER_INFO_TTL - 1, s.Edit(), stale);
    [ World(before, map[]),
      World(before, map[0 := AtGet(s.id)]),
      World(before, map[0 := AtRead(s.id)]),
      World(before, map[0 := fill]),
      World(before, map[0 := fill, 1 := AtCheck(s.id, s.dto)]),
      World(before, map[0 := fill, 1 := AtEdit(s.id, s.dto)]),
      World(edited, map[0 := fill, 1 := AtDrop(s.id, s.Edit(), 0)]),
      World(edited, map[0 := fill, 1 := AtFill(s.id, s.Edit(), 0)]),
      World(s.At(0, s.Edit(), refreshed), map[0 := fill, 1 := done]),
      World(s.At(s.gap, s.Edit(), refreshed), map[0 := fill, 1 := done]),
      World(s.At(s.gap, s.Edit(), stale), all),
      World(end, all),
      World(end, all[2 := AtGet(s.id)]),
      World(end, all[2 := Answered(s.id, FoundUser(s.before))]) ]
  }

  function StaleAction(s: Story, i: nat): Action {
    match i
    case 0 => Begin(0, AtGet(s.id))
    case 3 => Begin(1, AtCheck(s.id, s.dto))
    case 8 => Tick(s.gap)
    case 9 => Proceed(0, true, "")
    case 10 => Tick(USER_INFO_TTL - 1)
    case 11 => Begin(2, AtGet(s.id))
    case 12 => Proceed(2, true, "")
    case _ => Proceed(if i < 3 then 0 else 1, true, "")
  }

  lemma EarlySteps(s: Story, i: nat)
    requires s.before.deletedAt.None? && i < 5
    ensures Enabled(StaleRun(s)[i], StaleAction(s, i))
    ensures StaleRun(s)[i + 1] == Do(StaleRun(s)[i], StaleAction(s, i))
  {
  }

  lemma EditSteps(s: Story, i: nat)
    requires s.before.deletedAt.None? && 5 <= i < 9
    ensures Enabled(StaleRun(s)[i], StaleAction(s, i))
    ensures StaleRun(s)[i + 1] == Do(StaleRun(s)[i], StaleAction(s, i))
  {
  }

  lemma OverwriteStep(s: Story, i: nat)
    requires s.before.deletedAt.None? && i == 9
    ensures Enabled(StaleRun(s)[i], StaleAction(s, i))
    ensures StaleRun(s)[i + 1] == Do(StaleRun(s)[i], StaleAction(s, i))
  {
  }

  lemma LastSteps(s: Story, i: nat)
    requires s.before.deletedAt.None? && 10 <= i < 13
    ensures Enabled(StaleRun(s)[i], StaleAction(s, i))
    ensures StaleRun(s)[i + 1] == Do(StaleRun(s)[i], StaleAction(s, i))
  {
  }

  lemma StaleRunIsPrompt(s: Story, i: nat)
    requires i < 14
    ensures PromptAt(StaleRun(s)[i], s.gap)
  {
  }

  /**
   For every gap some run answers a user that the table last held exactly 3600 + gap - 1 seconds
   before, although every edit drops and refreshes the cached entry.
   */
  lemma StalenessReached(s: Story)
    requires s.before.deletedAt.None? && s.Edit() != s.before
    ensures var ws := StaleRun(s);
      && IsRun(ws) && IsFresh(ws[0]) && Prompt(ws, s.gap)
      && AnswersAt(ws, 12, 2) && ws[13].reqs[2].answer == FoundUser(s.before)
      && RowAt(ws[0], s.id, s.before, 0)
      && forall j :: 0 <= j <= 12 && RowAt(ws[j], s.id, s.before, ws[j].s.now) ==>
        ws[12].s.now - ws[j].s.now == USER_INFO_TTL + s.gap - 1
  {
    var ws := StaleRun(s);
    forall i | 0 <= i < |ws|
      ensures PromptAt(ws[i], s.gap)
    {
      StaleRunIsPrompt(s, i);
    }
    forall i: nat | i + 1 < |ws|
      ensures Follows(ws, i)
    {
      if i < 5 {
        EarlySteps(s, i);
      } else if i < 9 {
        EditSteps(s, i);
      } else if i == 9 {
        OverwriteStep(s, i);
      } else {
        LastSteps(s, i);
      }
    }
  }
}
