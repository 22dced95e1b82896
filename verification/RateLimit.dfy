/**
 The rate limiter, with requests interleaved between INCR and EXPIRE.

 The counter restarts when its key dies, so windows are fixed, not sliding: any 60-second interval
 sees at most 2 * limit - 1 counted requests pass, and for every limit that many do pass in some run.
 */
module RateLimit {
  import opened Wrappers
  import opened CacheService
  import opened Sets

  const GLOBAL_LIMIT: int := 100
  const AUTH_LIMIT: int := 10
  const WINDOW_SECONDS: int := 60

  // ----- keys -----

  function LimitOf(path: string): int {
    if "/auth" <= path then AUTH_LIMIT else GLOBAL_LIMIT
  }

  function RateKey(identifier: string, path: string): string {
    "rate_limit:" + identifier + ":" + path
  }

  predicate HasColonSlash(id: string) {
    exists i :: 0 <= i < |id| - 1 && id[i] == ':' && id[i + 1] == '/'
  }

  /** Paths begin with a slash: identifiers without ":/" never share a counter across clients or paths. */
  lemma RateKeyInjective(id: string, path: string, id': string, path': string)
    requires !HasColonSlash(id) && !HasColonSlash(id') && "/" <= path && "/" <= path'
    requires RateKey(id, path) == RateKey(id', path')
    ensures id == id' && path == path'
  {
    var rest := RateKey(id, path)[|"rate_limit:"|..];
    assert rest == id + ":" + path && rest == id' + ":" + path';
    assert rest[|id|] == ':' && rest[|id| + 1] == '/' && rest[|id'|] == ':' && rest[|id'| + 1] == '/';
    assert |id| == |id'|;
    assert rest[..|id|] == id && rest[..|id|] == id';
    assert rest[|id| + 1..] == path && rest[|id| + 1..] == path';
  }

  /** Another client, or the same on another path, is counted on the same key.  Paths begin with a slash. */
  ghost predicate SharesCounter(id: string, path: string) {
    exists id', path' :: (id', path') != (id, path) && "/" <= path' && RateKey(id', path') == RateKey(id, path)
  }

  lemma RestOfKey(id: string, path: string)
    ensures RateKey(id, path)[|"rate_limit:"|..] == id + ":" + path
  {
  }

  lemma SameLengthSameParts(id: string, path: string, id': string, path': string)
    requires id + ":" + path == id' + ":" + path'
    ensures |id| == |id'| ==> id == id' && path == path'
  {
    var rest := id + ":" + path;
    if |id| == |id'| {
      assert rest[..|id|] == id && rest[..|id|] == id';
      assert rest[|id| + 1..] == path && rest[|id| + 1..] == path';
    }
  }

  /** The colon before a path ends its identifier: it stands before a slash, in the one key and in the other. */
  lemma SharedBySplit(id: string, path: string, id': string, path': string)
    requires "/" <= path && "/" <= path' && RateKey(id, path) == RateKey(id', path') && (id, path) != (id', path')
    ensures HasColonSlash(id) || HasColonSlash(path)
  {
    RestOfKey(id, path);
    RestOfKey(id', path');
    var rest := id + ":" + path;
    var j := |id'|;
    assert rest == id' + ":" + path';
    assert rest[j] == ':' && rest[j + 1] == '/';
    SameLengthSameParts(id, path, id', path');
    if j < |id| {
      assert id[j] == ':' && j + 1 < |id| && id[j + 1] == '/';
    } else {
      assert path[j - |id| - 1] == ':' && path[j - |id|] == '/';
    }
  }

  lemma SplitInIdentifier(id: string, path: string)
    requires HasColonSlash(id)
    ensures SharesCounter(id, path)
  {
    var i :| 0 <= i < |id| - 1 && id[i] == ':' && id[i + 1] == '/';
    var id', path' := id[..i], id[i + 1..] + ":" + path;
    assert id == id' + ":" + id[i + 1..];
    assert RateKey(id', path') == RateKey(id, path);
  }

  lemma SplitInPath(id: string, path: string)
    requires HasColonSlash(path)
    ensures SharesCounter(id, path)
  {
    var i :| 0 <= i < |path| - 1 && path[i] == ':' && path[i + 1] == '/';
    var id', path' := id + ":" + path[..i], path[i + 1..];
    assert path == path[..i] + ":" + path';
    assert RateKey(id', path') == RateKey(id, path);
  }

  /** A counter is shared exactly if the identifier or the path holds a colon before a slash. */
  lemma CounterIsShared(id: string, path: string)
    requires "/" <= path
    ensures SharesCounter(id, path) <==> HasColonSlash(id) || HasColonSlash(path)
  {
    if id', path' :| (id', path') != (id, path) && "/" <= path' && RateKey(id', path') == RateKey(id, path) {
      SharedBySplit(id, path, id', path');
    }
    if HasColonSlash(id) {
      SplitInIdentifier(id, path);
    } else if HasColonSlash(path) {
      SplitInPath(id, path);
    }
  }

  // ----- one request after another -----

  datatype Headers = Headers(limit: int, remaining: int, reset: int)

  datatype Decision = Unchecked | Allowed(headers: Headers) | TooMany(headers: Headers)

  /** The key space after one request has been counted and its window started, and its count. */
  function Counted<J>(keys: KeySpace<J>, now: int, key: string): (KeySpace<J>, int) {
    var counted := Incremented(keys, now, key);
    var n := if counted[key].value.Count? then counted[key].value.n else 0;
    (if n == 1 then Expiring(counted, now, key, WINDOW_SECONDS) else counted, n)
  }

  /** The header gives the seconds left, or a whole window where the key has no deadline. */
  function ResetAfter<J>(keys: KeySpace<J>, now: int, key: string): int {
    var ttl := RemainingTtl(keys, now, key);
    if ttl > 0 then ttl else WINDOW_SECONDS
  }

  lemma LimitIsTenOrHundred(path: string)
    ensures LimitOf(path) == if |path| >= 5 && path[..5] == "/auth" then 10 else 100
  {
    if |path| >= 5 {
      assert "/auth" <= path <==> path[..5] == "/auth";
    }
  }

  /** What INCR answers: one more than a live count, 1 on an absent key, 0 on a key that holds no number. */
  ghost function CountAfter<J>(keys: KeySpace<J>, now: int, key: string): int {
    if key !in keys || (keys[key].deadline.Some? && now >= keys[key].deadline.value) then 1
    else if keys[key].value.Count? then keys[key].value.n + 1
    else 0
  }

  /** The count goes up by one; the first one starts a window of 60 seconds; no other key is touched. */
  lemma CountIsOneMore<J>(keys: KeySpace<J>, now: int, key: string)
    ensures var (after, n) := Counted(keys, now, key);
      && n == CountAfter(keys, now, key)
      && after.Keys == keys.Keys + {key}
      && (forall k <- keys.Keys :: k != key ==> after[k] == keys[k])
      && (n == 1 ==> after[key] == Entry(Count(1), Some(now + 60)))
      && (n > 1 ==> key in keys && after[key] == Entry(Count(n), keys[key].deadline))
      && (n == 0 ==> key in keys && (after == keys || after[key] == Entry(Count(0), keys[key].deadline)))
  {
  }

  class RateLimitMiddleware {
    const cache: CacheService<()>

    constructor (cache: CacheService<()>)
      ensures this.cache == cache
    {
      this.cache := cache;
    }

    /** The n-th request on a live counter passes just when n is within the limit of its path. */
    method Use(now: int, identifier: string, path: string) returns (d: Decision)
      modifies cache`keys
      ensures d.Unchecked? <==> !cache.connected
      ensures !cache.connected ==> cache.keys == old(cache.keys)
      ensures var key := RateKey(identifier, path);
        var (keys, n) := Counted(old(cache.keys), now, key);
        cache.connected ==>
          && cache.keys == keys
          && (d.TooMany? <==> n > LimitOf(path))
          && d.headers.limit == LimitOf(path)
          && d.headers.remaining == (if n > LimitOf(path) then 0 else LimitOf(path) - n)
          && d.headers.reset == ResetAfter(keys, now, key)
      ensures cache.connected ==>
        var key := "rate_limit:" + identifier + ":" + path;
        d.headers.reset ==
          if key in cache.keys && cache.keys[key].deadline.Some? && now < cache.keys[key].deadline.value
          then cache.keys[key].deadline.value - now else 60
      ensures cache.connected ==>
        d.headers.limit == if |path| >= 5 && path[..5] == "/auth" then 10 else 100
      ensures cache.connected ==>
        var n := CountAfter(old(cache.keys), now, "rate_limit:" + identifier + ":" + path);
        d.TooMany? <==> n >= if |path| >= 5 && path[..5] == "/auth" then 11 else 101
    {
      LimitIsTenOrHundred(path);
      CountIsOneMore(cache.keys, now, "rate_limit:" + identifier + ":" + path);
      if !cache.connected {
        return Unchecked;
      }
      var limit := LimitOf(path);
      var key := RateKey(identifier, path);
      var currentCount := cache.Incr(now, key);
      if currentCount == 1 {
        var _ := cache.Expire(now, key, WINDOW_SECONDS);
      }
      var remainingTtl := cache.Ttl(now, key);
      var headers := Headers(
        limit,
        if limit - currentCount > 0 then limit - currentCount else 0,
        if remainingTtl > 0 then remainingTtl else WINDOW_SECONDS);
      return if currentCount > limit then TooMany(headers) else Allowed(headers);
    }
  }

  /** Reset never promises less than is left, nor more than a window. */
  lemma ResetIsHonest<J>(keys: KeySpace<J>, now: int, key: string)
    requires key in keys && keys[key].deadline.Some? ==> keys[key].deadline.value <= now + WINDOW_SECONDS
    ensures var reset := ResetAfter(Counted(keys, now, key).0, now, key);
      0 < reset <= WINDOW_SECONDS && !(Live(Counted(keys, now, key).0, now + reset, key)
        && Counted(keys, now, key).0[key].deadline.Some?)
  {
  }

  // ----- requests interleaved -----

  type RequestId = nat

  datatype Pc =
    | AtIncr(key: string, limit: int)
    | AtExpire(key: string, limit: int, count: int)
    | AtTtl(key: string, limit: int, count: int)
    | Decided(key: string, limit: int, count: int, passed: bool)

  /** A request counted by a successful INCR. */
  datatype Hit = Hit(r: RequestId, at: int, count: int)

  /** `hits` lists, key by key, the INCRs that succeeded, in order. */
  datatype World = World(
    now: int,
    keys: KeySpace<()>,
    reqs: map<RequestId, Pc>,
    hits: map<string, seq<Hit>>)

  const EMPTY_WORLD := World(0, map[], map[], map[])

  /** Incr and Expire may fail: CacheService then answers 0 and false and the request goes on. */
  datatype Action =
    | Tick(seconds: nat)
    | Arrive(r: RequestId, key: string, limit: int)
    | Incr(r: RequestId, ok: bool)
    | Expire(r: RequestId, ok: bool)
    | Decide(r: RequestId)

  predicate Enabled(w: World, a: Action) {
    match a
    case Tick(_) => true
    case Arrive(r, _, _) => r !in w.reqs
    case Incr(r, _) => r in w.reqs && w.reqs[r].AtIncr?
    case Expire(r, _) => r in w.reqs && w.reqs[r].AtExpire?
    case Decide(r) => r in w.reqs && w.reqs[r].AtTtl?
  }

  function HitsOn(w: World, k: string): seq<Hit> {
    if k in w.hits then w.hits[k] else []
  }

  function AfterIncr(key: string, limit: int, count: int): Pc {
    if count == 1 then AtExpire(key, limit, count) else AtTtl(key, limit, count)
  }

  function Do(w: World, a: Action): World
    requires Enabled(w, a)
  {
    match a
    case Tick(seconds) => w.(now := w.now + seconds)
    case Arrive(r, key, limit) => w.(reqs := w.reqs[r := AtIncr(key, limit)])
    case Incr(r, ok) =>
      var AtIncr(key, limit) := w.reqs[r];
      var counted := Incremented(w.keys, w.now, key);
      if ok && counted[key].value.Count? then
        var n := counted[key].value.n;
        World(w.now, counted, w.reqs[r := AfterIncr(key, limit, n)],
              w.hits[key := HitsOn(w, key) + [Hit(r, w.now, n)]])
      else
        w.(reqs := w.reqs[r := AfterIncr(key, limit, 0)])
    case Expire(r, ok) =>
      var AtExpire(key, limit, count) := w.reqs[r];
      w.(keys := if ok then Expiring(w.keys, w.now, key, WINDOW_SECONDS) else w.keys,
         reqs := w.reqs[r := AtTtl(key, limit, count)])
    case Decide(r) =>
      var AtTtl(key, limit, count) := w.reqs[r];
      w.(reqs := w.reqs[r := Decided(key, limit, count, !(count > limit))])
  }

  ghost predicate IsRun(ws: seq<World>) {
    && ws != []
    && forall i :: 0 <= i < |ws| - 1 ==> Follows(ws, i)
  }

  ghost predicate Follows(ws: seq<World>, i: nat)
    requires i + 1 < |ws|
  {
    exists a :: Enabled(ws[i], a) && ws[i + 1] == Do(ws[i], a)
  }

  // ----- what every interleaving keeps -----

  /** Counts go up by one until they start over at 1, and a new start is a whole window after any earlier one. */
  ghost predicate Counting(h: seq<Hit>) {
    && (forall i :: 0 <= i < |h| ==> h[i].count >= 1)
    && (|h| > 0 ==> h[0].count == 1)
    && (forall i :: 0 < i < |h| ==> h[i].count == 1 || h[i].count == h[i - 1].count + 1)
    && (forall i, j :: 0 <= i < j < |h| ==> h[i].at <= h[j].at)
    && (forall i, j :: 0 <= i < j < |h| && h[i].count == 1 && h[j].count == 1 ==> h[i].at + WINDOW_SECONDS <= h[j].at)
  }

  /** Each counted request carries its count to the end. */
  ghost predicate Carried(w: World, k: string) {
    forall i :: 0 <= i < |HitsOn(w, k)| ==>
      var hit := HitsOn(w, k)[i];
      && hit.r in w.reqs
      && !w.reqs[hit.r].AtIncr?
      && w.reqs[hit.r].key == k
      && w.reqs[hit.r].count == hit.count
  }

  ghost predicate KeyInv(w: World, k: string) {
    var h := HitsOn(w, k);
    && Counting(h)
    && (forall i :: 0 <= i < |h| ==> h[i].at <= w.now)
    && (k in w.keys <==> h != [])
    && (h != [] ==>
          && w.keys[k].value == Count(h[|h| - 1].count)
          && (w.keys[k].deadline.Some? ==>
                forall i :: 0 <= i < |h| && h[i].count == 1 ==> h[i].at + WINDOW_SECONDS <= w.keys[k].deadline.value))
  }

  ghost predicate WorldInv(w: World) {
    && (forall k :: KeyInv(w, k) && Carried(w, k))
    && (forall r <- w.reqs :: w.reqs[r].Decided? ==> (w.reqs[r].passed <==> w.reqs[r].count <= w.reqs[r].limit))
  }

  lemma CountingAppend(h: seq<Hit>, hit: Hit)
    requires Counting(h) && forall i :: 0 <= i < |h| ==> h[i].at <= hit.at
    requires hit.count == 1 || (h != [] && hit.count == h[|h| - 1].count + 1)
    requires hit.count == 1 ==> forall i :: 0 <= i < |h| && h[i].count == 1 ==> h[i].at + WINDOW_SECONDS <= hit.at
    ensures Counting(h + [hit])
  {
    var h' := h + [hit];
    assert forall i :: 0 <= i < |h| ==> h'[i] == h[i];
  }

  lemma CountedKeeps(w: World, r: RequestId, k: string)
    requires r in w.reqs && w.reqs[r].AtIncr? && w.reqs[r].key == k && KeyInv(w, k)
    ensures KeyInv(Do(w, Incr(r, true)), k)
  {
    var w' := Do(w, Incr(r, true));
    var h := HitsOn(w, k);
    var hit := Hit(r, w.now, if Live(w.keys, w.now, k) then h[|h| - 1].count + 1 else 1);
    assert HitsOn(w', k) == h + [hit];
    CountingAppend(h, hit);
    assert forall i :: 0 <= i < |h| ==> HitsOn(w', k)[i] == h[i];
  }

  lemma IncrKeepsKey(w: World, r: RequestId, ok: bool, k: string)
    requires Enabled(w, Incr(r, ok)) && KeyInv(w, k)
    ensures KeyInv(Do(w, Incr(r, ok)), k)
  {
    if ok && w.reqs[r].key == k {
      CountedKeeps(w, r, k);
    } else {
      assert HitsOn(Do(w, Incr(r, ok)), k) == HitsOn(w, k);
    }
  }

  lemma ExpireKeepsKey(w: World, r: RequestId, ok: bool, k: string)
    requires Enabled(w, Expire(r, ok)) && KeyInv(w, k)
    ensures KeyInv(Do(w, Expire(r, ok)), k)
  {
    assert HitsOn(Do(w, Expire(r, ok)), k) == HitsOn(w, k);
  }

  lemma DoKeepsCarried(w: World, a: Action, k: string)
    requires Enabled(w, a) && Carried(w, k)
    ensures Carried(Do(w, a), k)
  {
    var h, h' := HitsOn(w, k), HitsOn(Do(w, a), k);
    if a.Incr? && h' != h {
      assert h' == h + [h'[|h|]];
    }
    forall i | 0 <= i < |h|
      ensures h'[i] == h[i] && h[i].r in w.reqs && !w.reqs[h[i].r].AtIncr?
    {
    }
  }

  lemma DoKeeps(w: World, a: Action)
    requires WorldInv(w) && Enabled(w, a)
    ensures WorldInv(Do(w, a))
  {
    forall k: string
      ensures KeyInv(Do(w, a), k) && Carried(Do(w, a), k)
    {
      assert KeyInv(w, k) && Carried(w, k);
      DoKeepsCarried(w, a, k);
      match a {
        case Incr(r, ok) => IncrKeepsKey(w, r, ok, k);
        case Expire(r, ok) => ExpireKeepsKey(w, r, ok, k);
        case _ => assert HitsOn(Do(w, a), k) == HitsOn(w, k);
      }
    }
  }

  lemma StepAt(ws: seq<World>, i: nat) returns (a: Action)
    requires IsRun(ws) && i + 1 < |ws|
    ensures Enabled(ws[i], a) && ws[i + 1] == Do(ws[i], a)
  {
    assert Follows(ws, i);
    a :| Enabled(ws[i], a) && ws[i + 1] == Do(ws[i], a);
  }

  lemma {:induction false} RunKeeps(ws: seq<World>, n: nat)
    requires IsRun(ws) && ws[0] == EMPTY_WORLD && n < |ws|
    ensures WorldInv(ws[n])
  {
    if n > 0 {
      RunKeeps(ws, n - 1);
      var a := StepAt(ws, n - 1);
      DoKeeps(ws[n - 1], a);
    }
  }

  // ----- the bounds -----

  /** Within one key lifetime, which starts at `b`, the j-th request counted carries count j. */
  lemma {:induction false} LifetimeCounts(h: seq<Hit>, b: nat, j: nat)
    requires Counting(h) && b + j < |h| && h[b].count == 1
    requires forall i :: b < i <= b + j ==> h[i].count != 1
    ensures h[b + j].count == j + 1
  {
    if j > 0 {
      LifetimeCounts(h, b, j - 1);
    }
  }

  /** Of the requests counted in one key lifetime exactly the first `limit` pass. */
  lemma FirstOnesPass(ws: seq<World>, n: nat, k: string, b: nat, j: nat)
    requires IsRun(ws) && ws[0] == EMPTY_WORLD && n < |ws|
    requires var h := HitsOn(ws[n], k);
      b + j < |h| && h[b].count == 1 && forall i :: b < i <= b + j ==> h[i].count != 1
    ensures var r := HitsOn(ws[n], k)[b + j].r;
      r in ws[n].reqs && (ws[n].reqs[r].Decided? ==> (ws[n].reqs[r].passed <==> j < ws[n].reqs[r].limit))
  {
    RunKeeps(ws, n);
    assert KeyInv(ws[n], k) && Carried(ws[n], k);
    LifetimeCounts(HitsOn(ws[n], k), b, j);
  }

  /** Positions whose counts are pairwise different and lie in [lo, hi). */
  ghost predicate Distinct(h: seq<Hit>, s: set<nat>, lo: int, hi: int) {
    && (forall i <- s :: i < |h| && lo <= h[i].count < hi)
    && (forall i <- s, j <- s :: h[i].count == h[j].count ==> i == j)
  }

  lemma {:induction false} DistinctSize(h: seq<Hit>, s: set<nat>, lo: int, hi: int)
    requires lo <= hi && Distinct(h, s, lo, hi)
    ensures |s| <= hi - lo
    decreases hi - lo
  {
    if lo == hi {
      assert s == {};
    } else if i :| i in s && h[i].count == hi - 1 {
      DistinctSize(h, s - {i}, lo, hi - 1);
    } else {
      DistinctSize(h, s, lo, hi - 1);
    }
  }

  /** Between two positions with no start after the first, counts grow with the position. */
  lemma {:induction false} CountsGrow(h: seq<Hit>, i: nat, j: nat)
    requires Counting(h) && i <= j < |h| && forall m :: i < m <= j ==> h[m].count != 1
    ensures h[j].count == h[i].count + (j - i)
  {
    if i < j {
      CountsGrow(h, i, j - 1);
    }
  }

  /** The counted requests with counts up to `limit` whose INCR fell in [from, from + 60). */
  ghost function InWindow(h: seq<Hit>, from: int, limit: int): set<nat> {
    set i: nat | i < |h| && from <= h[i].at < from + WINDOW_SECONDS && h[i].count <= limit
  }

  lemma WindowWithStart(h: seq<Hit>, from: int, limit: int, b: nat)
    requires Counting(h) && limit >= 1
    requires b < |h| && from <= h[b].at < from + WINDOW_SECONDS && h[b].count == 1
    ensures |InWindow(h, from, limit)| <= 2 * limit - 1
  {
    var s := InWindow(h, from, limit);
    var early, late := set i | i in s && i < b, set i | i in s && b <= i;
    assert forall m: nat :: m < |h| && m != b && from <= h[m].at < from + WINDOW_SECONDS ==> h[m].count != 1;
    NoStartsDistinct(h, early, from, limit, b);
    LateDistinct(h, late, from, limit, b);
    DistinctSize(h, early, 2, limit + 1);
    DistinctSize(h, late, 1, limit + 1);
    assert s == early + late;
  }

  lemma WindowSize(h: seq<Hit>, from: int, limit: int)
    requires Counting(h) && limit >= 1
    ensures |InWindow(h, from, limit)| <= 2 * limit - 1
  {
    var s := InWindow(h, from, limit);
    if b: nat :| b < |h| && from <= h[b].at < from + WINDOW_SECONDS && h[b].count == 1 {
      WindowWithStart(h, from, limit, b);
    } else {
      NoStartsDistinct(h, s, from, limit, |h|);
      DistinctSize(h, s, 2, limit + 1);
    }
  }

  lemma NoStartsDistinct(h: seq<Hit>, s: set<nat>, from: int, limit: int, end: nat)
    requires Counting(h) && end <= |h| && s <= InWindow(h, from, limit) && forall i <- s :: i < end
    requires forall m: nat :: m < end && from <= h[m].at < from + WINDOW_SECONDS ==> h[m].count != 1
    ensures Distinct(h, s, 2, limit + 1)
  {
    forall i <- s, j <- s | h[i].count == h[j].count
      ensures i == j
    {
      if i <= j {
        CountsGrow(h, i, j);
      } else {
        CountsGrow(h, j, i);
      }
    }
  }

  lemma LateDistinct(h: seq<Hit>, s: set<nat>, from: int, limit: int, b: nat)
    requires Counting(h) && b < |h| && s <= InWindow(h, from, limit) && forall i <- s :: b <= i
    requires from <= h[b].at
    requires forall m: nat :: b < m < |h| && from <= h[m].at < from + WINDOW_SECONDS ==> h[m].count != 1
    ensures Distinct(h, s, 1, limit + 1)
  {
    forall i <- s, j <- s | h[i].count == h[j].count
      ensures i == j
    {
      if i <= j {
        CountsGrow(h, i, j);
      } else {
        CountsGrow(h, j, i);
      }
    }
  }

  /** The counted requests on k that have passed and whose INCR fell in [from, from + 60). */
  ghost function PassedIn(w: World, k: string, from: int): set<nat> {
    set i: nat | i < |HitsOn(w, k)|
                 && from <= HitsOn(w, k)[i].at < from + WINDOW_SECONDS
                 && HitsOn(w, k)[i].r in w.reqs
                 && w.reqs[HitsOn(w, k)[i].r].Decided?
                 && w.reqs[HitsOn(w, k)[i].r].passed
  }

  /** In every run, any 60 seconds see at most 2 * limit - 1 counted requests of one key pass. */
  lemma PassesPerWindow(ws: seq<World>, n: nat, k: string, from: int, limit: int)
    requires IsRun(ws) && ws[0] == EMPTY_WORLD && n < |ws| && limit >= 1
    requires forall r <- ws[n].reqs :: ws[n].reqs[r].key == k ==> ws[n].reqs[r].limit <= limit
    ensures |PassedIn(ws[n], k, from)| <= 2 * limit - 1
  {
    RunKeeps(ws, n);
    assert KeyInv(ws[n], k) && Carried(ws[n], k);
    WindowSize(HitsOn(ws[n], k), from, limit);
    SubsetSize(PassedIn(ws[n], k, from), InWindow(HitsOn(ws[n], k), from, limit));
  }

  // ----- Use is one of the interleavings -----

  ghost predicate Reaches(w: World, w': World) {
    exists ws :: IsRun(ws) && ws[0] == w && ws[|ws| - 1] == w'
  }

  lemma ReachNow(w: World)
    ensures Reaches(w, w)
  {
    assert IsRun([w]);
  }

  lemma ReachStep(w0: World, w: World, a: Action)
    requires Reaches(w0, w) && Enabled(w, a)
    ensures Reaches(w0, Do(w, a))
  {
    var ws :| IsRun(ws) && ws[0] == w0 && ws[|ws| - 1] == w;
    var ws' := ws + [Do(w, a)];
    forall i | 0 <= i < |ws'| - 1
      ensures Follows(ws', i)
    {
      if i + 1 < |ws| {
        var b := StepAt(ws, i);
        assert ws'[i + 1] == Do(ws'[i], b);
      } else {
        assert ws'[i + 1] == Do(ws'[i], a);
      }
    }
    assert IsRun(ws');
  }

  function WithHit(hits: map<string, seq<Hit>>, w: World, key: string, r: RequestId, n: int): map<string, seq<Hit>> {
    if n == 0 then hits else hits[key := HitsOn(w, key) + [Hit(r, w.now, n)]]
  }

  /** A request left alone does to the key space, and decides, what `Use` does and decides. */
  lemma UseIsARun(w: World, r: RequestId, key: string, limit: int)
    requires r !in w.reqs && (key in w.keys && w.keys[key].value.Count? ==> w.keys[key].value.n >= 0)
    ensures var (keys, n) := Counted(w.keys, w.now, key);
      Reaches(w, World(w.now, keys, w.reqs[r := Decided(key, limit, n, !(n > limit))], WithHit(w.hits, w, key, r, n)))
  {
    ReachNow(w);
    var w1 := Do(w, Arrive(r, key, limit));
    ReachStep(w, w, Arrive(r, key, limit));
    var w2 := Do(w1, Incr(r, true));
    ReachStep(w, w1, Incr(r, true));
    var (keys, n) := Counted(w.keys, w.now, key);
    assert w2.reqs == w.reqs[r := AfterIncr(key, limit, n)];
    var w3 := w2;
    if n == 1 {
      w3 := Do(w2, Expire(r, true));
      ReachStep(w, w2, Expire(r, true));
    }
    assert w3.keys == keys && w3.reqs == w.reqs[r := AtTtl(key, limit, n)];
    ReachStep(w, w3, Decide(r));
    assert Do(w3, Decide(r)).reqs == w.reqs[r := Decided(key, limit, n, !(n > limit))];
  }

  // ----- the bound is reached -----

  /** Requests 0, 1, ... have come on key k only, have been counted as `h` says, and are decided. */
  ghost predicate Tallied(w: World, k: string, limit: int, h: seq<Hit>) {
    && HitsOn(w, k) == h
    && (k in w.keys <==> h != [])
    && (h != [] ==> w.keys[k].value == Count(h[|h| - 1].count))
    && (forall r <- w.reqs :: r < |h|)
    && (forall i {:trigger h[i]} :: 0 <= i < |h| ==>
          h[i].r == i && i in w.reqs && w.reqs[i] == Decided(k, limit, h[i].count, h[i].count <= limit))
  }

  /** A request that comes, is counted n, sets the expiry when n is 1, and is decided. */
  function Served(w: World, k: string, limit: int, h: seq<Hit>, n: int): World {
    var r := |h|;
    World(
      w.now,
      w.keys[k := Entry(Count(n), if n == 1 || k !in w.keys then Some(w.now + WINDOW_SECONDS) else w.keys[k].deadline)],
      w.reqs[r := Decided(k, limit, n, n <= limit)],
      w.hits[k := h + [Hit(r, w.now, n)]])
  }

  lemma ServedTallied(w: World, k: string, limit: int, h: seq<Hit>, n: int)
    requires Tallied(w, k, limit, h)
    ensures Tallied(Served(w, k, limit, h, n), k, limit, h + [Hit(|h|, w.now, n)])
  {
    var h' := h + [Hit(|h|, w.now, n)];
    assert forall i :: 0 <= i < |h| ==> h'[i] == h[i];
  }

  function CountedWorld(w: World, k: string, limit: int, h: seq<Hit>, e: Entry<()>): World
    requires e.value.Count?
  {
    var r, n := |h|, e.value.n;
    World(w.now, w.keys[k := e], w.reqs[r := AfterIncr(k, limit, n)], w.hits[k := h + [Hit(r, w.now, n)]])
  }

  lemma ReachCounted(w0: World, w: World, k: string, limit: int, h: seq<Hit>, e: Entry<()>)
    requires Reaches(w0, w) && Tallied(w, k, limit, h)
    requires e == if Live(w.keys, w.now, k) then Entry(Count(h[|h| - 1].count + 1), w.keys[k].deadline)
                  else Entry(Count(1), None)
    ensures Reaches(w0, CountedWorld(w, k, limit, h, e))
  {
    var r := |h|;
    var w1 := Do(w, Arrive(r, k, limit));
    ReachStep(w0, w, Arrive(r, k, limit));
    ReachStep(w0, w1, Incr(r, true));
    assert Do(w1, Incr(r, true)).reqs == CountedWorld(w, k, limit, h, e).reqs;
  }

  lemma FirstRequest(w0: World, w: World, k: string, limit: int, h: seq<Hit>)
    requires Reaches(w0, w) && Tallied(w, k, limit, h) && !Live(w.keys, w.now, k)
    ensures Reaches(w0, Served(w, k, limit, h, 1))
  {
    var r := |h|;
    ReachCounted(w0, w, k, limit, h, Entry(Count(1), None));
    var w1 := CountedWorld(w, k, limit, h, Entry(Count(1), None));
    var w2 := Do(w1, Expire(r, true));
    ReachStep(w0, w1, Expire(r, true));
    ReachStep(w0, w2, Decide(r));
    assert Do(w2, Decide(r)).reqs == Served(w, k, limit, h, 1).reqs;
    assert Do(w2, Decide(r)).keys == Served(w, k, limit, h, 1).keys;
  }

  lemma NextRequest(w0: World, w: World, k: string, limit: int, h: seq<Hit>)
    requires Reaches(w0, w) && Tallied(w, k, limit, h)
    requires Live(w.keys, w.now, k) && h[|h| - 1].count >= 1
    ensures Reaches(w0, Served(w, k, limit, h, h[|h| - 1].count + 1))
  {
    var r, n := |h|, h[|h| - 1].count + 1;
    var e := Entry(Count(n), w.keys[k].deadline);
    ReachCounted(w0, w, k, limit, h, e);
    ReachStep(w0, CountedWorld(w, k, limit, h, e), Decide(r));
    assert Do(CountedWorld(w, k, limit, h, e), Decide(r)).reqs == Served(w, k, limit, h, n).reqs;
  }

  /** m requests at the same instant on a live counter. */
  lemma {:induction false} Burst(w0: World, w: World, k: string, limit: int, h: seq<Hit>, m: nat)
      returns (w': World, h': seq<Hit>)
    requires Reaches(w0, w) && Tallied(w, k, limit, h)
    requires h != [] && h[|h| - 1].count >= 1 && Live(w.keys, w.now, k)
    ensures Reaches(w0, w') && Tallied(w', k, limit, h') && w'.now == w.now
    ensures |h'| == |h| + m && h <= h'
    ensures w'.keys[k].deadline == w.keys[k].deadline
    ensures forall i :: |h| <= i < |h'| ==> h'[i].at == w.now && h'[i].count == h[|h| - 1].count + (i - |h|) + 1
  {
    w', h' := w, h;
    if m > 0 {
      w', h' := Burst(w0, w, k, limit, h, m - 1);
      var n := h'[|h'| - 1].count + 1;
      NextRequest(w0, w', k, limit, h');
      ServedTallied(w', k, limit, h', n);
      w', h' := Served(w', k, limit, h', n), h' + [Hit(|h'|, w'.now, n)];
    }
  }

  function From1To(n: nat): (s: set<nat>)
    ensures |s| == n
    ensures forall i: nat :: i in s <==> 1 <= i <= n
  {
    if n == 0 then {} else From1To(n - 1) + {n}
  }

  /** A window opened by a request at its start and filled up in its last second. */
  lemma FillWindow(k: string, limit: nat) returns (w: World, h: seq<Hit>)
    requires limit >= 1
    ensures Reaches(EMPTY_WORLD, w) && Tallied(w, k, limit, h) && |h| == limit && h[0].at == 0
    ensures w.now == WINDOW_SECONDS && !Live(w.keys, w.now, k)
    ensures forall i :: 0 <= i < |h| ==> h[i].count <= limit && (i >= 1 ==> h[i].at == WINDOW_SECONDS - 1)
  {
    var w0 := EMPTY_WORLD;
    ReachNow(w0);
    FirstRequest(w0, w0, k, limit, []);
    ServedTallied(w0, k, limit, [], 1);
    var w1, h1 := Served(w0, k, limit, [], 1), [] + [Hit(0, 0, 1)];
    ReachStep(w0, w1, Tick(WINDOW_SECONDS - 1));
    w, h := Burst(w0, Do(w1, Tick(WINDOW_SECONDS - 1)), k, limit, h1, limit - 1);
    assert h[0] == h1[0];
    ReachStep(w0, w, Tick(1));
    w := Do(w, Tick(1));
  }

  /** For every limit some run lets 2 * limit - 1 requests pass within 60 seconds. */
  lemma BoundReached(k: string, limit: nat) returns (w: World)
    requires limit >= 1
    ensures Reaches(EMPTY_WORLD, w)
    ensures forall r <- w.reqs :: w.reqs[r].key == k && w.reqs[r].limit == limit
    ensures |PassedIn(w, k, 1)| == 2 * limit - 1
  {
    var w1, h1 := FillWindow(k, limit);
    FirstRequest(EMPTY_WORLD, w1, k, limit, h1);
    ServedTallied(w1, k, limit, h1, 1);
    var h2 := h1 + [Hit(|h1|, w1.now, 1)];
    var h;
    w, h := Burst(EMPTY_WORLD, Served(w1, k, limit, h1, 1), k, limit, h2, limit - 1);
    forall i | 0 <= i < |h|
      ensures h[i].count <= limit
      ensures h[i].at == if i == 0 then 0 else if i < limit then WINDOW_SECONDS - 1 else WINDOW_SECONDS
    {
      assert i < |h2| ==> h[i] == h2[i];
      assert i < |h1| ==> h2[i] == h1[i];
    }
    forall r <- w.reqs
      ensures w.reqs[r].key == k && w.reqs[r].limit == limit
    {
      assert h[r].r == r;
    }
    AllButFirstPass(w, k, limit, h);
  }

  lemma AllButFirstPass(w: World, k: string, limit: nat, h: seq<Hit>)
    requires limit >= 1 && Tallied(w, k, limit, h) && |h| == 2 * limit && h[0].at == 0
    requires forall i :: 0 <= i < |h| ==> h[i].count <= limit
    requires forall i :: 1 <= i < |h| ==> 1 <= h[i].at <= WINDOW_SECONDS
    ensures |PassedIn(w, k, 1)| == 2 * limit - 1
  {
    assert PassedIn(w, k, 1) == From1To(2 * limit - 1);
  }

  // ----- a window that was never given an end -----

  /** The counter of k stands at c or more, has no deadline, and no request is about to set one. */
  ghost predicate Stuck(w: World, k: string, c: int) {
    && k in w.keys && w.keys[k].value.Count? && w.keys[k].value.n >= c && w.keys[k].deadline.None?
    && forall r <- w.reqs :: w.reqs[r].AtExpire? ==> w.reqs[r].key != k
  }

  /** EXPIRE comes once, with the first count.  The counter is stuck exactly if that one is lost. */
  lemma LostExpireSticks(w: World, r: RequestId, k: string, ok: bool)
    requires r in w.reqs && w.reqs[r].AtExpire? && w.reqs[r].key == k
    requires k in w.keys && w.keys[k].value.Count? && w.keys[k].value.n >= 1 && w.keys[k].deadline.None?
    requires forall r' <- w.reqs :: r' != r && w.reqs[r'].AtExpire? ==> w.reqs[r'].key != k
    ensures Stuck(Do(w, Expire(r, ok)), k, 1) <==> !ok
  {
    assert Live(w.keys, w.now, k);
  }

  lemma {:induction false} StuckForever(ws: seq<World>, n: nat, k: string, c: int)
    requires IsRun(ws) && n < |ws| && c >= 1 && Stuck(ws[0], k, c)
    ensures Stuck(ws[n], k, c)
  {
    if n > 0 {
      StuckForever(ws, n - 1, k, c);
      var a := StepAt(ws, n - 1);
    }
  }

  /** Once such a counter has reached the limit, no request that it counts ever passes again. */
  lemma StuckRefuses(ws: seq<World>, n: nat, k: string, limit: int, r: RequestId)
    requires IsRun(ws) && n < |ws| && limit >= 1 && Stuck(ws[0], k, limit)
    requires r in ws[n].reqs && ws[n].reqs[r] == AtIncr(k, limit)
    ensures var w := Do(ws[n], Incr(r, true)); w.reqs[r].AtTtl? && !Do(w, Decide(r)).reqs[r].passed
  {
    StuckForever(ws, n, k, limit);
  }
}
