/**
 CacheService over a Redis key space: a key with a deadline is present until the clock reaches it.
 */
module CacheService {
  import opened Wrappers

  /** What a key holds: an integer that INCR can raise, or some JSON document. */
  datatype Value<J> = Count(n: int) | Json(doc: J)

  datatype Entry<J> = Entry(value: Value<J>, deadline: Option<int>)

  type KeySpace<J> = map<string, Entry<J>>

  predicate Live<J>(m: KeySpace<J>, now: int, k: string) {
    k in m && (m[k].deadline.Some? ==> now < m[k].deadline.value)
  }

  function Lookup<J>(m: KeySpace<J>, now: int, k: string): Option<Value<J>> {
    if Live(m, now, k) then Some(m[k].value) else None
  }

  function Put<J>(m: KeySpace<J>, now: int, k: string, v: Value<J>, ttl: Option<int>): KeySpace<J> {
    m[k := Entry(v, if ttl.Some? && ttl.value > 0 then Some(now + ttl.value) else None)]
  }

  /** A present counter keeps its deadline; an absent one starts at 1 with none.  JSON cannot be counted. */
  function Incremented<J>(m: KeySpace<J>, now: int, k: string): KeySpace<J> {
    if !Live(m, now, k) then m[k := Entry(Count(1), None)]
    else if m[k].value.Count? then m[k := m[k].(value := Count(m[k].value.n + 1))]
    else m
  }

  function Expiring<J>(m: KeySpace<J>, now: int, k: string, ttl: int): KeySpace<J> {
    if Live(m, now, k) then m[k := m[k].(deadline := Some(now + ttl))] else m
  }

  function RemainingTtl<J>(m: KeySpace<J>, now: int, k: string): int {
    if !Live(m, now, k) then -2
    else if m[k].deadline.None? then -1
    else m[k].deadline.value - now
  }

  // ----- what a caller can count on, whatever else happens to the key space -----

  datatype Op<J> =
    | SetOp(k: string, v: Value<J>, ttl: Option<int>)
    | DelOp(ks: set<string>)
    | ExpireOp(k: string, seconds: int)
    | IncrOp(k: string)
    | WaitOp(delay: nat)

  datatype Store<J> = Store(keys: KeySpace<J>, now: int)

  function Step<J>(s: Store<J>, op: Op<J>): Store<J> {
    match op
    case SetOp(k, v, ttl) => s.(keys := Put(s.keys, s.now, k, v, ttl))
    case DelOp(ks) => s.(keys := s.keys - ks)
    case ExpireOp(k, seconds) => s.(keys := Expiring(s.keys, s.now, k, seconds))
    case IncrOp(k) => s.(keys := Incremented(s.keys, s.now, k))
    case WaitOp(delay) => s.(now := s.now + delay)
  }

  /** The operations in order. */
  function Steps<J>(s: Store<J>, ops: seq<Op<J>>): Store<J>
    decreases |ops|
  {
    if ops == [] then s else Steps(Step(s, ops[0]), ops[1..])
  }

  predicate Touches<J>(op: Op<J>, k: string) {
    match op
    case SetOp(k', _, _) => k' == k
    case DelOp(ks) => k in ks
    case ExpireOp(k', _) => k' == k
    case IncrOp(k') => k' == k
    case WaitOp(_) => false
  }

  function Read<J>(s: Store<J>, k: string): Option<Value<J>> {
    Lookup(s.keys, s.now, k)
  }

  function TtlOf<J>(s: Store<J>, k: string): int {
    RemainingTtl(s.keys, s.now, k)
  }

  /** What happens to other keys does not show. */
  lemma {:induction false} UntouchedStays<J>(s: Store<J>, ops: seq<Op<J>>, k: string)
    requires forall op <- ops :: !Touches(op, k)
    ensures var s' := Steps(s, ops);
      s.now <= s'.now && (k in s'.keys <==> k in s.keys) && (k in s.keys ==> s'.keys[k] == s.keys[k])
    decreases |ops|
  {
    if ops != [] {
      assert !Touches(ops[0], k);
      UntouchedStays(Step(s, ops[0]), ops[1..], k);
    }
  }

  /** A value set for n seconds is answered for exactly n seconds, and TTL counts them down. */
  lemma SetLasts<J>(s: Store<J>, k: string, v: Value<J>, n: int, ops: seq<Op<J>>)
    requires n > 0 && forall op <- ops :: !Touches(op, k)
    ensures var s' := Steps(Step(s, SetOp(k, v, Some(n))), ops);
      && Read(s', k) == (if s'.now < s.now + n then Some(v) else None)
      && TtlOf(s', k) == (if s'.now < s.now + n then s.now + n - s'.now else -2)
  {
    UntouchedStays(Step(s, SetOp(k, v, Some(n))), ops, k);
  }

  /** A value set without a positive lifetime stays. */
  lemma SetForGood<J>(s: Store<J>, k: string, v: Value<J>, ttl: Option<int>, ops: seq<Op<J>>)
    requires (ttl.Some? ==> ttl.value <= 0) && forall op <- ops :: !Touches(op, k)
    ensures var s' := Steps(Step(s, SetOp(k, v, ttl)), ops); Read(s', k) == Some(v) && TtlOf(s', k) == -1
  {
    UntouchedStays(Step(s, SetOp(k, v, ttl)), ops, k);
  }

  /** A deleted key stays away until something touches it. */
  lemma DeletedStaysAway<J>(s: Store<J>, ks: set<string>, k: string, ops: seq<Op<J>>)
    requires k in ks && forall op <- ops :: !Touches(op, k)
    ensures var s' := Steps(Step(s, DelOp(ks)), ops); Read(s', k) == None && TtlOf(s', k) == -2
  {
    UntouchedStays(Step(s, DelOp(ks)), ops, k);
  }

  /** EXPIRE gives a live key so many seconds from now, whatever it had before; it revives nothing. */
  lemma ExpireResets<J>(s: Store<J>, k: string, n: int, ops: seq<Op<J>>)
    requires forall op <- ops :: !Touches(op, k)
    ensures var s' := Steps(Step(s, ExpireOp(k, n)), ops);
      if Read(s, k).Some? then
        && Read(s', k) == (if s'.now < s.now + n then Read(s, k) else None)
        && TtlOf(s', k) == (if s'.now < s.now + n then s.now + n - s'.now else -2)
      else Read(s', k) == None && TtlOf(s', k) == -2
  {
    UntouchedStays(Step(s, ExpireOp(k, n)), ops, k);
  }

  ghost predicate OnlyCounts<J>(ops: seq<Op<J>>, k: string) {
    forall op <- ops :: Touches(op, k) ==> op.IncrOp?
  }

  function Increments<J>(ops: seq<Op<J>>, k: string): nat
    decreases |ops|
  {
    if ops == [] then 0 else (if ops[0].IncrOp? && ops[0].k == k then 1 else 0) + Increments(ops[1..], k)
  }

  lemma {:induction false} ClockAdvances<J>(s: Store<J>, ops: seq<Op<J>>)
    ensures s.now <= Steps(s, ops).now
    decreases |ops|
  {
    if ops != [] {
      ClockAdvances(Step(s, ops[0]), ops[1..]);
    }
  }

  /** While a counter lives it counts every INCR, and none of them moves its deadline. */
  lemma {:induction false} CountingKeepsDeadline<J>(s: Store<J>, ops: seq<Op<J>>, k: string)
    requires k in s.keys && s.keys[k].value.Count? && OnlyCounts(ops, k)
    requires s.keys[k].deadline.Some? ==> Steps(s, ops).now < s.keys[k].deadline.value
    ensures var s' := Steps(s, ops);
      k in s'.keys && s'.keys[k] == Entry(Count(s.keys[k].value.n + Increments(ops, k)), s.keys[k].deadline)
    decreases |ops|
  {
    if ops != [] {
      assert Touches(ops[0], k) ==> ops[0].IncrOp?;
      ClockAdvances(Step(s, ops[0]), ops[1..]);
      ClockAdvances(s, ops);
      CountingKeepsDeadline(Step(s, ops[0]), ops[1..], k);
    }
  }

  /** A counter that nothing but INCR ever touches counts them all and never expires. */
  lemma {:induction false} CounterFromNothing<J>(s: Store<J>, ops: seq<Op<J>>, k: string)
    requires !Live(s.keys, s.now, k) && OnlyCounts(ops, k)
    ensures var s' := Steps(s, ops);
      && Read(s', k) == (if Increments(ops, k) == 0 then None else Some(Count(Increments(ops, k))))
      && TtlOf(s', k) == (if Increments(ops, k) == 0 then -2 else -1)
    decreases |ops|
  {
    if ops != [] {
      assert Touches(ops[0], k) ==> ops[0].IncrOp?;
      if ops[0].IncrOp? && ops[0].k == k {
        CountingKeepsDeadline(Step(s, ops[0]), ops[1..], k);
      } else {
        CounterFromNothing(Step(s, ops[0]), ops[1..], k);
      }
    }
  }

  class CacheService<J> {
    var connected: bool
    var keys: KeySpace<J>
    var hits: nat
    var misses: nat

    constructor (connected: bool)
      ensures this.connected == connected && keys == map[] && hits == misses == 0
    {
      this.connected := connected;
      keys := map[];
      hits, misses := 0, 0;
    }

    method Get(now: int, k: string) returns (v: Option<Value<J>>)
      modifies `hits, `misses
      ensures v == if connected then Lookup(keys, now, k) else None
      ensures hits + misses == old(hits + misses) + 1 && (hits == old(hits) + 1 <==> v.Some?)
    {
      if !connected {
        misses := misses + 1;
        return None;
      }
      v := Lookup(keys, now, k);
      if v.None? {
        misses := misses + 1;
      } else {
        hits := hits + 1;
      }
    }

    method Set(now: int, k: string, v: Value<J>, ttl: Option<int>) returns (ok: bool)
      modifies `keys
      ensures ok == connected
      ensures keys == if connected then Put(old(keys), now, k, v, ttl) else old(keys)
    {
      if !connected {
        return false;
      }
      keys := Put(keys, now, k, v, ttl);
      return true;
    }

    /** KEYS with a pattern that is a prefix and '*', in no particular order. */
    method KeysWithPrefix(now: int, prefix: string) returns (found: seq<string>)
      ensures forall k :: k in found <==> connected && Live(keys, now, k) && prefix <= k
    {
      found := [];
      if !connected {
        return;
      }
      var left := set k | k in keys && Live(keys, now, k) && prefix <= k;
      while left != {}
        invariant forall k :: k in found || k in left <==> Live(keys, now, k) && prefix <= k
      {
        var k :| k in left;
        found := found + [k];
        left := left - {k};
      }
    }

    /** The number of keys really removed: present ones, each counted once. */
    method Del(now: int, ks: seq<string>) returns (removed: nat)
      modifies `keys
      ensures keys == if connected then old(keys) - (set k | k in ks) else old(keys)
      ensures removed == if connected then |set k | k in ks && Live(old(keys), now, k)| else 0
    {
      if !connected || |ks| == 0 {
        assert ks == [] ==> (set k | k in ks) == {};
        return 0;
      }
      removed := |set k | k in ks && Live(keys, now, k)|;
      keys := keys - (set k | k in ks);
    }

    method Exists(now: int, k: string) returns (present: bool)
      ensures present == (connected && Live(keys, now, k))
    {
      present := connected && Live(keys, now, k);
    }

    method Expire(now: int, k: string, ttl: int) returns (ok: bool)
      modifies `keys
      ensures ok == (connected && Live(old(keys), now, k))
      ensures keys == if connected then Expiring(old(keys), now, k, ttl) else old(keys)
    {
      if !connected {
        return false;
      }
      ok := Live(keys, now, k);
      keys := Expiring(keys, now, k, ttl);
    }

    method Ttl(now: int, k: string) returns (seconds: int)
      ensures seconds == if connected then RemainingTtl(keys, now, k) else -2
    {
      seconds := if connected then RemainingTtl(keys, now, k) else -2;
    }

    /** 0 stands for any failure, including a key that holds no integer. */
    method Incr(now: int, k: string) returns (n: int)
      modifies `keys
      ensures keys == if connected then Incremented(old(keys), now, k) else old(keys)
      ensures n == if connected && keys[k].value.Count? then keys[k].value.n else 0
    {
      if !connected {
        return 0;
      }
      keys := Incremented(keys, now, k);
      n := if keys[k].value.Count? then keys[k].value.n else 0;
    }
  }
}
