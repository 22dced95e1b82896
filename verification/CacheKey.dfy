/** The key under which a response is cached: prefix, method, path and the sorted query. */
module CacheKey {
  import opened Text

  // ----- the order of sort() -----

  predicate AtMost(a: string, b: string) {
    a == "" || (b != "" && (a[0] < b[0] || (a[0] == b[0] && AtMost(a[1..], b[1..]))))
  }

  lemma {:induction false} AtMostIsTotal(a: string, b: string)
    ensures AtMost(a, b) || AtMost(b, a)
    ensures AtMost(a, b) && AtMost(b, a) ==> a == b
  {
    if a != "" && b != "" && a[0] == b[0] {
      AtMostIsTotal(a[1..], b[1..]);
      assert a == [a[0]] + a[1..] && b == [b[0]] + b[1..];
    }
  }

  lemma {:induction false} AtMostIsTransitive(a: string, b: string, c: string)
    requires AtMost(a, b) && AtMost(b, c)
    ensures AtMost(a, c)
  {
    if a != "" && a[0] == b[0] == c[0] {
      AtMostIsTransitive(a[1..], b[1..], c[1..]);
    }
  }

  predicate IsSorted(keys: seq<string>) {
    forall i, j :: 0 <= i < j < |keys| ==> AtMost(keys[i], keys[j])
  }

  function Insert(key: string, keys: seq<string>): (r: seq<string>)
    ensures multiset(r) == multiset(keys) + multiset{key}
  {
    if keys == [] then [key]
    else if AtMost(key, keys[0]) then [key] + keys
    else
      assert keys == [keys[0]] + keys[1..];
      [keys[0]] + Insert(key, keys[1..])
  }

  function Sort(keys: seq<string>): (r: seq<string>)
    ensures multiset(r) == multiset(keys)
  {
    if keys == [] then []
    else
      assert keys == [keys[0]] + keys[1..];
      Insert(keys[0], Sort(keys[1..]))
  }

  lemma {:induction false} InsertSorts(key: string, keys: seq<string>)
    requires IsSorted(keys)
    ensures IsSorted(Insert(key, keys))
  {
    if keys != [] {
      AtMostIsTotal(key, keys[0]);
      if AtMost(key, keys[0]) {
        forall j | 0 <= j < |keys|
          ensures AtMost(key, keys[j])
        {
          if j > 0 {
            AtMostIsTransitive(key, keys[0], keys[j]);
          }
        }
      } else {
        var rest := Insert(key, keys[1..]);
        InsertSorts(key, keys[1..]);
        forall j | 0 <= j < |rest|
          ensures AtMost(keys[0], rest[j])
        {
          assert rest[j] in multiset(rest);
          assert rest[j] == key || rest[j] in keys[1..];
        }
      }
    }
  }

  lemma {:induction false} SortSorts(keys: seq<string>)
    ensures IsSorted(Sort(keys))
  {
    if keys != [] {
      SortSorts(keys[1..]);
      InsertSorts(keys[0], Sort(keys[1..]));
    }
  }

  lemma HeadIsLeast(keys: seq<string>, k: string)
    requires IsSorted(keys) && k in keys
    ensures AtMost(keys[0], k)
  {
    AtMostIsTotal(k, k);
  }

  lemma SameTails(a: seq<string>, b: seq<string>)
    requires a != [] && b != [] && a[0] == b[0] && multiset(a) == multiset(b)
    ensures multiset(a[1..]) == multiset(b[1..])
  {
    assert a == [a[0]] + a[1..] && b == [b[0]] + b[1..];
    assert multiset(a[1..]) == multiset(a) - multiset{a[0]};
    assert multiset(b[1..]) == multiset(b) - multiset{b[0]};
  }

  /** Two sorted arrangements of the same keys are one. */
  lemma {:induction false} SortedIsUnique(a: seq<string>, b: seq<string>)
    requires IsSorted(a) && IsSorted(b) && multiset(a) == multiset(b)
    ensures a == b
  {
    assert |a| == |multiset(a)| == |multiset(b)| == |b|;
    if a != [] {
      assert a[0] in multiset(b) && b[0] in multiset(a);
      HeadIsLeast(a, b[0]);
      HeadIsLeast(b, a[0]);
      AtMostIsTotal(a[0], b[0]);
      SameTails(a, b);
      SortedIsUnique(a[1..], b[1..]);
    }
  }

  // ----- the key -----

  /** The query as an object: its keys in the order they came, and a value for each. */
  datatype Query = Query(keys: seq<string>, values: map<string, string>)

  predicate IsQuery(q: Query) {
    && (forall i, j :: 0 <= i < j < |q.keys| ==> q.keys[i] != q.keys[j])
    && (forall k <- q.keys :: k in q.values)
    && (forall k <- q.values.Keys :: k in q.keys)
  }

  function Pair(values: map<string, string>, key: string): string
    requires key in values
  {
    key + ['='] + values[key]
  }

  function Pairs(values: map<string, string>, keys: seq<string>): (pairs: seq<string>)
    requires forall k <- keys :: k in values
    ensures |pairs| == |keys|
    ensures forall i :: 0 <= i < |keys| ==> pairs[i] == Pair(values, keys[i])
  {
    seq(|keys|, i requires 0 <= i < |keys| => assert keys[i] in keys; Pair(values, keys[i]))
  }

  function SortedKeys(q: Query): (keys: seq<string>)
    requires IsQuery(q)
    ensures forall k <- keys :: k in q.values
    ensures |keys| == |q.keys|
  {
    var keys := Sort(q.keys);
    assert |multiset(keys)| == |multiset(q.keys)|;
    assert forall k <- keys :: k in multiset(q.keys);
    keys
  }

  function SortedQuery(q: Query): string
    requires IsQuery(q)
  {
    if q.keys == [] then "" else Join(Pairs(q.values, SortedKeys(q)), '&')
  }

  function BuildCacheKey(prefix: string, verb: string, path: string, q: Query): string
    requires IsQuery(q)
  {
    var start := prefix + [':'] + verb + [':'];
    var sortedQuery := SortedQuery(q);
    if sortedQuery != "" then start + (path + ['?'] + sortedQuery) else start + path
  }

  // ----- the order of the parameters does not matter -----

  lemma SameKeysSameSort(p: seq<string>, q: seq<string>)
    requires forall i, j :: 0 <= i < j < |p| ==> p[i] != p[j]
    requires forall i, j :: 0 <= i < j < |q| ==> q[i] != q[j]
    requires forall k :: k in p <==> k in q
    ensures Sort(p) == Sort(q)
  {
    DistinctCounts(p);
    DistinctCounts(q);
    assert multiset(p) == multiset(q);
    SortSorts(p);
    SortSorts(q);
    SortedIsUnique(Sort(p), Sort(q));
  }

  lemma {:induction false} DistinctCounts(keys: seq<string>)
    requires forall i, j :: 0 <= i < j < |keys| ==> keys[i] != keys[j]
    ensures forall k :: multiset(keys)[k] == if k in keys then 1 else 0
  {
    if keys != [] {
      DistinctCounts(keys[1..]);
      assert keys == [keys[0]] + keys[1..];
      assert keys[0] !in keys[1..];
    }
  }

  /** The key depends on which parameters there are, not on their order. */
  lemma OrderDoesNotMatter(prefix: string, verb: string, path: string, p: Query, q: Query)
    requires IsQuery(p) && IsQuery(q) && p.values == q.values
    ensures BuildCacheKey(prefix, verb, path, p) == BuildCacheKey(prefix, verb, path, q)
  {
    SameKeysSameSort(p.keys, q.keys);
    assert p.keys == [] <==> q.keys == [] by {
      assert p.keys != [] ==> p.keys[0] in q.values;
      assert q.keys != [] ==> q.keys[0] in p.values;
    }
  }

  // ----- different requests have different keys -----

  /** No key holds '=' or '&', and no value holds '&'. */
  predicate IsSimple(q: Query) {
    forall k <- q.values.Keys :: '=' !in k && '&' !in k && '&' !in q.values[k]
  }

  lemma SimplePairs(q: Query)
    requires IsQuery(q) && IsSimple(q)
    ensures forall pair <- Pairs(q.values, SortedKeys(q)) :: '&' !in pair
  {
    var keys := SortedKeys(q);
    forall pair <- Pairs(q.values, keys)
      ensures '&' !in pair
    {
      var i :| 0 <= i < |keys| && pair == Pair(q.values, keys[i]);
      assert keys[i] in q.values.Keys;
    }
  }

  lemma SamePair(p: map<string, string>, k: string, q: map<string, string>, l: string)
    requires k in p && l in q && '=' !in k && '=' !in l && Pair(p, k) == Pair(q, l)
    ensures k == l && p[k] == q[l]
  {
    CutAtFirst(k, '=', p[k]);
    CutAtFirst(l, '=', q[l]);
  }

  lemma SameAt(p: Query, q: Query, i: nat)
    requires IsQuery(p) && IsQuery(q) && IsSimple(p) && IsSimple(q) && i < |SortedKeys(p)|
    requires Pairs(p.values, SortedKeys(p)) == Pairs(q.values, SortedKeys(q))
    ensures i < |SortedKeys(q)| && SortedKeys(p)[i] == SortedKeys(q)[i]
    ensures p.values[SortedKeys(p)[i]] == q.values[SortedKeys(p)[i]]
  {
    var ps, qs := SortedKeys(p), SortedKeys(q);
    assert |ps| == |Pairs(p.values, ps)| == |Pairs(q.values, qs)| == |qs|;
    assert Pairs(p.values, ps)[i] == Pairs(q.values, qs)[i];
    assert ps[i] in p.values.Keys && qs[i] in q.values.Keys;
    SamePair(p.values, ps[i], q.values, qs[i]);
  }

  lemma SamePairsSameValues(p: Query, q: Query)
    requires IsQuery(p) && IsQuery(q) && IsSimple(p) && IsSimple(q)
    requires Pairs(p.values, SortedKeys(p)) == Pairs(q.values, SortedKeys(q))
    ensures p.values == q.values
  {
    var ps, qs := SortedKeys(p), SortedKeys(q);
    forall i | 0 <= i < |ps|
      ensures ps[i] == qs[i] && p.values[ps[i]] == q.values[ps[i]]
    {
      SameAt(p, q, i);
    }
    SortedKeysAreAll(p);
    SortedKeysAreAll(q);
    assert ps == qs;
  }

  lemma SortedKeysAreAll(q: Query)
    requires IsQuery(q)
    ensures forall k :: k in q.values <==> k in SortedKeys(q)
  {
    forall k | k in q.values
      ensures k in SortedKeys(q)
    {
      assert k in multiset(q.keys);
      assert k in multiset(SortedKeys(q));
    }
  }

  lemma SameQuery(p: Query, q: Query)
    requires IsQuery(p) && IsQuery(q) && IsSimple(p) && IsSimple(q)
    requires SortedQuery(p) == SortedQuery(q)
    ensures p.values == q.values
  {
    QueryIsNotEmpty(p);
    QueryIsNotEmpty(q);
    if p.keys != [] {
      SimplePairs(p);
      SimplePairs(q);
      SplitJoin(Pairs(p.values, SortedKeys(p)), '&');
      SplitJoin(Pairs(q.values, SortedKeys(q)), '&');
      SamePairsSameValues(p, q);
    } else {
      assert p.values.Keys == {} && q.values.Keys == {};
    }
  }

  lemma QueryIsNotEmpty(q: Query)
    requires IsQuery(q)
    ensures SortedQuery(q) == "" <==> q.keys == []
  {
    if q.keys != [] {
      var pairs := Pairs(q.values, SortedKeys(q));
      assert |pairs[0]| > 0;
    }
  }

  /** With plain paths and simple parameters, equal keys mean equal paths and equal parameters. */
  lemma KeyIsInjective(prefix: string, verb: string, path: string, p: Query, path': string, q: Query)
    requires IsQuery(p) && IsQuery(q) && IsSimple(p) && IsSimple(q)
    requires '?' !in path && '?' !in path'
    requires BuildCacheKey(prefix, verb, path, p) == BuildCacheKey(prefix, verb, path', q)
    ensures path == path' && p.values == q.values
  {
    var start := prefix + [':'] + verb + [':'];
    var rest := BuildCacheKey(prefix, verb, path, p)[|start|..];
    RestOfKey(prefix, verb, path, p);
    RestOfKey(prefix, verb, path', q);
    SameQuery(p, q);
  }

  /** Where the key is cut gives back the path and the query. */
  lemma RestOfKey(prefix: string, verb: string, path: string, q: Query)
    requires IsQuery(q) && '?' !in path
    ensures var rest := BuildCacheKey(prefix, verb, path, q)[|prefix + [':'] + verb + [':']|..];
      && (Cut(rest, '?').None? ==> path == rest && SortedQuery(q) == "")
      && (Cut(rest, '?').Some? ==> Cut(rest, '?').value == (path, SortedQuery(q)))
  {
    var sortedQuery := SortedQuery(q);
    if sortedQuery != "" {
      CutAtFirst(path, '?', sortedQuery);
    }
  }

  // ----- the conditions are needed -----

  function One(key: string, value: string): (q: Query)
    ensures IsQuery(q)
  {
    Query([key], map[key := value])
  }

  function Two(key: string, value: string, key': string, value': string): (q: Query)
    requires key != key'
    ensures IsQuery(q)
  {
    Query([key, key'], map[key := value, key' := value'])
  }

  lemma SortTwo(k: string, l: string)
    requires AtMost(k, l)
    ensures Sort([k, l]) == [k, l]
  {
    assert [k, l][1..] == [l];
    assert Sort([l]) == [l];
  }

  lemma JoinTwo(a: string, b: string)
    ensures Join([a, b], '&') == a + ['&'] + b
  {
    assert [a, b][1..] == [b];
  }

  lemma SortedOne(k: string, v: string)
    ensures SortedQuery(One(k, v)) == k + ['='] + v
  {
    var q := One(k, v);
    assert SortedKeys(q) == [k];
    assert Pairs(q.values, [k]) == [k + ['='] + v];
  }

  lemma SortedTwo(k: string, v: string, l: string, w: string)
    requires k != l && AtMost(k, l)
    ensures SortedQuery(Two(k, v, l, w)) == (k + ['='] + v) + ['&'] + (l + ['='] + w)
  {
    var q := Two(k, v, l, w);
    SortTwo(k, l);
    assert SortedKeys(q) == [k, l];
    assert Pairs(q.values, [k, l]) == [k + ['='] + v, l + ['='] + w];
    JoinTwo(k + ['='] + v, l + ['='] + w);
  }

  lemma Regrouped(a: string, b: string, c: string, d: string)
    ensures a + b + c + d == a + (b + c + d)
  {
  }

  /** '&' in a value: one parameter passes for two. */
  lemma AmpersandCollides(prefix: string, verb: string, path: string, k: string, v: string, l: string, w: string)
    requires k != l && AtMost(k, l)
    ensures BuildCacheKey(prefix, verb, path, One(k, v + ['&'] + (l + ['='] + w)))
      == BuildCacheKey(prefix, verb, path, Two(k, v, l, w))
  {
    SortedTwo(k, v, l, w);
    SortedOne(k, v + ['&'] + (l + ['='] + w));
    Regrouped(k + ['='], v, ['&'], l + ['='] + w);
  }

  /** '=' in a key: the split between key and value is lost. */
  lemma EqualsCollides(prefix: string, verb: string, path: string, k: string, v: string, w: string)
    ensures BuildCacheKey(prefix, verb, path, One(k + ['='] + v, w))
      == BuildCacheKey(prefix, verb, path, One(k, v + ['='] + w))
  {
    SortedOne(k + ['='] + v, w);
    SortedOne(k, v + ['='] + w);
    Regrouped(k + ['='], v, ['='], w);
  }

  // ----- exactly which requests share their key -----

  /** Another query on the same path has the same key. */
  ghost predicate SharesKey(prefix: string, verb: string, path: string, q: Query)
    requires IsQuery(q)
  {
    exists p: Query ::
      IsQuery(p) && p.values != q.values && BuildCacheKey(prefix, verb, path, p) == BuildCacheKey(prefix, verb, path, q)
  }

  function Equals(s: string): nat {
    if s == "" then 0 else (if s[0] == '=' then 1 else 0) + Equals(s[1..])
  }

  lemma {:induction false} EqualsConcat(s: string, t: string)
    ensures Equals(s + t) == Equals(s) + Equals(t)
  {
    if s == "" {
      assert s + t == t;
    } else {
      assert (s + t)[1..] == s[1..] + t;
      EqualsConcat(s[1..], t);
    }
  }

  lemma {:induction false} EqualsNone(s: string)
    ensures Equals(s) == 0 <==> '=' !in s
  {
    if s != "" {
      EqualsNone(s[1..]);
    }
  }

  /** Every pair brings at least one '='. */
  lemma {:induction false} EqualsInJoin(pairs: seq<string>)
    requires |pairs| > 0 && forall pair <- pairs :: Equals(pair) >= 1
    ensures Equals(Join(pairs, '&')) >= |pairs|
  {
    if |pairs| > 1 {
      EqualsInJoin(pairs[1..]);
      EqualsConcat(pairs[0] + ['&'], Join(pairs[1..], '&'));
      EqualsConcat(pairs[0], ['&']);
    }
  }

  lemma EqualsInPair(values: map<string, string>, k: string)
    requires k in values
    ensures Equals(Pair(values, k)) == Equals(k) + 1 + Equals(values[k])
  {
    EqualsConcat(k + ['='], values[k]);
    EqualsConcat(k, ['=']);
  }

  lemma EqualsInQuery(q: Query)
    requires IsQuery(q)
    ensures Equals(SortedQuery(q)) >= |q.keys|
  {
    if q.keys != [] {
      var keys := SortedKeys(q);
      var pairs := Pairs(q.values, keys);
      forall pair <- pairs
        ensures Equals(pair) >= 1
      {
        var i :| 0 <= i < |keys| && pair == Pair(q.values, keys[i]);
        assert keys[i] in keys;
        EqualsInPair(q.values, keys[i]);
      }
      EqualsInJoin(pairs);
    }
  }

  /** With at most one '=' in all there is at most one parameter, and it is read off at the '='. */
  lemma OneEqualsIsRead(q: Query)
    requires IsQuery(q) && Equals(SortedQuery(q)) <= 1
    ensures q.values == if SortedQuery(q) == "" then map[]
                        else map[Cut(SortedQuery(q), '=').value.0 := Cut(SortedQuery(q), '=').value.1]
    ensures SortedQuery(q) != "" ==> Cut(SortedQuery(q), '=').Some?
  {
    EqualsInQuery(q);
    QueryIsNotEmpty(q);
    if q.keys == [] {
      assert q.values.Keys == {};
    } else {
      var k := q.keys[0];
      assert q.keys == [k];
      assert k in q.values && q.values == map[k := q.values[k]];
      SortedOne(k, q.values[k]);
      assert q == One(k, q.values[k]);
      EqualsInPair(q.values, k);
      EqualsNone(k);
      CutAtFirst(k, '=', q.values[k]);
    }
  }

  lemma TwoEqualsSplit(s: string) returns (a: string, b: string, c: string)
    requires Equals(s) >= 2
    ensures s == a + ['='] + (b + ['='] + c) && '=' !in a
  {
    EqualsNone(s);
    var first := Cut(s, '=').value;
    a := first.0;
    EqualsConcat(a + ['='], first.1);
    EqualsConcat(a, ['=']);
    EqualsNone(a);
    EqualsNone(first.1);
    var second := Cut(first.1, '=').value;
    b, c := second.0, second.1;
  }

  lemma SameSortedSameKey(prefix: string, verb: string, path: string, p: Query, q: Query)
    requires IsQuery(p) && IsQuery(q) && '?' !in path
    ensures BuildCacheKey(prefix, verb, path, p) == BuildCacheKey(prefix, verb, path, q)
      <==> SortedQuery(p) == SortedQuery(q)
  {
    RestOfKey(prefix, verb, path, p);
    RestOfKey(prefix, verb, path, q);
  }

  lemma OneEqualsIsNotShared(prefix: string, verb: string, path: string, q: Query)
    requires IsQuery(q) && '?' !in path && Equals(SortedQuery(q)) <= 1
    ensures !SharesKey(prefix, verb, path, q)
  {
    OneEqualsIsRead(q);
    forall p: Query | IsQuery(p) && BuildCacheKey(prefix, verb, path, p) == BuildCacheKey(prefix, verb, path, q)
      ensures p.values == q.values
    {
      SameSortedSameKey(prefix, verb, path, p, q);
      OneEqualsIsRead(p);
    }
  }

  lemma TwoEqualsAreShared(prefix: string, verb: string, path: string, q: Query)
    requires IsQuery(q) && '?' !in path && Equals(SortedQuery(q)) >= 2
    ensures SharesKey(prefix, verb, path, q)
  {
    var a, b, c := TwoEqualsSplit(SortedQuery(q));
    var p, p' := One(a, b + ['='] + c), One(a + ['='] + b, c);
    SortedOne(a, b + ['='] + c);
    SortedOne(a + ['='] + b, c);
    Regrouped(a + ['='], b, ['='], c);
    SameSortedSameKey(prefix, verb, path, p, q);
    SameSortedSameKey(prefix, verb, path, p', q);
    assert a in p.values && a !in p'.values by {
      assert |a + ['='] + b| > |a|;
    }
    assert p.values != q.values || p'.values != q.values;
  }

  /** A request shares its key with a different query on its path exactly if its own holds two '=' or more. */
  lemma KeyIsShared(prefix: string, verb: string, path: string, q: Query)
    requires IsQuery(q) && '?' !in path
    ensures SharesKey(prefix, verb, path, q) <==> Equals(SortedQuery(q)) >= 2
  {
    if Equals(SortedQuery(q)) >= 2 {
      TwoEqualsAreShared(prefix, verb, path, q);
    } else {
      OneEqualsIsNotShared(prefix, verb, path, q);
    }
  }

  // ----- spelled out -----

  /** Ascending: one is the beginning of the other, or smaller at the first difference. */
  lemma {:induction false} AtMostIsAscending(a: string, b: string)
    ensures AtMost(a, b) <==> a <= b || exists i :: 0 <= i < |a| && i < |b| && a[..i] == b[..i] && a[i] < b[i]
  {
    if a != "" && b != "" {
      if a[0] == b[0] {
        AtMostIsAscending(a[1..], b[1..]);
        assert a <= b <==> a[1..] <= b[1..] by {
          assert a == [a[0]] + a[1..] && b == [b[0]] + b[1..];
        }
        DifferenceMoves(a, b);
      } else {
        FirstDiffers(a, b);
      }
    }
  }

  lemma FirstDiffers(a: string, b: string)
    requires a != "" && b != "" && a[0] != b[0]
    ensures (exists i :: 0 <= i < |a| && i < |b| && a[..i] == b[..i] && a[i] < b[i]) <==> a[0] < b[0]
  {
    assert a[..0] == b[..0];
    forall i | 0 < i < |a| && i < |b|
      ensures a[..i] != b[..i]
    {
      assert a[..i][0] == a[0] && b[..i][0] == b[0];
    }
  }

  lemma DifferenceMoves(a: string, b: string)
    requires a != "" && b != "" && a[0] == b[0]
    ensures (exists i :: 0 <= i < |a| && i < |b| && a[..i] == b[..i] && a[i] < b[i])
      <==> (exists i :: 0 <= i < |a[1..]| && i < |b[1..]| && a[1..][..i] == b[1..][..i] && a[1..][i] < b[1..][i])
  {
    if i :| 0 <= i < |a| && i < |b| && a[..i] == b[..i] && a[i] < b[i] {
      assert i > 0;
      assert a[1..][..i - 1] == a[..i][1..] && b[1..][..i - 1] == b[..i][1..];
      assert a[1..][i - 1] < b[1..][i - 1];
    }
    if i :| 0 <= i < |a[1..]| && i < |b[1..]| && a[1..][..i] == b[1..][..i] && a[1..][i] < b[1..][i] {
      assert a[..i + 1] == [a[0]] + a[1..][..i] && b[..i + 1] == [b[0]] + b[1..][..i];
      assert a[i + 1] < b[i + 1];
    }
  }

  /** Prefix, method and path, and after them the pairs in ascending order of their keys, if there are any. */
  lemma KeyIsSpelled(prefix: string, verb: string, path: string, q: Query) returns (keys: seq<string>)
    requires IsQuery(q)
    ensures IsSorted(keys) && multiset(keys) == multiset(q.keys) && forall k <- keys :: k in q.values
    ensures var start := prefix + ":" + verb + ":" + path;
      BuildCacheKey(prefix, verb, path, q) ==
        if q.keys == [] then start
        else start + "?" + Join(seq(|keys|, i requires 0 <= i < |keys| && keys[i] in q.values =>
                                              keys[i] + "=" + q.values[keys[i]]), '&')
  {
    keys := SortedKeys(q);
    SortSorts(q.keys);
    QueryIsNotEmpty(q);
    if q.keys != [] {
      var pairs := seq(|keys|, i requires 0 <= i < |keys| && keys[i] in q.values => keys[i] + "=" + q.values[keys[i]]);
      assert Pairs(q.values, keys) == pairs;
      var sorted := Join(pairs, '&');
      assert prefix + [':'] + verb + [':'] + (path + ['?'] + sorted) == prefix + ":" + verb + ":" + path + "?" + sorted;
    }
  }
}
