/** The path-request suppressor: one request per hash within the retention time, least recently queried hash evicted. */
module PathCache {
  import opened Common

  type Hash = seq<Byte>

  datatype Entry = Entry(hash: Hash, at: int)

  datatype Config = Config(ttl: int, max: nat)

  datatype Query = Query(hash: Hash, now: int)

  // ---- The ordered dictionary ----

  function Find(s: seq<Entry>, h: Hash): Option<int> {
    if s == [] then None else if s[0].hash == h then Some(s[0].at) else Find(s[1..], h)
  }

  function Remove(s: seq<Entry>, h: Hash): seq<Entry> {
    if s == [] then [] else if s[0].hash == h then s[1..] else [s[0]] + Remove(s[1..], h)
  }

  predicate Grants(c: Config, s: seq<Entry>, q: Query) {
    var last := Find(s, q.hash);
    last.None? || q.now - last.value >= c.ttl
  }

  function Step(c: Config, s: seq<Entry>, q: Query): seq<Entry> {
    if Grants(c, s, q) then LastN(Remove(s, q.hash) + [Entry(q.hash, q.now)], c.max)
    else Remove(s, q.hash) + [Entry(q.hash, Find(s, q.hash).value)]
  }

  function After(c: Config, qs: seq<Query>): seq<Entry>
    decreases |qs|
  {
    if qs == [] then [] else Step(c, After(c, qs[..|qs| - 1]), qs[|qs| - 1])
  }

  // ---- The same without a bound ----

  function Without(r: seq<Hash>, h: Hash): seq<Hash> {
    if r == [] then [] else if r[0] == h then r[1..] else [r[0]] + Without(r[1..], h)
  }

  /** Every hash queried, in the order of its latest query. */
  function Recency(qs: seq<Query>): seq<Hash>
    decreases |qs|
  {
    if qs == [] then [] else Without(Recency(qs[..|qs| - 1]), qs[|qs| - 1].hash) + [qs[|qs| - 1].hash]
  }

  /** When the hash was last granted a request in the run. */
  function LastGrant(c: Config, qs: seq<Query>, h: Hash): Option<int>
    decreases |qs|
  {
    if qs == [] then None
    else
      var n, q := |qs| - 1, qs[|qs| - 1];
      if q.hash == h && Grants(c, After(c, qs[..n]), q) then Some(q.now) else LastGrant(c, qs[..n], h)
  }

  function Hashes(s: seq<Entry>): (r: seq<Hash>)
    ensures |r| == |s|
  {
    if s == [] then [] else [s[0].hash] + Hashes(s[1..])
  }

  predicate Distinct(r: seq<Hash>) {
    forall i, j :: 0 <= i < j < |r| ==> r[i] != r[j]
  }

  lemma TailOfSum<T>(s: seq<T>, t: seq<T>)
    requires s != []
    ensures (s + t)[0] == s[0] && (s + t)[1..] == s[1..] + t
  {
  }

  lemma SumOfThree<T>(a: seq<T>, b: seq<T>, c: seq<T>)
    ensures a + (b + c) == a + b + c
  {
  }

  lemma {:induction false} HashesAppend(s: seq<Entry>, t: seq<Entry>)
    ensures Hashes(s + t) == Hashes(s) + Hashes(t)
  {
    if s == [] {
      assert s + t == t;
    } else {
      TailOfSum(s, t);
      HashesAppend(s[1..], t);
      SumOfThree([s[0].hash], Hashes(s[1..]), Hashes(t));
    }
  }

  lemma {:induction false} HashesRemove(s: seq<Entry>, h: Hash)
    ensures Hashes(Remove(s, h)) == Without(Hashes(s), h)
  {
    if s != [] && s[0].hash != h {
      HashesRemove(s[1..], h);
      var t := [s[0]] + Remove(s[1..], h);
      assert t[1..] == Remove(s[1..], h);
    }
  }

  lemma HashesLastN(s: seq<Entry>, m: nat)
    ensures Hashes(LastN(s, m)) == LastN(Hashes(s), m)
  {
    if |s| > m {
      var a, b := s[..|s| - m], s[|s| - m..];
      HashesAppend(a, b);
      assert s == a + b;
    }
  }

  lemma {:induction false} WithoutHas(r: seq<Hash>, h: Hash, x: Hash)
    requires Distinct(r)
    ensures x in Without(r, h) <==> x in r && x != h
  {
    if r != [] {
      assert r == [r[0]] + r[1..];
      if r[0] != h {
        WithoutHas(r[1..], h, x);
      }
    }
  }

  lemma {:induction false} WithoutDistinct(r: seq<Hash>, h: Hash)
    requires Distinct(r)
    ensures Distinct(Without(r, h))
  {
    if r != [] && r[0] != h {
      WithoutDistinct(r[1..], h);
      WithoutHas(r[1..], h, r[0]);
    }
  }

  lemma {:induction false} RecencyDistinct(qs: seq<Query>)
    ensures Distinct(Recency(qs))
    decreases |qs|
  {
    if qs != [] {
      RecencyDistinct(qs[..|qs| - 1]);
      WithoutDistinct(Recency(qs[..|qs| - 1]), qs[|qs| - 1].hash);
      WithoutHas(Recency(qs[..|qs| - 1]), qs[|qs| - 1].hash, qs[|qs| - 1].hash);
    }
  }

  lemma {:induction false} WithoutAbsent(r: seq<Hash>, h: Hash)
    requires h !in r
    ensures Without(r, h) == r
  {
    if r != [] {
      WithoutAbsent(r[1..], h);
    }
  }

  lemma {:induction false} WithoutAppend(a: seq<Hash>, b: seq<Hash>, h: Hash)
    ensures Without(a + b, h) == if h in a then Without(a, h) + b else a + Without(b, h)
  {
    if a == [] {
      assert a + b == b;
    } else {
      assert (a + b)[1..] == a[1..] + b;
      if a[0] != h {
        WithoutAppend(a[1..], b, h);
      }
    }
  }

  lemma {:induction false} WithoutLength(r: seq<Hash>, h: Hash)
    ensures |Without(r, h)| == if h in r then |r| - 1 else |r|
  {
    if r != [] && r[0] != h {
      WithoutLength(r[1..], h);
    }
  }

  lemma LastNOfAppend<T>(a: seq<T>, b: seq<T>, m: nat)
    requires |b| >= m
    ensures LastN(a + b, m) == LastN(b, m)
  {
  }

  lemma {:induction false} ApartHalves(a: seq<Hash>, b: seq<Hash>, h: Hash)
    requires Distinct(a + b) && h in a
    ensures h !in b
  {
    var i :| 0 <= i < |a| && a[i] == h;
    forall k | 0 <= k < |b|
      ensures b[k] != h
    {
      assert (a + b)[i] == h && (a + b)[|a| + k] == b[k];
    }
  }

  lemma {:induction false} TouchHalves(a: seq<Hash>, b: seq<Hash>, h: Hash)
    requires Distinct(a + b)
    ensures LastN(Without(b, h) + [h], |b|) == LastN(Without(a + b, h) + [h], |b|)
  {
    var t := Without(b, h) + [h];
    WithoutAppend(a, b, h);
    WithoutLength(b, h);
    if h in a {
      ApartHalves(a, b, h);
      WithoutAbsent(b, h);
      assert Without(a + b, h) + [h] == Without(a, h) + t;
      LastNOfAppend(Without(a, h), t, |b|);
    } else {
      assert Without(a + b, h) + [h] == a + t;
      LastNOfAppend(a, t, |b|);
    }
  }

  /** Moving a hash to the end and cutting, or cutting first: the same last `m`. */
  lemma {:induction false} TouchLastN(r: seq<Hash>, h: Hash, m: nat)
    requires Distinct(r)
    ensures LastN(Without(LastN(r, m), h) + [h], m) == LastN(Without(r, h) + [h], m)
  {
    if |r| > m {
      var a, b := r[..|r| - m], r[|r| - m..];
      assert r == a + b;
      TouchHalves(a, b, h);
    }
  }

  // ---- Lookups ----

  lemma {:induction false} FindIff(s: seq<Entry>, h: Hash)
    ensures Find(s, h).Some? <==> h in Hashes(s)
  {
    if s != [] {
      FindIff(s[1..], h);
    }
  }

  lemma {:induction false} FindRemove(s: seq<Entry>, g: Hash, h: Hash)
    requires g != h
    ensures Find(Remove(s, g), h) == Find(s, h)
  {
    if s != [] {
      FindRemove(s[1..], g, h);
      if s[0].hash != g {
        var t := [s[0]] + Remove(s[1..], g);
        assert t[1..] == Remove(s[1..], g);
      }
    }
  }

  lemma {:induction false} FindAppend(s: seq<Entry>, e: Entry, h: Hash)
    ensures Find(s + [e], h) == if Find(s, h).Some? then Find(s, h) else if e.hash == h then Some(e.at) else None
  {
    if s == [] {
      assert s + [e] == [e];
    } else {
      assert (s + [e])[1..] == s[1..] + [e];
      FindAppend(s[1..], e, h);
    }
  }

  lemma {:induction false} FindSuffix(s: seq<Entry>, k: nat, h: Hash)
    requires k <= |s| && Distinct(Hashes(s)) && Find(s[k..], h).Some?
    ensures Find(s, h) == Find(s[k..], h)
    decreases |s|
  {
    if k > 0 {
      var r := Hashes(s);
      assert r[1..] == Hashes(s[1..]);
      assert s[1..][k - 1..] == s[k..];
      FindSuffix(s[1..], k - 1, h);
      FindIff(s[1..], h);
      var i :| 0 <= i < |r[1..]| && r[1..][i] == h;
      assert r[i + 1] == h && r[0] == s[0].hash;
    }
  }

  lemma FindLastN(s: seq<Entry>, m: nat, h: Hash)
    requires Distinct(Hashes(s)) && Find(LastN(s, m), h).Some?
    ensures Find(s, h) == Find(LastN(s, m), h)
  {
    if |s| > m {
      FindSuffix(s, |s| - m, h);
    }
  }

  // ---- The cache refines the unbounded form ----

  lemma HashesTouched(s: seq<Entry>, h: Hash, at: int)
    ensures Hashes(Remove(s, h) + [Entry(h, at)]) == Without(Hashes(s), h) + [h]
  {
    HashesAppend(Remove(s, h), [Entry(h, at)]);
    HashesRemove(s, h);
  }

  /** The cache holds the `max` hashes queried most recently, in that order. */
  lemma {:induction false} CacheIs(c: Config, qs: seq<Query>)
    ensures Hashes(After(c, qs)) == LastN(Recency(qs), c.max)
    decreases |qs|
  {
    if qs != [] {
      var n, q := |qs| - 1, qs[|qs| - 1];
      var s := After(c, qs[..n]);
      CacheIs(c, qs[..n]);
      RecencyDistinct(qs[..n]);
      TouchLastN(Recency(qs[..n]), q.hash, c.max);
      if Grants(c, s, q) {
        HashesTouched(s, q.hash, q.now);
        HashesLastN(Remove(s, q.hash) + [Entry(q.hash, q.now)], c.max);
      } else {
        HashesTouched(s, q.hash, Find(s, q.hash).value);
        FindIff(s, q.hash);
        WithoutLength(Hashes(s), q.hash);
      }
    }
  }

  lemma CacheDistinct(c: Config, qs: seq<Query>)
    ensures Distinct(Hashes(After(c, qs)))
  {
    CacheIs(c, qs);
    RecencyDistinct(qs);
  }

  lemma FindTouched(s: seq<Entry>, g: Hash, at: int, h: Hash)
    requires Distinct(Hashes(s))
    ensures Find(Remove(s, g) + [Entry(g, at)], h) == if g == h then Some(at) else Find(s, h)
  {
    FindAppend(Remove(s, g), Entry(g, at), h);
    if g == h {
      FindIff(Remove(s, g), h);
      HashesRemove(s, g);
      WithoutHas(Hashes(s), g, h);
    } else {
      FindRemove(s, g, h);
    }
  }

  lemma TouchedDistinct(s: seq<Entry>, h: Hash, at: int)
    requires Distinct(Hashes(s))
    ensures Distinct(Hashes(Remove(s, h) + [Entry(h, at)]))
  {
    HashesTouched(s, h, at);
    WithoutDistinct(Hashes(s), h);
    WithoutHas(Hashes(s), h, h);
  }

  /** A cached hash carries the time of its latest grant. */
  lemma {:induction false} TimesAre(c: Config, qs: seq<Query>, h: Hash)
    requires Find(After(c, qs), h).Some?
    ensures Find(After(c, qs), h) == LastGrant(c, qs, h)
    decreases |qs|
  {
    var n, q := |qs| - 1, qs[|qs| - 1];
    var s := After(c, qs[..n]);
    CacheDistinct(c, qs[..n]);
    if Grants(c, s, q) {
      var t := Remove(s, q.hash) + [Entry(q.hash, q.now)];
      TouchedDistinct(s, q.hash, q.now);
      FindLastN(t, c.max, h);
      FindTouched(s, q.hash, q.now, h);
    } else {
      FindTouched(s, q.hash, Find(s, q.hash).value, h);
    }
    if !(Grants(c, s, q) && q.hash == h) {
      TimesAre(c, qs[..n], h);
    }
  }

  /** A request is held back exactly for the `max` latest hashes, until their grants are `ttl` old. */
  lemma GrantedIff(c: Config, qs: seq<Query>, q: Query)
    ensures Grants(c, After(c, qs), q) <==>
            q.hash !in LastN(Recency(qs), c.max) ||
            (LastGrant(c, qs, q.hash).Some? && q.now - LastGrant(c, qs, q.hash).value >= c.ttl)
  {
    CacheIs(c, qs);
    FindIff(After(c, qs), q.hash);
    if Find(After(c, qs), q.hash).Some? {
      TimesAre(c, qs, q.hash);
    }
  }

  // ---- Two requests for one hash ----

  /** The hashes queried since `h` was. */
  function Behind(r: seq<Hash>, h: Hash): seq<Hash> {
    if r == [] then [] else if r[0] == h then r[1..] else Behind(r[1..], h)
  }

  /** In a list without repeats the head is not met again. */
  lemma HeadIsAlone(r: seq<Hash>, k: nat)
    requires Distinct(r) && 0 < k <= |r|
    ensures r[0] !in r[k..]
  {
    forall i | 0 <= i < |r[k..]|
      ensures r[k..][i] != r[0]
    {
      assert r[k..][i] == r[k + i];
    }
  }

  lemma LastNOfTail<T>(r: seq<T>, m: nat)
    requires |r| > m
    ensures LastN(r, m) == LastN(r[1..], m)
  {
    if |r| > m + 1 {
      assert r[1..][|r| - 1 - m..] == r[|r| - m..];
    }
  }

  lemma {:induction false} InLastNIff(r: seq<Hash>, h: Hash, m: nat)
    requires Distinct(r) && h in r
    ensures h in LastN(r, m) <==> |Behind(r, h)| < m
    decreases |r|
  {
    if r[0] == h {
      if |r| > m {
        HeadIsAlone(r, |r| - m);
      }
    } else {
      InRest(r, h);
      BehindShorter(r[1..], h);
      if |r| > m {
        LastNOfTail(r, m);
        InLastNIff(r[1..], h, m);
      }
    }
  }

  lemma InRest(r: seq<Hash>, h: Hash)
    requires Distinct(r) && h in r && r[0] != h
    ensures h in r[1..] && Distinct(r[1..])
  {
    assert r == [r[0]] + r[1..];
  }

  lemma {:induction false} BehindShorter(r: seq<Hash>, h: Hash)
    requires h in r
    ensures |Behind(r, h)| < |r|
  {
    if r[0] != h {
      BehindShorter(r[1..], h);
    }
  }

  lemma {:induction false} BehindTouched(r: seq<Hash>, h: Hash, g: Hash)
    requires Distinct(r) && h in r && g != h
    ensures Behind(Without(r, g) + [g], h) == Without(Behind(r, h), g) + [g] && h in Without(r, g) + [g]
    decreases |r|
  {
    var t := Without(r, g) + [g];
    if r[0] == h {
      assert t[1..] == Without(r[1..], g) + [g];
    } else if r[0] == g {
      assert g !in r[1..];
      BehindHas(r[1..], h, g);
      WithoutAbsent(Behind(r[1..], h), g);
      BehindAppend(r[1..], h, g);
    } else {
      BehindTouched(r[1..], h, g);
      assert t[1..] == Without(r[1..], g) + [g];
    }
  }

  lemma {:induction false} BehindHas(r: seq<Hash>, h: Hash, x: Hash)
    ensures x in Behind(r, h) ==> x in r
  {
    if r != [] && r[0] != h {
      BehindHas(r[1..], h, x);
    }
  }

  lemma {:induction false} BehindAppend(r: seq<Hash>, h: Hash, x: Hash)
    requires h in r
    ensures Behind(r + [x], h) == Behind(r, h) + [x]
  {
    assert (r + [x])[1..] == r[1..] + [x];
    if r[0] != h {
      BehindAppend(r[1..], h, x);
    }
  }

  lemma {:induction false} RecencyHas(qs: seq<Query>, h: Hash)
    ensures h in Recency(qs) <==> exists i :: 0 <= i < |qs| && qs[i].hash == h
    decreases |qs|
  {
    if qs != [] {
      var n, q := |qs| - 1, qs[|qs| - 1];
      RecencyHas(qs[..n], h);
      RecencyDistinct(qs[..n]);
      WithoutHas(Recency(qs[..n]), q.hash, h);
      if h in Recency(qs[..n]) {
        var i :| 0 <= i < n && qs[..n][i].hash == h;
        assert qs[i].hash == h;
      }
      if i :| 0 <= i < |qs| && qs[i].hash == h {
        assert i < n ==> qs[..n][i].hash == h;
      }
    }
  }

  /** `k` is the position of the latest query for `h`. */
  predicate Latest(qs: seq<Query>, k: nat, h: Hash) {
    k < |qs| && qs[k].hash == h && forall i :: k < i < |qs| ==> qs[i].hash != h
  }

  lemma {:induction false} BehindIs(qs: seq<Query>, k: nat, h: Hash)
    requires Latest(qs, k, h)
    ensures h in Recency(qs) && Behind(Recency(qs), h) == Recency(qs[k + 1..])
    decreases |qs|
  {
    var n, q := |qs| - 1, qs[|qs| - 1];
    var r := Recency(qs[..n]);
    RecencyDistinct(qs[..n]);
    if k == n {
      WithoutHas(r, h, h);
      BehindLast(Without(r, h), h);
    } else {
      assert Latest(qs[..n], k, h);
      BehindIs(qs[..n], k, h);
      BehindTouched(r, h, q.hash);
      assert qs[k + 1..][..n - k - 1] == qs[..n][k + 1..];
    }
  }

  lemma {:induction false} BehindLast(r: seq<Hash>, h: Hash)
    requires h !in r
    ensures Behind(r + [h], h) == []
  {
    if r != [] {
      assert (r + [h])[1..] == r[1..] + [h];
      BehindLast(r[1..], h);
    }
  }

  /** The distinct hashes queried. */
  function Queried(qs: seq<Query>): set<Hash> {
    set i | 0 <= i < |qs| :: qs[i].hash
  }

  lemma {:induction false} DistinctSize(r: seq<Hash>, all: set<Hash>)
    requires Distinct(r) && forall x :: x in r <==> x in all
    ensures |r| == |all|
  {
    if r == [] {
      assert all == {};
    } else {
      assert r == [r[0]] + r[1..];
      DistinctSize(r[1..], all - {r[0]});
    }
  }

  lemma RecencySize(qs: seq<Query>)
    ensures |Recency(qs)| == |Queried(qs)|
  {
    RecencyDistinct(qs);
    forall h
      ensures h in Recency(qs) <==> h in Queried(qs)
    {
      RecencyHas(qs, h);
    }
    DistinctSize(Recency(qs), Queried(qs));
  }

  lemma Subset(a: set<Hash>, b: set<Hash>)
    requires a <= b
    ensures |a| <= |b|
  {
    assert b == a + (b - a);
  }

  /** A hash is cached exactly while fewer than `max` distinct others were queried since it was. */
  lemma CachedIff(c: Config, qs: seq<Query>, k: nat, h: Hash)
    requires Latest(qs, k, h)
    ensures h in LastN(Recency(qs), c.max) <==> |Queried(qs[k + 1..])| < c.max
  {
    BehindIs(qs, k, h);
    RecencyDistinct(qs);
    InLastNIff(Recency(qs), h, c.max);
    RecencySize(qs[k + 1..]);
  }

  lemma {:induction false} GrantStays(c: Config, qs: seq<Query>, mid: seq<Query>, h: Hash, t: int)
    requires LastGrant(c, qs, h).Some? && LastGrant(c, qs, h).value >= t
    requires forall i :: 0 <= i < |mid| && mid[i].hash == h ==> mid[i].now >= t
    ensures LastGrant(c, qs + mid, h).Some? && LastGrant(c, qs + mid, h).value >= t
    ensures (forall i :: 0 <= i < |mid| ==> mid[i].hash != h) ==> LastGrant(c, qs + mid, h) == LastGrant(c, qs, h)
    decreases |mid|
  {
    if mid == [] {
      assert qs + mid == qs;
    } else {
      var n := |mid| - 1;
      assert (qs + mid)[..|qs| + n] == qs + mid[..n];
      GrantStays(c, qs, mid[..n], h, t);
    }
  }

  lemma FindLatest(qs: seq<Query>, start: nat, h: Hash) returns (k: nat)
    requires start < |qs| && qs[start].hash == h
    ensures Latest(qs, k, h) && k >= start
  {
    k := start;
    for j := start + 1 to |qs|
      invariant start <= k < j && qs[k].hash == h && forall i :: k < i < j ==> qs[i].hash != h
    {
      if qs[j].hash == h {
        k := j;
      }
    }
  }

  lemma QueriedSince(all: seq<Query>, mid: seq<Query>, k: nat, h: Hash)
    requires Latest(all, k, h) && |mid| <= |all| && mid == all[|all| - |mid|..] && k + 1 >= |all| - |mid|
    ensures Queried(all[k + 1..]) <= Queried(mid) - {h}
  {
    var start, since := |all| - |mid|, all[k + 1..];
    forall i | 0 <= i < |since|
      ensures since[i].hash in Queried(mid) - {h}
    {
      assert since[i] == all[k + 1 + i] == mid[k + 1 + i - start];
    }
  }

  /** Two grants for one hash less than `ttl` apart take at least `max` distinct other hashes in between. */
  lemma RepeatNeedsFlood(c: Config, qs: seq<Query>, first: Query, mid: seq<Query>, again: Query)
    requires first.hash == again.hash && again.now - first.now < c.ttl
    requires forall i :: 0 <= i < |mid| ==> mid[i].now >= first.now
    requires Grants(c, After(c, qs), first) && Grants(c, After(c, qs + [first] + mid), again)
    ensures |Queried(mid) - {first.hash}| >= c.max
  {
    var h, all := first.hash, qs + [first] + mid;
    assert (qs + [first])[..|qs|] == qs;
    GrantStays(c, qs + [first], mid, h, first.now);
    GrantedIff(c, all, again);
    var k := FindLatest(all, |qs|, h);
    CachedIff(c, all, k, h);
    QueriedSince(all, mid, k, h);
    Subset(Queried(all[k + 1..]), Queried(mid) - {h});
  }

  /** With no query for the hash in between, exactly then or after `ttl`. */
  lemma RepeatIff(c: Config, qs: seq<Query>, first: Query, mid: seq<Query>, again: Query)
    requires first.hash == again.hash && Grants(c, After(c, qs), first)
    requires forall i :: 0 <= i < |mid| ==> mid[i].hash != first.hash
    ensures Grants(c, After(c, qs + [first] + mid), again) <==>
            again.now - first.now >= c.ttl || |Queried(mid)| >= c.max
  {
    var all := qs + [first] + mid;
    assert (qs + [first])[..|qs|] == qs;
    GrantStays(c, qs + [first], mid, first.hash, first.now);
    GrantedIff(c, all, again);
    assert all[|qs| + 1..] == mid;
    CachedIff(c, all, |qs|, first.hash);
  }

  // ---- The cache ----

  class PathRequestCache {
    const config: Config
    var entries: seq<Entry>

    constructor (config: Config)
      ensures this.config == config && entries == After(config, [])
    {
      this.config := config;
      entries := [];
    }

    method ShouldRequest(hash: Hash, now: int) returns (granted: bool)
      modifies this`entries
      ensures granted == Grants(config, old(entries), Query(hash, now))
      ensures entries == Step(config, old(entries), Query(hash, now))
    {
      var last := Find(entries, hash);
      if last.Some? && now - last.value < config.ttl {
        entries := Remove(entries, hash) + [Entry(hash, last.value)];
        return false;
      }
      var all := Remove(entries, hash) + [Entry(hash, now)];
      entries := all;
      while |entries| > config.max
        invariant Min(|all|, config.max) <= |entries| <= |all| && entries == all[|all| - |entries|..]
        decreases |entries|
      {
        entries := entries[1..];
      }
      granted := true;
    }
  }
}
