/**
 * Token buckets per identity with eviction of stale buckets, and per-channel
 * slowmode. Time is real and does not run backwards.
 */
module RateLimit {
  import opened Common

  const MAX_TRACKED: nat := 10000
  const PRESSURE_AGE := 600.0

  datatype Bucket = Bucket(tokens: real, last: real)

  datatype Config = Config(maxTokens: real, rate: real)

  type Buckets = map<string, Bucket>

  datatype Decision = Granted | Limited | TooMany

  function MinR(a: real, b: real): real {
    if a <= b then a else b
  }

  /** Tokens that flow in over a time span. */
  function Gain(c: Config, span: real): real {
    span * c.rate
  }

  function Refilled(c: Config, b: Bucket, now: real): real {
    MinR(c.maxTokens, b.tokens + Gain(c, now - b.last))
  }

  /** Refill, then take one token if there is one. */
  function Consume(c: Config, b: Bucket, now: real): (Bucket, bool) {
    var t := Refilled(c, b, now);
    if t >= 1.0 then (Bucket(t - 1.0, now), true) else (Bucket(t, now), false)
  }

  /** The list comprehension and delete loop of the cleanup. */
  function Sweep(m: Buckets, now: real, maxAge: real): Buckets {
    map k | k in m && !(now - m[k].last > maxAge) :: m[k]
  }

  function Check(c: Config, m: Buckets, id: string, now: real, cap: nat): (Buckets, Decision) {
    var m1 := if id !in m && |m| >= cap then Sweep(m, now, PRESSURE_AGE) else m;
    if id !in m1 && |m1| >= cap then (m1, TooMany)
    else
      var b := if id in m1 then m1[id] else Bucket(c.maxTokens, now);
      var (b', ok) := Consume(c, b, now);
      (m1[id := b'], if ok then Granted else Limited)
  }

  // ---- Tokens an identity would find ----

  /** An unknown identity would get a full bucket. */
  function Level(c: Config, m: Buckets, id: string, now: real): real {
    if id in m then Refilled(c, m[id], now) else c.maxTokens
  }

  predicate Sound(c: Config) {
    c.maxTokens >= 0.0 && c.rate >= 0.0
  }

  ghost predicate Sane(c: Config, m: Buckets, now: real) {
    forall k :: k in m ==> 0.0 <= m[k].tokens <= c.maxTokens && m[k].last <= now
  }

  /** An eviction age after which any bucket would be full again. */
  predicate Harmless(c: Config, maxAge: real) {
    Gain(c, maxAge) >= c.maxTokens
  }

  lemma GainNonNeg(c: Config, span: real)
    requires c.rate >= 0.0 && span >= 0.0
    ensures Gain(c, span) >= 0.0
    ensures span == 0.0 ==> Gain(c, span) == 0.0
  {
  }

  lemma GainAdds(c: Config, a: real, b: real, s: real)
    requires s == a + b
    ensures Gain(c, s) == Gain(c, a) + Gain(c, b)
  {
  }

  lemma MinTwice(m: real, x: real, p: real, q: real)
    requires q >= 0.0
    ensures MinR(m, x + (p + q)) == MinR(m, MinR(m, x + p) + q)
  {
  }

  lemma RefilledRange(c: Config, b: Bucket, now: real)
    requires Sound(c) && 0.0 <= b.tokens <= c.maxTokens && b.last <= now
    ensures 0.0 <= Refilled(c, b, now) <= c.maxTokens
    ensures b.last == now ==> Refilled(c, b, now) == b.tokens
  {
    GainNonNeg(c, now - b.last);
  }

  lemma RefilledLater(c: Config, b: Bucket, t: real, t': real)
    requires Sound(c) && b.last <= t <= t'
    ensures Refilled(c, b, t') == MinR(c.maxTokens, Refilled(c, b, t) + Gain(c, t' - t))
  {
    GainNonNeg(c, t' - t);
    GainAdds(c, t - b.last, t' - t, t' - b.last);
    MinTwice(c.maxTokens, b.tokens, Gain(c, t - b.last), Gain(c, t' - t));
  }

  /** Levels only grow with time, at the refill rate, up to the maximum. */
  lemma LevelLater(c: Config, m: Buckets, id: string, t: real, t': real)
    requires Sound(c) && Sane(c, m, t) && t <= t'
    ensures Level(c, m, id, t') == MinR(c.maxTokens, Level(c, m, id, t) + Gain(c, t' - t))
  {
    GainNonNeg(c, t' - t);
    if id in m {
      RefilledLater(c, m[id], t, t');
    }
  }

  lemma LevelRange(c: Config, m: Buckets, id: string, now: real)
    requires Sound(c) && Sane(c, m, now)
    ensures 0.0 <= Level(c, m, id, now) <= c.maxTokens
  {
    if id in m {
      RefilledRange(c, m[id], now);
    }
  }

  lemma StaleIsFull(c: Config, b: Bucket, now: real, maxAge: real)
    requires Sound(c) && b.tokens >= 0.0 && now - b.last > maxAge && Harmless(c, maxAge)
    ensures Refilled(c, b, now) == c.maxTokens
  {
    GainAdds(c, maxAge, now - b.last - maxAge, now - b.last);
    GainNonNeg(c, now - b.last - maxAge);
  }

  /** A harmless eviction leaves every level as it was. */
  lemma SweepKeepsLevel(c: Config, m: Buckets, id: string, now: real, maxAge: real)
    requires Sound(c) && Sane(c, m, now) && Harmless(c, maxAge)
    ensures Level(c, Sweep(m, now, maxAge), id, now) == Level(c, m, id, now)
    ensures Sane(c, Sweep(m, now, maxAge), now)
  {
    if id in m && now - m[id].last > maxAge {
      StaleIsFull(c, m[id], now, maxAge);
    }
  }

  lemma ConsumeByLevel(c: Config, b: Bucket, now: real)
    requires Sound(c) && 0.0 <= b.tokens <= c.maxTokens && b.last <= now
    ensures var (b', ok) := Consume(c, b, now);
            && b'.last == now && 0.0 <= b'.tokens <= c.maxTokens
            && (ok <==> Refilled(c, b, now) >= 1.0)
            && Refilled(c, b', now) == Refilled(c, b, now) - if ok then 1.0 else 0.0
  {
    RefilledRange(c, b, now);
    RefilledRange(c, Consume(c, b, now).0, now);
  }

  /** What one check decides and leaves behind is a matter of levels alone. */
  lemma CheckByLevel(c: Config, m: Buckets, id: string, now: real, cap: nat, k: string)
    requires Sound(c) && Sane(c, m, now) && Harmless(c, PRESSURE_AGE)
    ensures var (m', d) := Check(c, m, id, now, cap);
            && Sane(c, m', now)
            && (d != TooMany ==> (d == Granted <==> Level(c, m, id, now) >= 1.0))
            && Level(c, m', k, now) == Level(c, m, k, now) - if k == id && d == Granted then 1.0 else 0.0
  {
    var m1 := if id !in m && |m| >= cap then Sweep(m, now, PRESSURE_AGE) else m;
    if id !in m && |m| >= cap {
      SweepKeepsLevel(c, m, k, now, PRESSURE_AGE);
      SweepKeepsLevel(c, m, id, now, PRESSURE_AGE);
    }
    var b := if id in m1 then m1[id] else Bucket(c.maxTokens, now);
    ConsumeByLevel(c, b, now);
    RefilledRange(c, b, now);
  }

  // ---- Runs ----

  datatype Event = Ask(id: string, at: real) | Clean(at: real, maxAge: real)

  function Next(c: Config, m: Buckets, e: Event, cap: nat): (Buckets, Option<Decision>) {
    match e
    case Ask(id, at) => var (m', d) := Check(c, m, id, at, cap); (m', Some(d))
    case Clean(at, maxAge) => (Sweep(m, at, maxAge), None)
  }

  function RunOf(c: Config, m: Buckets, es: seq<Event>, cap: nat): Buckets
    decreases |es|
  {
    if es == [] then m else RunOf(c, Next(c, m, es[0], cap).0, es[1..], cap)
  }

  function Grants(c: Config, m: Buckets, es: seq<Event>, cap: nat, id: string): nat
    decreases |es|
  {
    if es == [] then 0
    else
      var (m', d) := Next(c, m, es[0], cap);
      (if d == Some(Granted) && es[0].Ask? && es[0].id == id then 1 else 0) + Grants(c, m', es[1..], cap, id)
  }

  /** Times lie between `lo` and `hi` and do not decrease; evictions are harmless. */
  ghost predicate Timely(c: Config, es: seq<Event>, lo: real, hi: real)
    decreases |es|
  {
    if es == [] then lo <= hi
    else lo <= es[0].at <= hi && (es[0].Clean? ==> Harmless(c, es[0].maxAge)) && Timely(c, es[1..], es[0].at, hi)
  }

  lemma NextByLevel(c: Config, m: Buckets, e: Event, cap: nat, id: string)
    requires Sound(c) && Sane(c, m, e.at) && Harmless(c, PRESSURE_AGE) && (e.Clean? ==> Harmless(c, e.maxAge))
    ensures var (m', d) := Next(c, m, e, cap);
            && Sane(c, m', e.at)
            && Level(c, m', id, e.at) == Level(c, m, id, e.at) - if e.Ask? && e.id == id && d == Some(Granted) then 1.0 else 0.0
  {
    match e
    case Ask(who, at) => CheckByLevel(c, m, who, at, cap, id);
    case Clean(at, maxAge) => SweepKeepsLevel(c, m, id, at, maxAge);
  }

  lemma {:induction false} GrantsAndLevel(c: Config, m: Buckets, es: seq<Event>, cap: nat, id: string, lo: real, hi: real)
    requires Sound(c) && Sane(c, m, lo) && Harmless(c, PRESSURE_AGE) && Timely(c, es, lo, hi)
    ensures var m' := RunOf(c, m, es, cap);
            && Sane(c, m', hi)
            && Level(c, m', id, hi) + Grants(c, m, es, cap, id) as real <= Level(c, m, id, lo) + Gain(c, hi - lo)
    decreases |es|
  {
    if es == [] {
      LevelLater(c, m, id, lo, hi);
    } else {
      var at := es[0].at;
      LevelLater(c, m, id, lo, at);
      NextByLevel(c, m, es[0], cap, id);
      GrantsAndLevel(c, Next(c, m, es[0], cap).0, es[1..], cap, id, at, hi);
      GainAdds(c, hi - at, at - lo, hi - lo);
    }
  }

  /**
   * The limit. In any interval of any run, with other identities interleaved
   * and stale buckets evicted, an identity is granted at most the bucket size
   * plus what the refill rate yields over the interval.
   */
  lemma GrantsBounded(c: Config, m: Buckets, es: seq<Event>, cap: nat, id: string, lo: real, hi: real)
    requires Sound(c) && Sane(c, m, lo) && Harmless(c, PRESSURE_AGE) && Timely(c, es, lo, hi)
    ensures Grants(c, m, es, cap, id) as real <= c.maxTokens + Gain(c, hi - lo)
  {
    GrantsAndLevel(c, m, es, cap, id, lo, hi);
    LevelRange(c, m, id, lo);
    LevelRange(c, RunOf(c, m, es, cap), id, hi);
  }

  // ---- Eviction changes no decision, exactly when it is harmless ----

  /** The simple limiter: one bucket per identity, no cap, no eviction. */
  function CheckFree(c: Config, n: Buckets, id: string, now: real): (Buckets, Decision) {
    var (b, ok) := Consume(c, if id in n then n[id] else Bucket(c.maxTokens, now), now);
    (n[id := b], if ok then Granted else Limited)
  }

  /** Every request not turned away for lack of room is decided as the simple limiter decides it. */
  ghost predicate Agrees(c: Config, m: Buckets, n: Buckets, es: seq<Event>, cap: nat)
    decreases |es|
  {
    if es == [] then true
    else match es[0]
         case Clean(at, maxAge) => Agrees(c, Sweep(m, at, maxAge), n, es[1..], cap)
         case Ask(id, at) =>
           var (m', d) := Check(c, m, id, at, cap);
           var (n', r) := CheckFree(c, n, id, at);
           if d == TooMany then Agrees(c, m', n, es[1..], cap)
           else d == r && Agrees(c, m', n', es[1..], cap)
  }

  ghost predicate SameLevels(c: Config, m: Buckets, n: Buckets, now: real) {
    forall k :: Level(c, m, k, now) == Level(c, n, k, now)
  }

  lemma SameLevelsLater(c: Config, m: Buckets, n: Buckets, t: real, t': real)
    requires Sound(c) && Sane(c, m, t) && Sane(c, n, t) && t <= t' && SameLevels(c, m, n, t)
    ensures SameLevels(c, m, n, t')
  {
    forall k
      ensures Level(c, m, k, t') == Level(c, n, k, t')
    {
      LevelLater(c, m, k, t, t');
      LevelLater(c, n, k, t, t');
    }
  }

  lemma FreeByLevel(c: Config, n: Buckets, id: string, now: real, k: string)
    requires Sound(c) && Sane(c, n, now)
    ensures var (n', d) := CheckFree(c, n, id, now);
            && Sane(c, n', now)
            && (d == if Level(c, n, id, now) >= 1.0 then Granted else Limited)
            && Level(c, n', k, now) == Level(c, n, k, now) - if k == id && d == Granted then 1.0 else 0.0
  {
    var b := if id in n then n[id] else Bucket(c.maxTokens, now);
    ConsumeByLevel(c, b, now);
    RefilledRange(c, b, now);
  }

  lemma AskAgrees(c: Config, m: Buckets, n: Buckets, id: string, at: real, cap: nat)
    requires Sound(c) && Sane(c, m, at) && Sane(c, n, at) && Harmless(c, PRESSURE_AGE) && SameLevels(c, m, n, at)
    ensures var (m', d) := Check(c, m, id, at, cap);
            var (n', r) := CheckFree(c, n, id, at);
            && Sane(c, m', at) && Sane(c, n', at)
            && (if d == TooMany then SameLevels(c, m', n, at) else d == r && SameLevels(c, m', n', at))
  {
    var (m', d) := Check(c, m, id, at, cap);
    var (n', r) := CheckFree(c, n, id, at);
    CheckByLevel(c, m, id, at, cap, id);
    FreeByLevel(c, n, id, at, id);
    forall k
      ensures Level(c, m', k, at) == Level(c, if d == TooMany then n else n', k, at)
    {
      CheckByLevel(c, m, id, at, cap, k);
      FreeByLevel(c, n, id, at, k);
    }
  }

  /**
   * The bounded limiter refines the simple one: with harmless evictions, forced
   * or periodic, no grant or refusal ever differs.
   */
  lemma {:induction false} EvictionInvisible(c: Config, m: Buckets, n: Buckets, es: seq<Event>, cap: nat, lo: real, hi: real)
    requires Sound(c) && Sane(c, m, lo) && Sane(c, n, lo) && SameLevels(c, m, n, lo)
    requires Harmless(c, PRESSURE_AGE) && Timely(c, es, lo, hi)
    ensures Agrees(c, m, n, es, cap)
    decreases |es|
  {
    if es != [] {
      var at := es[0].at;
      SameLevelsLater(c, m, n, lo, at);
      match es[0] {
        case Clean(_, maxAge) =>
          var m' := Sweep(m, at, maxAge);
          forall k
            ensures Level(c, m', k, at) == Level(c, n, k, at)
          {
            SweepKeepsLevel(c, m, k, at, maxAge);
          }
          SweepKeepsLevel(c, m, "", at, maxAge);
          EvictionInvisible(c, m', n, es[1..], cap, at, hi);
        case Ask(id, _) =>
          AskAgrees(c, m, n, id, at, cap);
          var (m', d) := Check(c, m, id, at, cap);
          EvictionInvisible(c, m', if d == TooMany then n else CheckFree(c, n, id, at).0, es[1..], cap, at, hi);
      }
    }
  }

  // The other direction: a burst, an eviction that comes too early, and the same burst again.

  function Burst(j: nat, at: real): seq<Event> {
    if j == 0 then [] else [Ask("x", at)] + Burst(j - 1, at)
  }

  function Alone(b: Bucket): Buckets {
    map["x" := b]
  }

  lemma ConsumeNow(c: Config, tokens: real, at: real)
    requires Sound(c) && 0.0 <= tokens <= c.maxTokens
    ensures Consume(c, Bucket(tokens, at), at) == if tokens >= 1.0 then (Bucket(tokens - 1.0, at), true) else (Bucket(tokens, at), false)
  {
    GainNonNeg(c, at - at);
  }

  function Spent(tokens: real): real {
    if tokens >= 1.0 then tokens - 1.0 else tokens
  }

  lemma AloneAsk(c: Config, a: real, b: real, at: real, rest: seq<Event>, cap: nat)
    requires Sound(c) && 0.0 <= a <= c.maxTokens && 0.0 <= b <= c.maxTokens
    ensures Agrees(c, Alone(Bucket(a, at)), Alone(Bucket(b, at)), [Ask("x", at)] + rest, cap) <==>
            ((a >= 1.0 <==> b >= 1.0) && Agrees(c, Alone(Bucket(Spent(a), at)), Alone(Bucket(Spent(b), at)), rest, cap))
  {
    ConsumeNow(c, a, at);
    ConsumeNow(c, b, at);
    assert ([Ask("x", at)] + rest)[1..] == rest;
    assert Check(c, Alone(Bucket(a, at)), "x", at, cap).0 == Alone(Bucket(Spent(a), at));
    assert CheckFree(c, Alone(Bucket(b, at)), "x", at).0 == Alone(Bucket(Spent(b), at));
  }

  /** Two balances that answer `j` requests alike. */
  predicate SameAnswers(a: real, b: real, j: nat) {
    j == 0 || ((a >= 1.0 <==> b >= 1.0) && SameAnswers(Spent(a), Spent(b), j - 1))
  }

  function SpentN(a: real, j: nat): real {
    if j == 0 then a else SpentN(Spent(a), j - 1)
  }

  lemma {:induction false} BurstUnfolds(c: Config, a: real, b: real, at: real, j: nat, rest: seq<Event>, cap: nat)
    requires Sound(c) && 0.0 <= a <= c.maxTokens && 0.0 <= b <= c.maxTokens
    ensures Agrees(c, Alone(Bucket(a, at)), Alone(Bucket(b, at)), Burst(j, at) + rest, cap) <==>
            (SameAnswers(a, b, j) && Agrees(c, Alone(Bucket(SpentN(a, j), at)), Alone(Bucket(SpentN(b, j), at)), rest, cap))
    decreases j
  {
    if j == 0 {
      assert Burst(0, at) + rest == rest;
    } else {
      var tail := Burst(j - 1, at) + rest;
      assert Burst(j, at) + rest == [Ask("x", at)] + tail;
      AloneAsk(c, a, b, at, tail, cap);
      BurstUnfolds(c, Spent(a), Spent(b), at, j - 1, rest, cap);
    }
  }

  lemma {:induction false} EqualAnswers(a: real, j: nat)
    ensures SameAnswers(a, a, j)
    ensures a >= j as real ==> SpentN(a, j) == a - j as real
  {
    if j > 0 {
      EqualAnswers(Spent(a), j - 1);
    }
  }

  lemma {:induction false} RicherAnswersDiffer(a: real, b: real, j: nat)
    requires 0.0 <= b < j as real <= a
    ensures !SameAnswers(a, b, j)
  {
    if b >= 1.0 {
      RicherAnswersDiffer(a - 1.0, b - 1.0, j - 1);
    }
  }

  lemma SpanBetween(c: Config, maxAge: real) returns (d: real)
    requires Sound(c) && maxAge >= 0.0 && !Harmless(c, maxAge)
    ensures d > maxAge && Gain(c, d) < c.maxTokens
  {
    if c.rate == 0.0 {
      d := maxAge + 1.0;
    } else {
      var short := c.maxTokens - Gain(c, maxAge);
      var step := short / (2.0 * c.rate);
      assert step * c.rate == short / 2.0;
      d := maxAge + step;
      GainAdds(c, maxAge, step, d);
    }
  }

  /** Spending the burst, being forgotten, and asking again. */
  function SpendForgetSpend(k: nat, d: real, maxAge: real): seq<Event> {
    Burst(k, 0.0) + ([Clean(d, maxAge)] + Burst(k, d))
  }

  /**
   * For a whole number of tokens, every age that is not harmless has a run in
   * which eviction changes a decision: the forgotten bucket comes back full
   * while the remembered one would still be refilling.
   */
  lemma EarlyEvictionVisible(c: Config, k: nat, maxAge: real, cap: nat) returns (d: real)
    requires Sound(c) && k >= 1 && c.maxTokens == k as real && maxAge >= 0.0 && cap >= 1
    requires !Harmless(c, maxAge)
    ensures var full := Alone(Bucket(c.maxTokens, 0.0));
            !Agrees(c, full, full, SpendForgetSpend(k, d, maxAge), cap)
  {
    d := SpanBetween(c, maxAge);
    var rest := [Clean(d, maxAge)] + Burst(k, d);
    BurstUnfolds(c, c.maxTokens, c.maxTokens, 0.0, k, rest, cap);
    EqualAnswers(c.maxTokens, k);
    var empty := Alone(Bucket(c.maxTokens - k as real, 0.0));
    assert Sweep(empty, d, maxAge) == map[];
    assert rest[1..] == Burst(k, d) && Burst(k, d)[1..] == Burst(k - 1, d);
    ForgottenDiffers(c, k, d, cap);
  }

  lemma ForgottenDiffers(c: Config, k: nat, d: real, cap: nat)
    requires Sound(c) && k >= 1 && c.maxTokens == k as real && cap >= 1 && d >= 0.0 && Gain(c, d) < c.maxTokens
    ensures !Agrees(c, map[], Alone(Bucket(0.0, 0.0)), Burst(k, d), cap)
  {
    var b := Gain(c, d);
    GainNonNeg(c, d);
    FirstAnswers(c, k, d, b, cap);
    assert Burst(k, d)[1..] == Burst(k - 1, d);
    if b >= 1.0 {
      RicherAnswersDiffer(c.maxTokens - 1.0, b - 1.0, k - 1);
      BurstUnfolds(c, c.maxTokens - 1.0, b - 1.0, d, k - 1, [], cap);
      assert Burst(k - 1, d) + [] == Burst(k - 1, d);
    }
  }

  lemma ConsumeRefilled(c: Config, b: Bucket, now: real, t: real)
    requires t == Refilled(c, b, now)
    ensures Consume(c, b, now) == if t >= 1.0 then (Bucket(t - 1.0, now), true) else (Bucket(t, now), false)
  {
  }

  /** The first answers of the limiter that forgot and of the one that did not. */
  lemma FirstAnswers(c: Config, k: nat, d: real, b: real, cap: nat)
    requires Sound(c) && k >= 1 && c.maxTokens == k as real && cap >= 1 && d >= 0.0 && 0.0 <= b == Gain(c, d) < c.maxTokens
    ensures Check(c, map[], "x", d, cap) == (Alone(Bucket(c.maxTokens - 1.0, d)), Granted)
    ensures CheckFree(c, Alone(Bucket(0.0, 0.0)), "x", d) ==
            if b >= 1.0 then (Alone(Bucket(b - 1.0, d)), Granted) else (Alone(Bucket(b, d)), Limited)
  {
    ConsumeNow(c, c.maxTokens, d);
    var spent := Bucket(0.0, 0.0);
    assert Refilled(c, spent, d) == b by {
      assert d - spent.last == d;
    }
    ConsumeRefilled(c, spent, d, b);
    assert forall x :: Alone(spent)["x" := x] == Alone(x);
  }

  // ---- The bound holds exactly when both evictions are harmless ----

  lemma AskNow(c: Config, m: Buckets, a: real, at: real, cap: nat)
    requires Sound(c) && 1.0 <= a <= c.maxTokens
    ensures Check(c, m["x" := Bucket(a, at)], "x", at, cap) == (m["x" := Bucket(a - 1.0, at)], Granted)
  {
    ConsumeNow(c, a, at);
    assert m["x" := Bucket(a, at)]["x" := Bucket(a - 1.0, at)] == m["x" := Bucket(a - 1.0, at)];
  }

  /** Grants to an identity with so many tokens left. */
  function GrantsFrom(c: Config, m: Buckets, tokens: real, at: real, es: seq<Event>, cap: nat): nat {
    Grants(c, m["x" := Bucket(tokens, at)], es, cap, "x")
  }

  lemma AskThen(c: Config, m: Buckets, a: real, at: real, tail: seq<Event>, cap: nat)
    requires Sound(c) && 1.0 <= a <= c.maxTokens
    ensures GrantsFrom(c, m, a, at, [Ask("x", at)] + tail, cap) == 1 + GrantsFrom(c, m, a - 1.0, at, tail, cap)
  {
    AskNow(c, m, a, at, cap);
    assert ([Ask("x", at)] + tail)[1..] == tail;
  }

  /** A burst from a bucket that covers it is granted in full, whoever else is tracked. */
  lemma {:induction false} BurstGrants(c: Config, m: Buckets, a: real, b: real, at: real, j: nat, rest: seq<Event>, cap: nat)
    requires Sound(c) && 0.0 <= b && a == b + j as real && a <= c.maxTokens
    ensures GrantsFrom(c, m, a, at, Burst(j, at) + rest, cap) == j + GrantsFrom(c, m, b, at, rest, cap)
    decreases j
  {
    var es := Burst(j, at) + rest;
    if j == 0 {
      assert es == rest && a == b;
    } else {
      var a', tail := a - 1.0, Burst(j - 1, at) + rest;
      assert GrantsFrom(c, m, a, at, es, cap) == 1 + GrantsFrom(c, m, a', at, tail, cap) by {
        AskThen(c, m, a, at, tail, cap);
        assert es == [Ask("x", at)] + tail;
      }
      assert GrantsFrom(c, m, a', at, tail, cap) == j - 1 + GrantsFrom(c, m, b, at, rest, cap) by {
        BurstGrants(c, m, a', b, at, j - 1, rest, cap);
      }
    }
  }

  /** An identity the limiter has room for and does not remember starts with a full bucket. */
  lemma ForgottenGrants(c: Config, m: Buckets, k: nat, at: real, cap: nat)
    requires Sound(c) && k >= 1 && c.maxTokens == k as real && "x" !in m && |m| < cap
    ensures Grants(c, m, Burst(k, at), cap, "x") == k
  {
    var m1 := m["x" := Bucket(c.maxTokens - 1.0, at)];
    ConsumeNow(c, c.maxTokens, at);
    assert Check(c, m, "x", at, cap) == (m1, Granted);
    assert Burst(k, at)[1..] == Burst(k - 1, at);
    BurstGrants(c, m, c.maxTokens - 1.0, 0.0, at, k - 1, [], cap);
    assert Burst(k - 1, at) + [] == Burst(k - 1, at);
  }

  /** Two full bursts around an event that makes the limiter forget. */
  lemma TwoBursts(c: Config, m: Buckets, m': Buckets, k: nat, e: Event, cap: nat)
    requires Sound(c) && k >= 1 && c.maxTokens == k as real
    requires Next(c, m["x" := Bucket(0.0, 0.0)], e, cap).0 == m' && "x" !in m' && |m'| < cap
    requires e.Ask? ==> e.id != "x"
    ensures Grants(c, m["x" := Bucket(c.maxTokens, 0.0)], Burst(k, 0.0) + ([e] + Burst(k, e.at)), cap, "x") == 2 * k
  {
    BurstGrants(c, m, c.maxTokens, 0.0, 0.0, k, [e] + Burst(k, e.at), cap);
    assert ([e] + Burst(k, e.at))[1..] == Burst(k, e.at);
    ForgottenGrants(c, m', k, e.at, cap);
  }

  /** Times lie between `lo` and `hi` and do not decrease; periodic evictions have the given age. */
  ghost predicate Timed(es: seq<Event>, lo: real, hi: real, maxAge: real)
    decreases |es|
  {
    if es == [] then lo <= hi
    else lo <= es[0].at <= hi && (es[0].Clean? ==> es[0].maxAge == maxAge) && Timed(es[1..], es[0].at, hi, maxAge)
  }

  /** More grants than bucket size and refill allow. */
  ghost predicate Overruns(c: Config, m: Buckets, es: seq<Event>, cap: nat, id: string, lo: real, hi: real, maxAge: real) {
    Sane(c, m, lo) && Timed(es, lo, hi, maxAge) && Grants(c, m, es, cap, id) as real > c.maxTokens + Gain(c, hi - lo)
  }

  lemma {:induction false} BurstTimed(j: nat, at: real, rest: seq<Event>, hi: real, maxAge: real)
    requires Timed(rest, at, hi, maxAge) && at <= hi
    ensures Timed(Burst(j, at) + rest, at, hi, maxAge)
    decreases j
  {
    if j == 0 {
      assert Burst(0, at) + rest == rest;
    } else {
      BurstTimed(j - 1, at, rest, hi, maxAge);
      assert (Burst(j, at) + rest)[1..] == Burst(j - 1, at) + rest;
    }
  }

  lemma TwoBurstsTimed(k: nat, e: Event, maxAge: real)
    requires e.at >= 0.0 && (e.Clean? ==> e.maxAge == maxAge)
    ensures Timed(Burst(k, 0.0) + ([e] + Burst(k, e.at)), 0.0, e.at, maxAge)
  {
    BurstTimed(k, e.at, [], e.at, maxAge);
    assert Burst(k, e.at) + [] == Burst(k, e.at);
    assert ([e] + Burst(k, e.at))[1..] == Burst(k, e.at);
    BurstTimed(k, 0.0, [e] + Burst(k, e.at), e.at, maxAge);
  }

  /** A periodic eviction that is not harmless lets one identity through twice in less time than its bucket refills. */
  lemma EarlySweepOverruns(c: Config, k: nat, maxAge: real, cap: nat) returns (d: real)
    requires Sound(c) && k >= 1 && c.maxTokens == k as real && maxAge >= 0.0 && cap >= 1 && !Harmless(c, maxAge)
    ensures Overruns(c, Alone(Bucket(c.maxTokens, 0.0)), SpendForgetSpend(k, d, maxAge), cap, "x", 0.0, d, maxAge)
  {
    d := SpanBetween(c, maxAge);
    var e := Clean(d, maxAge);
    assert Sweep(Alone(Bucket(0.0, 0.0)), d, maxAge) == map[];
    TwoBursts(c, map[], map[], k, e, cap);
    TwoBurstsTimed(k, e, maxAge);
    assert d - 0.0 == d;
  }

  function Name(n: nat): (s: string)
    ensures |s| == n && (n > 0 ==> s[0] == 'z')
  {
    if n == 0 then "" else ['z'] + Name(n - 1)
  }

  /** `n` identities that have not asked since time zero. */
  function Crowd(c: Config, n: nat): (m: Buckets)
    ensures |m| == n && "x" !in m && "y" !in m
    ensures forall id :: id in m ==> m[id] == Bucket(c.maxTokens, 0.0) && |id| < n
  {
    if n == 0 then map[]
    else
      var rest := Crowd(c, n - 1);
      assert Name(n - 1) !in rest && "x"[0] != 'z' && "y"[0] != 'z';
      rest[Name(n - 1) := Bucket(c.maxTokens, 0.0)]
  }

  /** So does the eviction a full table forces, when a newcomer asks. */
  lemma PressureOverruns(c: Config, k: nat, maxAge: real, cap: nat) returns (d: real)
    requires Sound(c) && k >= 1 && c.maxTokens == k as real && cap >= 2 && !Harmless(c, PRESSURE_AGE)
    ensures Overruns(c, Crowd(c, cap - 1)["x" := Bucket(c.maxTokens, 0.0)],
                     Burst(k, 0.0) + ([Ask("y", d)] + Burst(k, d)), cap, "x", 0.0, d, maxAge)
  {
    d := SpanBetween(c, PRESSURE_AGE);
    var e, m := Ask("y", d), Crowd(c, cap - 1);
    var m0 := m["x" := Bucket(0.0, 0.0)];
    assert |m0| == cap && "y" !in m0;
    assert Sweep(m0, d, PRESSURE_AGE) == map[];
    var m' := Check(c, m0, "y", d, cap).0;
    assert m'.Keys == {"y"} && |m'| == |m'.Keys|;
    TwoBursts(c, m, m', k, e, cap);
    TwoBurstsTimed(k, e, maxAge);
    assert d - 0.0 == d;
  }

  lemma {:induction false} TimedIsTimely(c: Config, es: seq<Event>, lo: real, hi: real, maxAge: real)
    requires Timed(es, lo, hi, maxAge) && Harmless(c, maxAge)
    ensures Timely(c, es, lo, hi)
    decreases |es|
  {
    if es != [] {
      TimedIsTimely(c, es[1..], es[0].at, hi, maxAge);
    }
  }

  /**
   * No run grants more than the bucket size plus the refill, whatever its
   * interval, if and only if neither the periodic nor the forced eviction
   * forgets a bucket before it would be full.
   */
  lemma BoundedIff(c: Config, k: nat, maxAge: real, cap: nat)
    requires Sound(c) && k >= 1 && c.maxTokens == k as real && maxAge >= 0.0 && cap >= 2
    ensures (forall m, es, id, lo, hi :: !Overruns(c, m, es, cap, id, lo, hi, maxAge)) <==>
            Harmless(c, maxAge) && Harmless(c, PRESSURE_AGE)
  {
    if Harmless(c, maxAge) && Harmless(c, PRESSURE_AGE) {
      forall m, es, id, lo, hi
        ensures !Overruns(c, m, es, cap, id, lo, hi, maxAge)
      {
        if Sane(c, m, lo) && Timed(es, lo, hi, maxAge) {
          TimedIsTimely(c, es, lo, hi, maxAge);
          GrantsBounded(c, m, es, cap, id, lo, hi);
        }
      }
    } else if !Harmless(c, maxAge) {
      var d := EarlySweepOverruns(c, k, maxAge, cap);
    } else {
      var d := PressureOverruns(c, k, maxAge, cap);
    }
  }

  // ---- Slowmode ----

  datatype SlowEvent = Post(key: string, slowmode: real, at: real) | Forget(at: real, maxAge: real)

  type Stamps = map<string, real>

  function SweepStamps(m: Stamps, now: real, maxAge: real): Stamps {
    map k | k in m && !(now - m[k] > maxAge) :: m[k]
  }

  function CheckSlow(m: Stamps, key: string, slowmode: real, now: real, cap: nat): (Stamps, Decision) {
    if slowmode <= 0.0 then (m, Granted)
    else
      var m1 := if |m| >= cap then SweepStamps(m, now, PRESSURE_AGE) else m;
      if |m1| >= cap then (m1, TooMany)
      else if now - (if key in m1 then m1[key] else 0.0) < slowmode then (m1, Limited)
      else (m1[key := now], Granted)
  }

  /** A full table is swept; a post is turned away if that makes no room, and otherwise let through exactly when the key's last one is at least the slowmode ago. */
  lemma SlowmodeIff(m: Stamps, key: string, slowmode: real, now: real, cap: nat)
    requires slowmode > 0.0
    ensures var (m', d) := CheckSlow(m, key, slowmode, now, cap);
            var m1 := if |m| < cap then m else SweepStamps(m, now, 600.0);
            && (d == TooMany <==> |m1| >= cap)
            && (d == Granted <==> |m1| < cap && (if key in m1 then now - m1[key] else now) >= slowmode)
            && m' == if d == Granted then m1[key := now] else m1
  {
  }

  lemma NoSlowmode(m: Stamps, key: string, slowmode: real, now: real, cap: nat)
    requires slowmode <= 0.0
    ensures CheckSlow(m, key, slowmode, now, cap) == (m, Granted)
  {
  }

  /** `last` is when each key was last accepted under a slowmode. */
  datatype Slow = Slow(stamps: Stamps, last: Stamps, clock: real)

  function NextSlow(s: Slow, e: SlowEvent, cap: nat): (Slow, Option<Decision>) {
    match e
    case Forget(at, maxAge) => (s.(stamps := SweepStamps(s.stamps, at, maxAge), clock := at), None)
    case Post(key, slowmode, at) =>
      var (m, d) := CheckSlow(s.stamps, key, slowmode, at, cap);
      (Slow(m, if d == Granted && slowmode > 0.0 then s.last[key := at] else s.last, at), Some(d))
  }

  /** Time moves on, and nothing younger than `age` is ever swept. */
  predicate SlowTimely(s: Slow, e: SlowEvent, age: real) {
    s.clock <= e.at && (e.Forget? ==> e.maxAge >= age)
  }

  /** A key is remembered with its last acceptance, or that is more than `age` ago. */
  ghost predicate Remembers(s: Slow, age: real) {
    && (forall k :: k in s.stamps ==> k in s.last && s.stamps[k] == s.last[k])
    && (forall k :: k in s.last && k !in s.stamps ==> s.clock - s.last[k] > age)
  }

  /** Every acceptance under slowmode `s` comes at least `s` after the previous one. */
  predicate Spaced(s: Slow, e: SlowEvent, cap: nat) {
    e.Post? && e.slowmode > 0.0 && NextSlow(s, e, cap).1 == Some(Granted) && e.key in s.last ==> e.at - s.last[e.key] >= e.slowmode
  }

  ghost predicate AllSpaced(s: Slow, es: seq<SlowEvent>, cap: nat)
    decreases |es|
  {
    es == [] || (Spaced(s, es[0], cap) && AllSpaced(NextSlow(s, es[0], cap).0, es[1..], cap))
  }

  ghost predicate SlowRun(s: Slow, es: seq<SlowEvent>, age: real, cap: nat)
    decreases |es|
  {
    es == [] || (SlowTimely(s, es[0], age) && (es[0].Post? ==> es[0].slowmode <= age) && SlowRun(NextSlow(s, es[0], cap).0, es[1..], age, cap))
  }

  lemma SlowStep(s: Slow, e: SlowEvent, age: real, cap: nat)
    requires Remembers(s, age) && SlowTimely(s, e, age) && age <= PRESSURE_AGE && (e.Post? ==> e.slowmode <= age)
    ensures Spaced(s, e, cap) && Remembers(NextSlow(s, e, cap).0, age)
  {
  }

  /** Slowmode holds in every run, as long as no slowmode exceeds the youngest age that is swept. */
  lemma {:induction false} SlowmodeHolds(s: Slow, es: seq<SlowEvent>, age: real, cap: nat)
    requires Remembers(s, age) && age <= PRESSURE_AGE && SlowRun(s, es, age, cap)
    ensures AllSpaced(s, es, cap)
    decreases |es|
  {
    if es != [] {
      SlowStep(s, es[0], age, cap);
      SlowmodeHolds(NextSlow(s, es[0], cap).0, es[1..], age, cap);
    }
  }

  /** And not beyond: any longer slowmode is broken by one sweep at that age. */
  lemma LongSlowmodeBreaks(slowmode: real, age: real, cap: nat)
    requires 0.0 <= age < slowmode && cap >= 2
    ensures var t := slowmode + (age + slowmode) / 2.0;
            var es := [Post("k", slowmode, slowmode), Forget(t, age), Post("k", slowmode, t)];
            !AllSpaced(Slow(map[], map[], 0.0), es, cap)
  {
    var t := slowmode + (age + slowmode) / 2.0;
    var es := [Post("k", slowmode, slowmode), Forget(t, age), Post("k", slowmode, t)];
    var s0 := Slow(map[], map[], 0.0);
    var s1 := NextSlow(s0, es[0], cap).0;
    assert s1 == Slow(map["k" := slowmode], map["k" := slowmode], slowmode);
    var s2 := NextSlow(s1, es[1], cap).0;
    assert s2 == Slow(map[], map["k" := slowmode], t);
    assert !Spaced(s2, es[2], cap);
    assert es[1..] == [es[1], es[2]] && es[1..][1..] == [es[2]];
    assert !AllSpaced(s2, [es[2]], cap);
    assert !AllSpaced(s1, es[1..], cap);
  }

  // ---- The limiter object ----

  class RateLimiter {
    const config: Config
    var buckets: Buckets
    var stamps: Stamps

    constructor (config: Config)
      ensures this.config == config && buckets == map[] && stamps == map[]
    {
      this.config, buckets, stamps := config, map[], map[];
    }

    /** Both tables lose their stale entries in one go. */
    method CleanupStale(maxAge: real, now: real)
      modifies this
      ensures buckets == Sweep(old(buckets), now, maxAge) && stamps == SweepStamps(old(stamps), now, maxAge)
    {
      var stale := set k | k in buckets && now - buckets[k].last > maxAge;
      buckets := buckets - stale;
      var staleSlow := set k | k in stamps && now - stamps[k] > maxAge;
      stamps := stamps - staleSlow;
    }

    method CheckRateLimit(id: string, now: real) returns (d: Decision)
      modifies this
      ensures (buckets, d) == Check(config, old(buckets), id, now, MAX_TRACKED)
      ensures stamps == if id !in old(buckets) && |old(buckets)| >= MAX_TRACKED then SweepStamps(old(stamps), now, PRESSURE_AGE) else old(stamps)
    {
      if id !in buckets && |buckets| >= MAX_TRACKED {
        CleanupStale(PRESSURE_AGE, now);
        if |buckets| >= MAX_TRACKED {
          return TooMany;
        }
      }
      ghost var known := buckets;
      if id !in buckets {
        buckets := buckets[id := Bucket(config.maxTokens, now)];
      }
      d := TakeToken(id, now);
      assert buckets == known[id := buckets[id]];
    }

    /** `TokenBucket.consume` on the identity's bucket. */
    method TakeToken(id: string, now: real) returns (d: Decision)
      requires id in buckets
      modifies this`buckets
      ensures var (b, ok) := Consume(config, old(buckets)[id], now);
              buckets == old(buckets)[id := b] && d == if ok then Granted else Limited
    {
      var b := buckets[id];
      var tokens := MinR(config.maxTokens, b.tokens + Gain(config, now - b.last));
      if tokens >= 1.0 {
        buckets := buckets[id := Bucket(tokens - 1.0, now)];
        return Granted;
      }
      buckets := buckets[id := Bucket(tokens, now)];
      return Limited;
    }

    method CheckSlowmode(key: string, slowmode: real, now: real) returns (d: Decision)
      modifies this
      ensures (stamps, d) == CheckSlow(old(stamps), key, slowmode, now, MAX_TRACKED)
      ensures buckets == if slowmode > 0.0 && |old(stamps)| >= MAX_TRACKED then Sweep(old(buckets), now, PRESSURE_AGE) else old(buckets)
    {
      if slowmode <= 0.0 {
        return Granted;
      }
      if |stamps| >= MAX_TRACKED {
        CleanupStale(PRESSURE_AGE, now);
        if |stamps| >= MAX_TRACKED {
          return TooMany;
        }
      }
      var last := if key in stamps then stamps[key] else 0.0;
      if now - last < slowmode {
        return Limited;
      }
      stamps := stamps[key := now];
      return Granted;
    }
  }
}
