/** The replay cache for request nonces: bounded, oldest acceptance evicted first, swept by age. */
module NonceCache {
  import opened Common

  type Nonce = seq<Byte>

  datatype Entry = Entry(nonce: Nonce, at: int)

  datatype Config = Config(max: nat, ttl: int)

  /** A nonce offered, with the sender's timestamp if there is one; a sweep of old entries; a clear. */
  datatype Event = Offer(nonce: Nonce, stamp: Option<int>, now: int) | Sweep(now: int) | Clear

  predicate Holds(seen: seq<Entry>, nonce: Nonce) {
    exists i :: 0 <= i < |seen| && seen[i].nonce == nonce
  }

  predicate Expired(c: Config, stamp: Option<int>, now: int) {
    stamp.Some? && c.ttl > 0 && now - stamp.value > c.ttl
  }

  predicate Accepts(c: Config, seen: seq<Entry>, e: Event) {
    e.Offer? && !Holds(seen, e.nonce) && !Expired(c, e.stamp, e.now)
  }

  function DropOld(seen: seq<Entry>, cutoff: int): seq<Entry> {
    if seen != [] && seen[0].at < cutoff then DropOld(seen[1..], cutoff) else seen
  }

  function Step(c: Config, seen: seq<Entry>, e: Event): seq<Entry> {
    match e
    case Offer(nonce, _, now) => if Accepts(c, seen, e) then LastN(seen + [Entry(nonce, now)], c.max) else seen
    case Sweep(now) => if c.ttl <= 0 then seen else DropOld(seen, now - c.ttl)
    case Clear => []
  }

  function After(c: Config, seen: seq<Entry>, es: seq<Event>): seq<Entry>
    decreases |es|
  {
    if es == [] then seen
    else
      var n := |es| - 1;
      Step(c, After(c, seen, es[..n]), es[n])
  }

  /** Every acceptance of a run, in order: the cache with no bound. */
  function Accepted(c: Config, seen: seq<Entry>, es: seq<Event>): seq<Entry>
    decreases |es|
  {
    if es == [] then []
    else
      var n := |es| - 1;
      Accepted(c, seen, es[..n]) + AcceptedBy(c, After(c, seen, es[..n]), es[n])
  }

  predicate OnlyOffers(es: seq<Event>) {
    forall i :: 0 <= i < |es| ==> es[i].Offer?
  }

  lemma LastNTwice<T>(s: seq<T>, x: T, m: nat)
    ensures LastN(LastN(s, m) + [x], m) == LastN(s + [x], m)
  {
  }

  /** Without sweeps the cache holds the last `max` acceptances of the whole run. */
  lemma {:induction false} CacheIsLatest(c: Config, es: seq<Event>)
    requires OnlyOffers(es)
    ensures After(c, [], es) == LastN(Accepted(c, [], es), c.max)
    decreases |es|
  {
    if es != [] {
      var n := |es| - 1;
      var s, acc := After(c, [], es[..n]), Accepted(c, [], es[..n]);
      CacheIsLatest(c, es[..n]);
      if Accepts(c, s, es[n]) {
        LastNTwice(acc, Entry(es[n].nonce, es[n].now), c.max);
      } else {
        assert acc + [] == acc;
      }
    }
  }

  /** So an offer is refused as a replay exactly when its nonce is among the last `max` accepted ones. */
  lemma AcceptedIff(c: Config, es: seq<Event>, nonce: Nonce, stamp: Option<int>, now: int)
    requires OnlyOffers(es)
    ensures Accepts(c, After(c, [], es), Offer(nonce, stamp, now)) <==>
            && (stamp.Some? && c.ttl > 0 ==> now - stamp.value <= c.ttl)
            && forall x :: x in LastN(Accepted(c, [], es), c.max) ==> x.nonce != nonce
  {
    CacheIsLatest(c, es);
  }

  // ---- How long one acceptance is remembered ----

  predicate EndsWith(seen: seq<Entry>, t: seq<Entry>) {
    |t| <= |seen| && seen[|seen| - |t|..] == t
  }

  /** No clear, and no sweep late enough to expire an entry made at `t`. */
  predicate Spares(c: Config, es: seq<Event>, t: int) {
    forall i :: 0 <= i < |es| ==> SparesOne(c, es[i], t)
  }

  lemma {:induction false} DropOldSpares(seen: seq<Entry>, cutoff: int, t: seq<Entry>)
    requires EndsWith(seen, t) && t != [] && t[0].at >= cutoff
    ensures EndsWith(DropOld(seen, cutoff), t)
    decreases |seen|
  {
    if seen[0].at < cutoff {
      assert |seen| > |t|;
      assert seen[1..][|seen| - 1 - |t|..] == seen[|seen| - |t|..];
      DropOldSpares(seen[1..], cutoff, t);
    }
  }

  lemma AppendKeeps(seen: seq<Entry>, y: Entry, m: nat, t: seq<Entry>)
    requires EndsWith(seen, t) && |t| + 1 <= m
    ensures EndsWith(LastN(seen + [y], m), t + [y])
  {
  }

  function AcceptedBy(c: Config, seen: seq<Entry>, e: Event): seq<Entry> {
    if Accepts(c, seen, e) then [Entry(e.nonce, e.now)] else []
  }

  predicate SparesOne(c: Config, e: Event, t: int) {
    !e.Clear? && (e.Sweep? && c.ttl > 0 ==> e.now - c.ttl <= t)
  }

  lemma StepKeeps(c: Config, s: seq<Entry>, e: Event, t: seq<Entry>)
    requires EndsWith(s, t) && t != [] && SparesOne(c, e, t[0].at) && |t + AcceptedBy(c, s, e)| <= c.max
    ensures EndsWith(Step(c, s, e), t + AcceptedBy(c, s, e))
  {
    if Accepts(c, s, e) {
      AppendKeeps(s, Entry(e.nonce, e.now), c.max, t);
    } else {
      assert t + [] == t;
      if e.Sweep? && c.ttl > 0 {
        DropOldSpares(s, e.now - c.ttl, t);
      }
    }
  }

  /** An entry outlives fewer than `max` later acceptances, and those stand behind it in the cache. */
  lemma {:induction false} Remembered(c: Config, seen: seq<Entry>, es: seq<Event>, x: Entry)
    requires EndsWith(seen, [x]) && Spares(c, es, x.at) && |Accepted(c, seen, es)| < c.max
    ensures EndsWith(After(c, seen, es), [x] + Accepted(c, seen, es))
    decreases |es|
  {
    if es == [] {
      assert [x] + [] == [x];
    } else {
      var n := |es| - 1;
      var s, acc := After(c, seen, es[..n]), Accepted(c, seen, es[..n]);
      Remembered(c, seen, es[..n], x);
      StepKeeps(c, s, es[n], [x] + acc);
      assert [x] + acc + AcceptedBy(c, s, es[n]) == [x] + (acc + AcceptedBy(c, s, es[n]));
    }
  }

  lemma EndHolds(s: seq<Entry>, x: Entry, acc: seq<Entry>)
    requires EndsWith(s, [x] + acc)
    ensures Holds(s, x.nonce)
  {
    assert s[|s| - 1 - |acc|] == ([x] + acc)[0];
  }

  // ---- The acceptances that follow are of other nonces ----

  /** Nonces pairwise different, and different from `nonce`. */
  predicate Others(acc: seq<Entry>, nonce: Nonce) {
    && (forall i :: 0 <= i < |acc| ==> acc[i].nonce != nonce)
    && (forall i, j :: 0 <= i < j < |acc| ==> acc[i].nonce != acc[j].nonce)
  }

  lemma OthersGrow(s: seq<Entry>, x: Entry, acc: seq<Entry>, y: Entry)
    requires EndsWith(s, [x] + acc) && Others(acc, x.nonce) && !Holds(s, y.nonce)
    ensures Others(acc + [y], x.nonce)
  {
    var t := [x] + acc;
    forall i | 0 <= i < |t|
      ensures t[i].nonce != y.nonce
    {
      assert t[i] == s[|s| - |t| + i];
    }
    assert t[0] == x && forall i :: 0 <= i < |acc| ==> t[i + 1] == acc[i];
  }

  function FirstN(acc: seq<Entry>, n: nat): seq<Entry> {
    if |acc| <= n then acc else acc[..n]
  }

  /** The first `max` acceptances after an entry are of nonces other than its own and than each other. */
  lemma {:induction false} FollowersDiffer(c: Config, seen: seq<Entry>, es: seq<Event>, x: Entry)
    requires EndsWith(seen, [x]) && Spares(c, es, x.at)
    ensures Others(FirstN(Accepted(c, seen, es), c.max), x.nonce)
    decreases |es|
  {
    if es != [] {
      var n := |es| - 1;
      var e, s, acc := es[n], After(c, seen, es[..n]), Accepted(c, seen, es[..n]);
      FollowersDiffer(c, seen, es[..n], x);
      if |acc| >= c.max {
        assert FirstN(Accepted(c, seen, es), c.max) == FirstN(acc, c.max);
      } else if Accepts(c, s, e) {
        Remembered(c, seen, es[..n], x);
        OthersGrow(s, x, acc, Entry(e.nonce, e.now));
      }
    }
  }

  function Nonces(acc: seq<Entry>): set<Nonce> {
    set i | 0 <= i < |acc| :: acc[i].nonce
  }

  lemma {:induction false} OthersCount(acc: seq<Entry>, nonce: Nonce)
    requires Others(acc, nonce)
    ensures |Nonces(acc)| == |acc| && nonce !in Nonces(acc)
  {
    if acc != [] {
      var n := |acc| - 1;
      OthersCount(acc[..n], nonce);
      assert Nonces(acc) == Nonces(acc[..n]) + {acc[n].nonce};
    }
  }

  lemma Subset(a: set<Nonce>, b: set<Nonce>)
    requires a <= b
    ensures |a| <= |b|
  {
    assert b == a + (b - a);
  }

  predicate NotAfter(es: seq<Event>, t: int) {
    forall i :: 0 <= i < |es| ==> !es[i].Clear? && es[i].now <= t
  }

  /** A nonce is accepted, and later offered again. */
  predicate AcceptedTwice(c: Config, seen: seq<Entry>, first: Event, es: seq<Event>, again: Event) {
    && first.Offer? && again.Offer? && first.nonce == again.nonce
    && Accepts(c, seen, first) && Accepts(c, After(c, Step(c, seen, first), es), again)
  }

  /** Without clears and with only sweeps that spare it, `max` different other nonces were accepted in between. */
  lemma ReplayNeedsFlood(c: Config, seen: seq<Entry>, first: Event, es: seq<Event>, again: Event)
    requires AcceptedTwice(c, seen, first, es, again) && Spares(c, es, first.now)
    ensures |Nonces(Accepted(c, Step(c, seen, first), es)) - {first.nonce}| >= c.max
  {
    var s, x := Step(c, seen, first), Entry(first.nonce, first.now);
    if c.max > 0 {
      var acc := Accepted(c, s, es);
      assert EndsWith(s, [x]);
      FollowersDiffer(c, s, es, x);
      if |acc| < c.max {
        Remembered(c, s, es, x);
        EndHolds(After(c, s, es), x, acc);
        assert false;
      }
      OthersCount(FirstN(acc, c.max), x.nonce);
      Subset(Nonces(FirstN(acc, c.max)), Nonces(acc) - {x.nonce});
    }
  }

  /**
   * A sweep forgets only what the timestamp test refuses anyway: an offer
   * repeated with its own timestamp, not from the future, needs `max` different
   * other nonces in between whatever is swept.
   */
  lemma SweepsAreSafe(c: Config, seen: seq<Entry>, first: Event, es: seq<Event>, again: Event)
    requires AcceptedTwice(c, seen, first, es, again) && c.ttl > 0
    requires first.stamp.Some? && first.stamp == again.stamp && first.stamp.value <= first.now
    requires NotAfter(es, again.now)
    ensures |Nonces(Accepted(c, Step(c, seen, first), es)) - {first.nonce}| >= c.max
  {
    ReplayNeedsFlood(c, seen, first, es, again);
  }

  /** For a nonce without a timestamp, one sweep after the retention time lets it in again. */
  lemma SweepReopens(c: Config, nonce: Nonce, t: int, later: int)
    requires c.ttl > 0 && c.max > 0
    ensures AcceptedTwice(c, [], Offer(nonce, None, t), [Sweep(later)], Offer(nonce, None, later)) <==> later - t > c.ttl
  {
    var s, es := [Entry(nonce, t)], [Sweep(later)];
    assert [] + s == s && s[1..] == [] && es[..0] == [] && es[0] == Sweep(later);
    assert Accepts(c, [], Offer(nonce, None, t)) && Step(c, [], Offer(nonce, None, t)) == s;
    assert After(c, s, es) == Step(c, s, Sweep(later));
    var rest := s[1..];
    assert DropOld(rest, later - c.ttl) == rest;
    assert After(c, s, es) == if t < later - c.ttl then rest else s;
    assert s[0].nonce == nonce;
  }

  /** After a clear, whatever is not expired is accepted. */
  lemma ClearReopens(c: Config, seen: seq<Entry>, nonce: Nonce, stamp: Option<int>, now: int)
    ensures Accepts(c, Step(c, seen, Clear), Offer(nonce, stamp, now)) <==>
            (stamp.Some? && c.ttl > 0 ==> now - stamp.value <= c.ttl)
  {
  }

  /** A sweep drops the oldest entries as far as they are older than the retention, and none without a retention. */
  lemma {:induction false} SweepIs(seen: seq<Entry>, cutoff: int) returns (n: nat)
    ensures n <= |seen| && DropOld(seen, cutoff) == seen[n..]
    ensures forall i :: 0 <= i < n ==> seen[i].at < cutoff
    ensures n < |seen| ==> seen[n].at >= cutoff
    decreases |seen|
  {
    if seen != [] && seen[0].at < cutoff {
      n := SweepIs(seen[1..], cutoff);
      n := n + 1;
    } else {
      n := 0;
    }
  }

  // ---- The tracker ----

  /** The eviction loop: pop the oldest entry while there are too many. */
  method EvictOver(seen: seq<Entry>, max: nat) returns (r: seq<Entry>)
    ensures r == LastN(seen, max)
  {
    r := seen;
    while |r| > max
      invariant |r| >= Min(|seen|, max) && |r| <= |seen| && r == seen[|seen| - |r|..]
    {
      r := r[1..];
    }
  }

  class NonceTracker {
    const config: Config
    var seen: seq<Entry>

    constructor (config: Config)
      ensures this.config == config && seen == []
    {
      this.config := config;
      seen := [];
    }

    method CheckAndRecord(nonce: Nonce, stamp: Option<int>, now: int) returns (ok: bool)
      modifies this`seen
      ensures ok == Accepts(config, old(seen), Offer(nonce, stamp, now))
      ensures seen == Step(config, old(seen), Offer(nonce, stamp, now))
    {
      if exists i :: 0 <= i < |seen| && seen[i].nonce == nonce {
        return false;
      }
      if stamp.Some? && config.ttl > 0 {
        var age := now - stamp.value;
        if age > config.ttl {
          return false;
        }
      }
      seen := EvictOver(seen + [Entry(nonce, now)], config.max);
      ok := true;
    }

    method EvictExpired(now: int)
      modifies this`seen
      ensures seen == Step(config, old(seen), Sweep(now))
    {
      if config.ttl <= 0 {
        return;
      }
      var cutoff := now - config.ttl;
      while seen != [] && seen[0].at < cutoff
        invariant DropOld(seen, cutoff) == DropOld(old(seen), cutoff)
        decreases |seen|
      {
        seen := seen[1..];
      }
    }

    method ClearAll()
      modifies this`seen
      ensures seen == Step(config, old(seen), Clear)
    {
      seen := [];
    }
  }
}
