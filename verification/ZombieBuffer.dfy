/**
 * The zombie-link push buffer: a bounded deque of recent pushes per link,
 * trimmed by age on every record and handed over when the link dies.
 */
module ZombieBuffer {
  import opened Common

  type LinkId = nat

  datatype Item = Item(channel: string, event: string, data: string)

  datatype Entry = Entry(at: int, item: Item)

  /** The clock did not run backwards between pushes. */
  ghost predicate InOrder(h: seq<Entry>) {
    forall i, j :: 0 <= i < j < |h| ==> h[i].at <= h[j].at
  }

  function Fresh(h: seq<Entry>, cutoff: int): seq<Entry> {
    if h == [] then []
    else
      var rest := Fresh(h[..|h| - 1], cutoff);
      if h[|h| - 1].at >= cutoff then rest + [h[|h| - 1]] else rest
  }

  /**
   * What the buffer promises to hold after the pushes `h`: among those no older
   * than the retention at the latest push, the last `cap`.
   */
  function Retained(h: seq<Entry>, retention: int, cap: nat): seq<Entry> {
    if h == [] then [] else LastN(Fresh(h, h[|h| - 1].at - retention), cap)
  }

  // ---- In order, both bounds cut a prefix ----

  /** Exactly the first `n` entries are older than the cutoff. */
  ghost predicate CutsAt(h: seq<Entry>, cutoff: int, n: nat) {
    && n <= |h|
    && (forall i :: 0 <= i < n ==> h[i].at < cutoff)
    && (forall i :: n <= i < |h| ==> h[i].at >= cutoff)
  }

  lemma FindCut(h: seq<Entry>, cutoff: int) returns (n: nat)
    requires InOrder(h)
    ensures CutsAt(h, cutoff, n)
  {
    n := 0;
    while n < |h| && h[n].at < cutoff
      invariant n <= |h| && forall i :: 0 <= i < n ==> h[i].at < cutoff
    {
      n := n + 1;
    }
  }

  lemma {:induction false} FreshIsSuffix(h: seq<Entry>, cutoff: int, n: nat)
    requires CutsAt(h, cutoff, n)
    ensures Fresh(h, cutoff) == h[n..]
  {
    if h != [] {
      var g := h[..|h| - 1];
      if n == |h| {
        FreshIsSuffix(g, cutoff, |g|);
      } else {
        FreshIsSuffix(g, cutoff, n);
        assert h[n..] == g[n..] + [h[|h| - 1]];
      }
    }
  }

  lemma LastOfSuffix(h: seq<Entry>, n: nat, cap: nat)
    requires n <= |h|
    ensures LastN(h[n..], cap) == h[Max(n, |h| - cap)..]
  {
  }

  lemma RetainedFrom(h: seq<Entry>, retention: int, cap: nat, n: nat)
    requires h != [] && CutsAt(h, h[|h| - 1].at - retention, n)
    ensures Retained(h, retention, cap) == h[Max(n, |h| - cap)..]
  {
    FreshIsSuffix(h, h[|h| - 1].at - retention, n);
    LastOfSuffix(h, n, cap);
  }

  /** Trimming the stale head of a suffix. */
  lemma SuffixTrim(g: seq<Entry>, m: nat, b: seq<Entry>, k: nat, cutoff: int, z: nat)
    requires m <= |g| && b == g[m..] && k <= |b| && CutsAt(g, cutoff, z)
    requires forall i :: 0 <= i < k ==> b[i].at < cutoff
    requires k < |b| ==> b[k].at >= cutoff
    ensures b[k..] == g[Max(m, z)..]
  {
    assert k > 0 ==> g[m + k - 1] == b[k - 1];
    assert k < |b| ==> g[m + k] == b[k];
  }

  lemma AppendedSuffix(h: seq<Entry>, e: Entry, retention: int, cap: nat) returns (m: nat)
    requires InOrder(h + [e])
    ensures m <= |h| + 1 && LastN(Retained(h, retention, cap) + [e], cap) == (h + [e])[m..]
    ensures m >= |h| + 1 - cap
    ensures m > 0 && m > |h| + 1 - cap ==> (h + [e])[m - 1].at < e.at - retention
  {
    var g := h + [e];
    if h == [] {
      m := if cap == 0 then 1 else 0;
    } else {
      PrefixInOrder(h, e);
      var n := FindCut(h, h[|h| - 1].at - retention);
      RetainedFrom(h, retention, cap, n);
      var j := Max(n, |h| - cap);
      SuffixAppend(h, e, j, cap);
      m := Max(j, |h| + 1 - cap);
      assert g[|h| - 1] == h[|h| - 1] && g[|h|] == e && g[|h| - 1].at <= g[|h|].at;
      StaleBefore(h, e, retention, cap, n, m);
    }
  }

  lemma StaleBefore(h: seq<Entry>, e: Entry, retention: int, cap: nat, n: nat, m: nat)
    requires h != [] && h[|h| - 1].at <= e.at && CutsAt(h, h[|h| - 1].at - retention, n)
    requires m == Max(Max(n, |h| - cap), |h| + 1 - cap)
    ensures m > 0 && m > |h| + 1 - cap ==> m <= |h| && (h + [e])[m - 1].at < e.at - retention
  {
    if m > 0 && m > |h| + 1 - cap {
      assert m == n && (h + [e])[m - 1] == h[m - 1];
    }
  }

  lemma PrefixInOrder(h: seq<Entry>, e: Entry)
    requires InOrder(h + [e])
    ensures InOrder(h)
  {
    assert forall i :: 0 <= i < |h| ==> (h + [e])[i] == h[i];
  }

  lemma SuffixAppend(h: seq<Entry>, e: Entry, j: nat, cap: nat)
    requires j <= |h|
    ensures LastN(h[j..] + [e], cap) == (h + [e])[Max(j, |h| + 1 - cap)..]
  {
    assert h[j..] + [e] == (h + [e])[j..];
    LastOfSuffix(h + [e], j, cap);
  }

  /** One more push: appending, dropping over the cap and trimming the stale head gives the new promise. */
  lemma RecordRetains(h: seq<Entry>, e: Entry, retention: int, cap: nat, b: seq<Entry>, k: nat)
    requires InOrder(h + [e])
    requires b == LastN(Retained(h, retention, cap) + [e], cap) && k <= |b|
    requires forall i :: 0 <= i < k ==> b[i].at < e.at - retention
    requires k < |b| ==> b[k].at >= e.at - retention
    ensures b[k..] == Retained(h + [e], retention, cap)
  {
    var g, cutoff := h + [e], e.at - retention;
    assert g[|g| - 1] == e;
    var m := AppendedSuffix(h, e, retention, cap);
    var z := FindCut(g, cutoff);
    SuffixTrim(g, m, b, k, cutoff, z);
    RetainedFrom(g, retention, cap, z);
    SameCut(g, m, z, cap, cutoff);
  }

  /** Where the cap bit, and where it did not. */
  lemma SameCut(g: seq<Entry>, m: nat, z: nat, cap: nat, cutoff: int)
    requires m <= |g| && m >= |g| - cap && CutsAt(g, cutoff, z)
    requires m > 0 && m > |g| - cap ==> g[m - 1].at < cutoff
    ensures Max(m, z) == Max(z, |g| - cap)
  {
    if m > 0 && m > |g| - cap {
      assert m - 1 < z;
    }
  }

  /** The loop that pops stale entries from the left. */
  method TrimHead(full: seq<Entry>, cutoff: int) returns (buf: seq<Entry>, ghost k: nat)
    ensures k <= |full| && buf == full[k..]
    ensures forall i :: 0 <= i < k ==> full[i].at < cutoff
    ensures buf != [] ==> buf[0].at >= cutoff
  {
    buf, k := full, 0;
    while buf != [] && buf[0].at < cutoff
      invariant k <= |full| && buf == full[k..] && forall i :: 0 <= i < k ==> full[i].at < cutoff
      decreases |buf|
    {
      k := k + 1;
      buf := buf[1..];
    }
  }

  class PushBuffer {
    const retention: int
    const cap: nat
    var pushes: map<LinkId, seq<Entry>>

    /** Every push to a link since its buffer was last drained. */
    ghost var history: map<LinkId, seq<Entry>>

    ghost predicate Valid()
      reads this
    {
      && pushes.Keys == history.Keys
      && (forall l :: l in pushes ==> InOrder(history[l]) && pushes[l] == Retained(history[l], retention, cap))
    }

    ghost function Past(l: LinkId): seq<Entry>
      reads this
    {
      if l in history then history[l] else []
    }

    constructor (retention: int, cap: nat)
      ensures Valid() && this.retention == retention && this.cap == cap && history == map[]
    {
      this.retention, this.cap, pushes, history := retention, cap, map[], map[];
    }

    method Record(l: LinkId, item: Item, now: int)
      requires Valid() && forall e :: e in Past(l) ==> e.at <= now
      modifies this
      ensures Valid() && history == old(history)[l := old(Past(l)) + [Entry(now, item)]]
    {
      var buf := if l in pushes then pushes[l] else [];
      ghost var k;
      ghost var full := LastN(buf + [Entry(now, item)], cap);
      buf, k := TrimHead(LastN(buf + [Entry(now, item)], cap), now - retention);
      RecordRetains(Past(l), Entry(now, item), retention, cap, full, k);
      pushes := pushes[l := buf];
      history := history[l := Past(l) + [Entry(now, item)]];
    }

    /** Everything retained, oldest first; nothing of the link is left. */
    method Drain(l: LinkId) returns (entries: seq<Entry>)
      requires Valid()
      modifies this
      ensures Valid() && entries == Retained(old(Past(l)), retention, cap)
      ensures l !in pushes && history == old(history) - {l}
    {
      entries := if l in pushes then pushes[l] else [];
      pushes := pushes - {l};
      history := history - {l};
    }
  }
}
