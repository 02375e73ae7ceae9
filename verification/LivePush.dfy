/**
 * Live subscriptions: who may subscribe, what happens to each event offered to
 * each subscriber, and what a dying link leaves behind.
 */
module LivePush {
  import opened Common
  import opened ZombieBuffer

  const MAX_PER_CHANNEL: nat := 100
  const MAX_TOTAL: nat := 500
  const MAX_BATCH: nat := 1000

  datatype Profile = Full | Prioritized | Minimal | Batched

  datatype Sub = Sub(link: LinkId, profile: Profile)

  /** What the link does while an event is pushed: up, known dead, or raising on send. */
  datatype Fate = Alive | Dead | Raises

  datatype Verdict = Skipped | Queued | Sent | Deferred | Dropped

  datatype Offer = Offer(link: LinkId, item: Item, verdict: Verdict)

  datatype Deferral = Deferral(link: LinkId, identity: string, item: Item)

  const SKIPPED_EVENTS := {"typing", "presence", "status_update"}

  predicate SkipsEvent(p: Profile, event: string) {
    p == Prioritized && event in SKIPPED_EVENTS
  }

  /** An event that cannot be pushed goes to the defer hook when there is one and the subscriber is identified. */
  function Judge(s: Sub, item: Item, fate: Fate, deferrable: bool): Verdict {
    if fate == Dead then (if deferrable then Deferred else Dropped)
    else if SkipsEvent(s.profile, item.event) then Skipped
    else if s.profile == Batched then Queued
    else if fate == Raises then (if deferrable then Deferred else Dropped)
    else Sent
  }

  // ---- Totals over a table of subscriber lists ----

  type Subs = map<string, seq<Sub>>

  ghost function Total(m: Subs): nat
    decreases |m|
  {
    if m == map[] then 0
    else
      var c :| c in m;
      |m[c]| + Total(m - {c})
  }

  lemma {:induction false} TotalSplit(m: Subs, c: string)
    requires c in m
    ensures Total(m) == |m[c]| + Total(m - {c})
    decreases |m|
  {
    var d :| d in m && Total(m) == |m[d]| + Total(m - {d});
    if d != c {
      TotalSplit(m - {d}, c);
      TotalSplit(m - {c}, d);
      assert m - {d} - {c} == m - {c} - {d};
    }
  }

  lemma TotalUpdate(m: Subs, c: string, v: seq<Sub>)
    ensures Total(m[c := v]) == Total(m - {c}) + |v|
    ensures Total(m) == Total(m - {c}) + if c in m then |m[c]| else 0
  {
    TotalSplit(m[c := v], c);
    assert m[c := v] - {c} == m - {c};
    if c in m {
      TotalSplit(m, c);
    } else {
      assert m - {c} == m;
    }
  }

  predicate DistinctLinks(s: seq<Sub>) {
    forall i, j :: 0 <= i < j < |s| ==> s[i].link != s[j].link
  }

  predicate Has(s: seq<Sub>, l: LinkId) {
    exists i :: 0 <= i < |s| && s[i].link == l
  }

  function Without(s: seq<Sub>, l: LinkId): (r: seq<Sub>)
    ensures |r| <= |s| && !Has(r, l)
    ensures forall x :: x in r <==> x in s && x.link != l
    ensures DistinctLinks(s) ==> DistinctLinks(r)
  {
    if s == [] then []
    else
      var rest := Without(s[..|s| - 1], l);
      var x := s[|s| - 1];
      assert s == s[..|s| - 1] + [x];
      assert forall i :: 0 <= i < |rest| ==> rest[i] in s[..|s| - 1];
      if x.link == l then rest else rest + [x]
  }

  /** Dropping links or whole lists only lowers the total. */
  lemma {:induction false} TotalShrinks(m: Subs, m': Subs)
    requires forall c :: c in m' ==> c in m && |m'[c]| <= |m[c]|
    ensures Total(m') <= Total(m)
    decreases |m'|
  {
    if m' != map[] {
      var c :| c in m';
      TotalSplit(m', c);
      TotalSplit(m, c);
      TotalShrinks(m - {c}, m' - {c});
    }
  }

  /** The table after a link has been popped from every channel and empty channels have been deleted. */
  function Purged(m: Subs, l: LinkId): Subs {
    map c | c in m && Without(m[c], l) != [] :: Without(m[c], l)
  }

  function Reprofiled(s: seq<Sub>, l: LinkId, p: Profile): (r: seq<Sub>)
    ensures |r| == |s| && forall i :: 0 <= i < |s| ==> r[i] == if s[i].link == l then Sub(l, p) else s[i]
  {
    seq(|s|, i requires 0 <= i < |s| => if s[i].link == l then Sub(l, p) else s[i])
  }

  ghost predicate Bounded(m: Subs) {
    && (forall c :: c in m ==> DistinctLinks(m[c]) && |m[c]| <= MAX_PER_CHANNEL && forall x :: x in m[c] ==> x.profile != Minimal)
    && Total(m) <= MAX_TOTAL
  }

  lemma PurgedIsBounded(m: Subs, l: LinkId)
    requires Bounded(m)
    ensures Bounded(Purged(m, l)) && forall c :: c in Purged(m, l) ==> !Has(Purged(m, l)[c], l)
  {
    TotalShrinks(m, Purged(m, l));
  }

  // ---- The ledger of offers ----

  function SentTo(ledger: seq<Offer>, l: LinkId): seq<Item> {
    if ledger == [] then []
    else
      var rest, o := SentTo(ledger[..|ledger| - 1], l), ledger[|ledger| - 1];
      if o.link == l && o.verdict == Sent then rest + [o.item] else rest
  }

  /** What went onto links, in order. */
  function OnWire(ledger: seq<Offer>): seq<(LinkId, Item)> {
    if ledger == [] then []
    else
      var rest, o := OnWire(ledger[..|ledger| - 1]), ledger[|ledger| - 1];
      if o.verdict == Sent then rest + [(o.link, o.item)] else rest
  }

  /** What had to be handed to the defer hook, in order. */
  function ToHook(ledger: seq<Offer>): seq<(LinkId, Item)> {
    if ledger == [] then []
    else
      var rest, o := ToHook(ledger[..|ledger| - 1]), ledger[|ledger| - 1];
      if o.verdict == Deferred then rest + [(o.link, o.item)] else rest
  }

  lemma LedgerAppend(ledger: seq<Offer>, o: Offer, l: LinkId)
    ensures SentTo(ledger + [o], l) == SentTo(ledger, l) + if o.link == l && o.verdict == Sent then [o.item] else []
    ensures OnWire(ledger + [o]) == OnWire(ledger) + if o.verdict == Sent then [(o.link, o.item)] else []
    ensures ToHook(ledger + [o]) == ToHook(ledger) + if o.verdict == Deferred then [(o.link, o.item)] else []
  {
    assert (ledger + [o])[..|ledger|] == ledger;
  }

  type BatchKey = (string, LinkId)

  /** What was queued for a BATCHED link in one channel, in order. */
  function QueuedFor(ledger: seq<Offer>, key: BatchKey): seq<Item> {
    if ledger == [] then []
    else
      var rest, o := QueuedFor(ledger[..|ledger| - 1], key), ledger[|ledger| - 1];
      if o.verdict == Queued && (o.item.channel, o.link) == key then rest + [o.item] else rest
  }

  function BatchIn(batches: map<BatchKey, seq<Item>>, key: BatchKey): seq<Item> {
    if key in batches then batches[key] else []
  }

  /** Every buffer holds the newest thousand of what was queued for it. */
  ghost predicate BatchesHold(batches: map<BatchKey, seq<Item>>, ledger: seq<Offer>) {
    forall key :: BatchIn(batches, key) == LastN(QueuedFor(ledger, key), MAX_BATCH)
  }

  lemma QueuedAppend(ledger: seq<Offer>, o: Offer, key: BatchKey)
    ensures QueuedFor(ledger + [o], key) ==
            QueuedFor(ledger, key) + if o.verdict == Queued && (o.item.channel, o.link) == key then [o.item] else []
  {
    assert (ledger + [o])[..|ledger|] == ledger;
  }

  lemma OtherKeepsBatches(batches: map<BatchKey, seq<Item>>, ledger: seq<Offer>, o: Offer)
    requires BatchesHold(batches, ledger) && o.verdict != Queued
    ensures BatchesHold(batches, ledger + [o])
  {
    forall key
      ensures BatchIn(batches, key) == LastN(QueuedFor(ledger + [o], key), MAX_BATCH)
    {
      QueuedAppend(ledger, o, key);
    }
  }

  lemma LastNTwice<T>(q: seq<T>, x: T, m: nat)
    ensures LastN(LastN(q, m) + [x], m) == LastN(q + [x], m)
  {
  }

  lemma QueuedKeepsBatches(batches: map<BatchKey, seq<Item>>, ledger: seq<Offer>, o: Offer, key: BatchKey)
    requires BatchesHold(batches, ledger) && o.verdict == Queued && key == (o.item.channel, o.link)
    ensures BatchesHold(batches[key := LastN(BatchIn(batches, key) + [o.item], MAX_BATCH)], ledger + [o])
  {
    var batches' := batches[key := LastN(BatchIn(batches, key) + [o.item], MAX_BATCH)];
    forall k
      ensures BatchIn(batches', k) == LastN(QueuedFor(ledger + [o], k), MAX_BATCH)
    {
      QueuedAppend(ledger, o, k);
      LastNTwice(QueuedFor(ledger, key), o.item, MAX_BATCH);
    }
  }

  /** The links that turned out dead during a push. */
  function DeadIn(os: seq<Offer>): set<LinkId> {
    if os == [] then {}
    else
      var rest, o := DeadIn(os[..|os| - 1]), os[|os| - 1];
      if o.verdict == Deferred || o.verdict == Dropped then rest + {o.link} else rest
  }

  lemma PrefixStep(os: seq<Offer>, k: nat)
    requires k < |os|
    ensures os[..k + 1] == os[..k] + [os[k]]
    ensures DeadIn(os[..k + 1]) == DeadIn(os[..k]) + if os[k].verdict == Deferred || os[k].verdict == Dropped then {os[k].link} else {}
  {
    assert os[..k + 1][..k] == os[..k];
  }

  function ItemsOf(es: seq<Entry>): (r: seq<Item>)
    ensures |r| == |es| && forall i :: 0 <= i < |es| ==> r[i] == es[i].item
  {
    seq(|es|, i requires 0 <= i < |es| => es[i].item)
  }

  type Log = map<LinkId, seq<Entry>>

  function PastIn(log: Log, l: LinkId): seq<Entry> {
    if l in log then log[l] else []
  }

  function MarkIn(marks: map<LinkId, nat>, l: LinkId): nat {
    if l in marks then marks[l] else 0
  }

  /** The buffer has seen every send to the link since it last died. */
  predicate Follows(log: Log, ledger: seq<Offer>, marks: map<LinkId, nat>, l: LinkId) {
    MarkIn(marks, l) <= |SentTo(ledger, l)| && ItemsOf(PastIn(log, l)) == SentTo(ledger, l)[MarkIn(marks, l)..]
  }

  ghost predicate FollowsAll(log: Log, ledger: seq<Offer>, marks: map<LinkId, nat>) {
    forall l :: Follows(log, ledger, marks, l)
  }

  ghost predicate NotAfter(log: Log, clock: int) {
    forall l, e :: e in PastIn(log, l) ==> e.at <= clock
  }

  lemma UnsentKeeps(log: Log, ledger: seq<Offer>, marks: map<LinkId, nat>, o: Offer)
    requires FollowsAll(log, ledger, marks) && o.verdict != Sent
    ensures FollowsAll(log, ledger + [o], marks)
  {
    forall l
      ensures Follows(log, ledger + [o], marks, l)
    {
      assert Follows(log, ledger, marks, l);
      LedgerAppend(ledger, o, l);
    }
  }

  lemma ItemsAppend(es: seq<Entry>, e: Entry)
    ensures ItemsOf(es + [e]) == ItemsOf(es) + [e.item]
  {
  }

  lemma SentFollows(log: Log, ledger: seq<Offer>, marks: map<LinkId, nat>, o: Offer, now: int, l: LinkId)
    requires Follows(log, ledger, marks, l) && o.verdict == Sent
    ensures Follows(log[o.link := PastIn(log, o.link) + [Entry(now, o.item)]], ledger + [o], marks, l)
  {
    LedgerAppend(ledger, o, l);
    if l == o.link {
      ItemsAppend(PastIn(log, l), Entry(now, o.item));
    }
  }

  lemma SentKeeps(log: Log, ledger: seq<Offer>, marks: map<LinkId, nat>, o: Offer, now: int)
    requires FollowsAll(log, ledger, marks) && o.verdict == Sent
    ensures FollowsAll(log[o.link := PastIn(log, o.link) + [Entry(now, o.item)]], ledger + [o], marks)
  {
    var log', ledger' := log[o.link := PastIn(log, o.link) + [Entry(now, o.item)]], ledger + [o];
    forall l
      ensures Follows(log', ledger', marks, l)
    {
      assert Follows(log, ledger, marks, l);
      SentFollows(log, ledger, marks, o, now, l);
    }
  }

  lemma NotAfterAppend(log: Log, clock: int, l: LinkId, e: Entry)
    requires NotAfter(log, clock) && clock <= e.at
    ensures NotAfter(log[l := PastIn(log, l) + [e]], e.at)
  {
    var log' := log[l := PastIn(log, l) + [e]];
    forall k, x | x in PastIn(log', k)
      ensures x.at <= e.at
    {
      assert x in PastIn(log, k) || x == e;
    }
  }

  lemma NotAfterDeath(log: Log, clock: int, l: LinkId)
    requires NotAfter(log, clock)
    ensures NotAfter(log - {l}, clock)
  {
    var log' := log - {l};
    forall k, x | x in PastIn(log', k)
      ensures x.at <= clock
    {
      assert x in PastIn(log, k);
    }
  }

  lemma DeathKeeps(log: Log, ledger: seq<Offer>, marks: map<LinkId, nat>, l: LinkId)
    requires FollowsAll(log, ledger, marks)
    ensures FollowsAll(log - {l}, ledger, marks[l := |SentTo(ledger, l)|])
  {
    var log', marks' := log - {l}, marks[l := |SentTo(ledger, l)|];
    forall k
      ensures Follows(log', ledger, marks', k)
    {
      assert Follows(log, ledger, marks, k);
    }
  }

  function Pairs(ds: seq<Deferral>): (r: seq<(LinkId, Item)>)
    ensures |r| == |ds| && forall i :: 0 <= i < |ds| ==> r[i] == (ds[i].link, ds[i].item)
  {
    seq(|ds|, i requires 0 <= i < |ds| => (ds[i].link, ds[i].item))
  }

  /** The defer hook, if one is installed, and the identities it can be called with. */
  datatype Hook = Hook(installed: bool, identities: map<LinkId, string>)

  predicate CanDefer(h: Hook, l: LinkId) {
    h.installed && l in h.identities && h.identities[l] != ""
  }

  /** One offer to each target, in order, with the verdict its profile and link call for. */
  function Offers(targets: seq<Sub>, item: Item, fate: map<LinkId, Fate>, h: Hook): (r: seq<Offer>)
    ensures |r| == |targets|
    ensures forall i :: 0 <= i < |r| ==> r[i] == OfferFor(targets[i], item, fate, h)
  {
    seq(|targets|, i requires 0 <= i < |targets| => OfferFor(targets[i], item, fate, h))
  }

  /** Links the map does not mention are alive. */
  function OfferFor(s: Sub, item: Item, fate: map<LinkId, Fate>, h: Hook): Offer {
    Offer(s.link, item, Judge(s, item, FateOf(fate, s.link), CanDefer(h, s.link)))
  }

  function FateOf(fate: map<LinkId, Fate>, l: LinkId): Fate {
    if l in fate then fate[l] else Alive
  }

  // ---- What one push means for one subscriber ----

  /** How many of the pairs are for the link. */
  function CountFor(ps: seq<(LinkId, Item)>, l: LinkId): nat {
    if ps == [] then 0 else CountFor(ps[..|ps| - 1], l) + if ps[|ps| - 1].0 == l then 1 else 0
  }

  /** Packets sent to the link and events deferred for it. */
  function Handed(os: seq<Offer>, l: LinkId): nat {
    CountFor(OnWire(os), l) + CountFor(ToHook(os), l)
  }

  predicate IsHanded(v: Verdict) {
    v == Sent || v == Deferred
  }

  lemma HandedStep(os: seq<Offer>, o: Offer, l: LinkId)
    ensures Handed(os + [o], l) == Handed(os, l) + if o.link == l && IsHanded(o.verdict) then 1 else 0
  {
    LedgerAppend(os, o, l);
    var p := (o.link, o.item);
    assert (OnWire(os) + [p])[..|OnWire(os)|] == OnWire(os) && (ToHook(os) + [p])[..|ToHook(os)|] == ToHook(os);
  }

  lemma OffersLast(targets: seq<Sub>, item: Item, fate: map<LinkId, Fate>, h: Hook)
    requires targets != []
    ensures var n := |targets| - 1;
            Offers(targets, item, fate, h) == Offers(targets[..n], item, fate, h) + [OfferFor(targets[n], item, fate, h)]
  {
  }

  lemma FrontDistinct(targets: seq<Sub>)
    requires targets != [] && DistinctLinks(targets)
    ensures DistinctLinks(targets[..|targets| - 1])
  {
  }

  lemma LastIsAlone(targets: seq<Sub>)
    requires targets != [] && DistinctLinks(targets)
    ensures !Has(targets[..|targets| - 1], targets[|targets| - 1].link)
  {
  }

  /** A link that is not a target is handed nothing. */
  lemma {:induction false} HandedNone(targets: seq<Sub>, item: Item, fate: map<LinkId, Fate>, h: Hook, l: LinkId)
    requires !Has(targets, l)
    ensures Handed(Offers(targets, item, fate, h), l) == 0
    decreases |targets|
  {
    if targets != [] {
      var n := |targets| - 1;
      assert targets[n].link != l && !Has(targets[..n], l);
      OffersLast(targets, item, fate, h);
      HandedStep(Offers(targets[..n], item, fate, h), OfferFor(targets[n], item, fate, h), l);
      HandedNone(targets[..n], item, fate, h, l);
    }
  }

  lemma {:induction false} HandedIs(targets: seq<Sub>, item: Item, fate: map<LinkId, Fate>, h: Hook, i: nat)
    requires DistinctLinks(targets) && i < |targets|
    ensures Handed(Offers(targets, item, fate, h), targets[i].link) ==
            if IsHanded(OfferFor(targets[i], item, fate, h).verdict) then 1 else 0
    decreases |targets|
  {
    var n, l := |targets| - 1, targets[i].link;
    OffersLast(targets, item, fate, h);
    HandedStep(Offers(targets[..n], item, fate, h), OfferFor(targets[n], item, fate, h), l);
    if i == n {
      LastIsAlone(targets);
      HandedNone(targets[..n], item, fate, h, l);
    } else {
      FrontDistinct(targets);
      HandedIs(targets[..n], item, fate, h, i);
    }
  }

  /**
   * A push hands its event to each identified subscriber outside BATCHED
   * exactly once, as a packet or through the hook, unless the link is up and
   * PRIORITIZED skips the event.
   */
  lemma HandedOnce(targets: seq<Sub>, item: Item, fate: map<LinkId, Fate>, h: Hook, i: nat)
    requires DistinctLinks(targets) && i < |targets| && targets[i].profile != Batched && CanDefer(h, targets[i].link)
    ensures Handed(Offers(targets, item, fate, h), targets[i].link) ==
            if FateOf(fate, targets[i].link) != Dead && targets[i].profile == Prioritized &&
               (item.event == "typing" || item.event == "presence" || item.event == "status_update") then 0 else 1
  {
    HandedIs(targets, item, fate, h, i);
  }

  /** An event that cannot be pushed is deferred when a hook is installed and the link has an identity, and dropped otherwise. */
  lemma DeferredIff(s: Sub, item: Item, fate: map<LinkId, Fate>, h: Hook)
    ensures var v := OfferFor(s, item, fate, h).verdict;
            var identified := h.installed && s.link in h.identities && h.identities[s.link] != "";
            var fails := FateOf(fate, s.link) == Dead ||
                         (FateOf(fate, s.link) == Raises && s.profile != Batched && !SkipsEvent(s.profile, item.event));
            (v == Deferred <==> fails && identified) && (v == Dropped <==> fails && !identified)
  {
  }

  lemma {:induction false} QueuedNone(targets: seq<Sub>, item: Item, fate: map<LinkId, Fate>, h: Hook, l: LinkId)
    requires !Has(targets, l)
    ensures QueuedFor(Offers(targets, item, fate, h), (item.channel, l)) == []
    decreases |targets|
  {
    if targets != [] {
      var n := |targets| - 1;
      assert targets[n].link != l && !Has(targets[..n], l);
      OffersLast(targets, item, fate, h);
      QueuedAppend(Offers(targets[..n], item, fate, h), OfferFor(targets[n], item, fate, h), (item.channel, l));
      QueuedNone(targets[..n], item, fate, h, l);
    }
  }

  lemma {:induction false} QueuedIs(targets: seq<Sub>, item: Item, fate: map<LinkId, Fate>, h: Hook, i: nat)
    requires DistinctLinks(targets) && i < |targets|
    ensures QueuedFor(Offers(targets, item, fate, h), (item.channel, targets[i].link)) ==
            if OfferFor(targets[i], item, fate, h).verdict == Queued then [item] else []
    decreases |targets|
  {
    var n, l := |targets| - 1, targets[i].link;
    OffersLast(targets, item, fate, h);
    QueuedAppend(Offers(targets[..n], item, fate, h), OfferFor(targets[n], item, fate, h), (item.channel, l));
    if i == n {
      LastIsAlone(targets);
      QueuedNone(targets[..n], item, fate, h, l);
    } else {
      FrontDistinct(targets);
      QueuedIs(targets[..n], item, fate, h, i);
    }
  }

  /** A BATCHED subscriber is sent and deferred nothing while its link is up: the event waits in its buffer, once. */
  lemma QueuedOnce(targets: seq<Sub>, item: Item, fate: map<LinkId, Fate>, h: Hook, i: nat)
    requires DistinctLinks(targets) && i < |targets| && targets[i].profile == Batched && FateOf(fate, targets[i].link) != Dead
    ensures var os := Offers(targets, item, fate, h);
            Handed(os, targets[i].link) == 0 && QueuedFor(os, (item.channel, targets[i].link)) == [item]
  {
    HandedIs(targets, item, fate, h, i);
    QueuedIs(targets, item, fate, h, i);
  }

  // ---- Subscriber tables stay within the limits ----

  lemma EmptyIsBounded(m: Subs, c: string)
    requires Bounded(m) && c !in m
    ensures Bounded(m[c := []]) && Total(m[c := []]) == Total(m)
  {
    TotalUpdate(m, c, []);
  }

  lemma ReprofiledIsBounded(m: Subs, c: string, l: LinkId, p: Profile)
    requires Bounded(m) && c in m && p != Minimal
    ensures Bounded(m[c := Reprofiled(m[c], l, p)])
  {
    TotalUpdate(m, c, Reprofiled(m[c], l, p));
  }

  lemma AddedIsBounded(m: Subs, c: string, l: LinkId, p: Profile)
    requires Bounded(m) && c in m && p != Minimal && !Has(m[c], l) && |m[c]| < MAX_PER_CHANNEL && Total(m) < MAX_TOTAL
    ensures Bounded(m[c := m[c] + [Sub(l, p)]])
  {
    TotalUpdate(m, c, m[c] + [Sub(l, p)]);
  }

  function SubsIn(m: Subs, c: string): seq<Sub> {
    if c in m then m[c] else []
  }

  ghost predicate Admits(m: Subs, c: string, l: LinkId, p: Profile) {
    p != Minimal && (Has(SubsIn(m, c), l) || (|SubsIn(m, c)| < MAX_PER_CHANNEL && Total(m) < MAX_TOTAL))
  }

  /** A refused subscription leaves at most an empty channel entry behind. */
  ghost function Admitted(m: Subs, c: string, l: LinkId, p: Profile): Subs {
    if p == Minimal then m
    else if !Admits(m, c, l, p) then m[c := SubsIn(m, c)]
    else if Has(SubsIn(m, c), l) then m[c := Reprofiled(SubsIn(m, c), l, p)]
    else m[c := SubsIn(m, c) + [Sub(l, p)]]
  }

  /** An admitted link is listed with the profile asked for, a refused one is not added, and nobody else is affected. */
  lemma AdmittedStores(m: Subs, c: string, l: LinkId, p: Profile)
    ensures var s, s' := SubsIn(m, c), SubsIn(Admitted(m, c, l, p), c);
            if Admits(m, c, l, p) then Sub(l, p) in s' && Without(s', l) == Without(s, l) else s' == s
    ensures forall d :: d != c ==> SubsIn(Admitted(m, c, l, p), d) == SubsIn(m, d)
  {
    var s := SubsIn(m, c);
    if Admits(m, c, l, p) {
      if Has(s, l) {
        var i :| 0 <= i < |s| && s[i].link == l;
        assert Reprofiled(s, l, p)[i] == Sub(l, p);
        ReprofiledOthers(s, l, p);
      } else {
        assert (s + [Sub(l, p)])[|s|] == Sub(l, p) && (s + [Sub(l, p)])[..|s|] == s;
      }
    }
  }

  lemma {:induction false} ReprofiledOthers(s: seq<Sub>, l: LinkId, p: Profile)
    ensures Without(Reprofiled(s, l, p), l) == Without(s, l)
  {
    if s != [] {
      var n := |s| - 1;
      ReprofiledOthers(s[..n], l, p);
      assert Reprofiled(s, l, p)[..n] == Reprofiled(s[..n], l, p);
    }
  }

  /** Exactly who is admitted. */
  lemma AdmitsIff(m: Subs, c: string, l: LinkId, p: Profile)
    ensures Admits(m, c, l, p) <==>
            p != Minimal && (Has(SubsIn(m, c), l) || (|SubsIn(m, c)| < 100 && Total(m) < 500))
  {
  }

  lemma AdmittedIsBounded(m: Subs, c: string, l: LinkId, p: Profile)
    requires Bounded(m)
    ensures Bounded(Admitted(m, c, l, p))
  {
    var m' := m[c := SubsIn(m, c)];
    if c in m {
      assert m' == m;
    } else {
      EmptyIsBounded(m, c);
    }
    if p != Minimal && Admits(m, c, l, p) {
      if Has(SubsIn(m, c), l) {
        ReprofiledIsBounded(m', c, l, p);
        assert m'[c := Reprofiled(m'[c], l, p)] == m[c := Reprofiled(SubsIn(m, c), l, p)];
      } else {
        AddedIsBounded(m', c, l, p);
        assert m'[c := m'[c] + [Sub(l, p)]] == m[c := SubsIn(m, c) + [Sub(l, p)]];
      }
    }
  }

  method CountAll(m: Subs) returns (n: nat)
    ensures n == Total(m)
  {
    n := 0;
    var rest := m;
    while rest != map[]
      invariant n + Total(rest) == Total(m)
      decreases |rest|
    {
      var c :| c in rest;
      TotalSplit(rest, c);
      n := n + |rest[c]|;
      rest := rest - {c};
    }
  }

  method SubscribeIn(m: Subs, c: string, l: LinkId, p: Profile) returns (r: Subs, ok: bool)
    ensures ok == Admits(m, c, l, p) && r == Admitted(m, c, l, p)
  {
    r := m;
    if p == Minimal {
      return r, false;
    }
    if c !in r {
      r := r[c := []];
    }
    TotalUpdate(m, c, SubsIn(m, c));
    if Has(r[c], l) {
      return r[c := Reprofiled(r[c], l, p)], true;
    }
    if |r[c]| >= MAX_PER_CHANNEL {
      return r, false;
    }
    var total := CountAll(r);
    if total >= MAX_TOTAL {
      return r, false;
    }
    return r[c := r[c] + [Sub(l, p)]], true;
  }

  method AddToBatch(batches: map<BatchKey, seq<Item>>, key: BatchKey, item: Item) returns (r: map<BatchKey, seq<Item>>)
    ensures r == batches[key := LastN(BatchIn(batches, key) + [item], MAX_BATCH)]
  {
    var buf := (if key in batches then batches[key] else []) + [item];
    if |buf| > MAX_BATCH {
      buf := buf[|buf| - MAX_BATCH..];
    }
    r := batches[key := buf];
  }

  class LiveManager {
    var subs: Subs
    var identities: map<LinkId, string>
    var sealedAtRest: set<LinkId>
    var batches: map<BatchKey, seq<Item>>
    var hookSet: bool
    const zombie: PushBuffer
    var wire: seq<(LinkId, Item)>
    var direct: seq<Deferral>
    var replayed: seq<Deferral>

    ghost var ledger: seq<Offer>
    ghost var clock: int
    /** How many sends each link had behind it when it last died. */
    ghost var marks: map<LinkId, nat>

    /** A verdict of Sent or Deferred is exactly one packet or one hook call. */
    ghost predicate Accounted()
      reads this`wire, this`direct, this`ledger
    {
      wire == OnWire(ledger) && Pairs(direct) == ToHook(ledger)
    }

    ghost predicate Buffered()
      reads this`ledger, this`clock, this`marks, zombie
    {
      zombie.Valid() && NotAfter(zombie.history, clock) && FollowsAll(zombie.history, ledger, marks)
    }

    ghost predicate Valid()
      reads this, zombie
    {
      Bounded(subs) && Accounted() && Buffered() && BatchesHold(batches, ledger)
    }

    function Hooks(): Hook
      reads this`hookSet, this`identities
    {
      Hook(hookSet, identities)
    }

    constructor (retention: int, cap: nat)
      ensures Valid() && fresh(zombie) && subs == map[] && ledger == [] && direct == [] && replayed == []
    {
      subs, identities, sealedAtRest, batches, hookSet := map[], map[], {}, map[], false;
      wire, direct, replayed, ledger, clock, marks := [], [], [], [], 0, map[];
      zombie := new PushBuffer(retention, cap);
    }

    function SubsOf(c: string): seq<Sub>
      reads this`subs
    {
      if c in subs then subs[c] else []
    }

    /** Accepted exactly when already subscribed, or below both limits; MINIMAL never. */
    method Subscribe(c: string, l: LinkId, profile: Profile, identity: string, atRest: bool) returns (ok: bool)
      requires Valid()
      modifies this`subs, this`identities, this`sealedAtRest
      ensures Valid()
      ensures ok == Admits(old(subs), c, l, profile)
      ensures subs == Admitted(old(subs), c, l, profile)
      ensures identities == if ok && !Has(old(SubsOf(c)), l) && identity != "" then old(identities)[l := identity] else old(identities)
      ensures sealedAtRest == if ok && !Has(old(SubsOf(c)), l) && atRest then old(sealedAtRest) + {l} else old(sealedAtRest)
    {
      AdmittedIsBounded(subs, c, l, profile);
      var known := Has(SubsOf(c), l);
      subs, ok := SubscribeIn(subs, c, l, profile);
      if ok && !known {
        if identity != "" {
          identities := identities[l := identity];
        }
        if atRest {
          sealedAtRest := sealedAtRest + {l};
        }
      }
    }

    method UnsubscribeAll(l: LinkId)
      requires Valid()
      modifies this`subs
      ensures Valid() && subs == Purged(old(subs), l)
    {
      PurgedIsBounded(subs, l);
      subs := PurgeLoop(subs, l);
    }

    method Skip(o: Offer, now: int)
      requires Valid() && now >= clock && o.verdict in {Skipped, Dropped}
      modifies this`ledger, this`clock
      ensures Valid() && clock == now && ledger == old(ledger) + [o]
    {
      LedgerAppend(ledger, o, o.link);
      UnsentKeeps(zombie.history, ledger, marks, o);
      OtherKeepsBatches(batches, ledger, o);
      ledger, clock := ledger + [o], now;
    }

    /** The event joins the link's buffer for the channel, which keeps its newest thousand. */
    method QueueFor(l: LinkId, item: Item, now: int)
      requires Valid() && now >= clock
      modifies this`batches, this`ledger, this`clock
      ensures Valid() && clock == now && ledger == old(ledger) + [Offer(l, item, Queued)]
    {
      ghost var o := Offer(l, item, Queued);
      LedgerAppend(ledger, o, l);
      UnsentKeeps(zombie.history, ledger, marks, o);
      QueuedKeepsBatches(batches, ledger, o, (item.channel, l));
      batches := AddToBatch(batches, (item.channel, l), item);
      ledger, clock := ledger + [o], now;
    }

    method Send(l: LinkId, item: Item, now: int)
      requires Valid() && now >= clock
      modifies this`wire, this`ledger, this`clock, zombie
      ensures Valid() && clock == now && ledger == old(ledger) + [Offer(l, item, Sent)]
    {
      ghost var o, was := Offer(l, item, Sent), zombie.history;
      LedgerAppend(ledger, o, l);
      SentKeeps(was, ledger, marks, o, now);
      OtherKeepsBatches(batches, ledger, o);
      NotAfterAppend(was, clock, l, Entry(now, item));
      wire := wire + [(l, item)];
      assert zombie.Past(l) == PastIn(was, l);
      zombie.Record(l, item, now);
      assert zombie.history == was[l := PastIn(was, l) + [Entry(now, item)]];
      ledger, clock := ledger + [o], now;
    }

    method CallHook(d: Deferral, now: int)
      requires Valid() && now >= clock
      modifies this`direct, this`ledger, this`clock
      ensures Valid() && clock == now && direct == old(direct) + [d]
      ensures ledger == old(ledger) + [Offer(d.link, d.item, Deferred)]
    {
      ghost var o := Offer(d.link, d.item, Deferred);
      LedgerAppend(ledger, o, d.link);
      UnsentKeeps(zombie.history, ledger, marks, o);
      OtherKeepsBatches(batches, ledger, o);
      direct := direct + [d];
      assert Pairs(direct) == Pairs(old(direct)) + [(d.link, d.item)];
      ledger, clock := ledger + [o], now;
    }

    method DeferForDeadLink(l: LinkId, item: Item, now: int)
      requires Valid() && now >= clock
      modifies this`direct, this`ledger, this`clock
      ensures Valid() && clock == now
      ensures ledger == old(ledger) + [Offer(l, item, if CanDefer(Hooks(), l) then Deferred else Dropped)]
      ensures direct == old(direct) + if CanDefer(Hooks(), l) then [Deferral(l, identities[l], item)] else []
    {
      if !hookSet || l !in identities || identities[l] == "" {
        Skip(Offer(l, item, Dropped), now);
      } else {
        CallHook(Deferral(l, identities[l], item), now);
      }
    }

    /** The body of the push loop: one event, one subscriber, one verdict. */
    method OfferTo(s: Sub, item: Item, fate: map<LinkId, Fate>, now: int) returns (dead: bool)
      requires Valid() && now >= clock
      modifies this`batches, this`wire, this`direct, this`ledger, this`clock, zombie
      ensures Valid() && clock == now
      ensures ledger == old(ledger) + [OfferFor(s, item, fate, Hooks())]
      ensures dead == var v := OfferFor(s, item, fate, Hooks()).verdict; v == Deferred || v == Dropped
    {
      if FateOf(fate, s.link) == Dead {
        DeferForDeadLink(s.link, item, now);
        return true;
      }
      if SkipsEvent(s.profile, item.event) {
        Skip(Offer(s.link, item, Skipped), now);
        return false;
      }
      if s.profile == Batched {
        QueueFor(s.link, item, now);
        return false;
      }
      if FateOf(fate, s.link) == Raises {
        DeferForDeadLink(s.link, item, now);
        return true;
      }
      Send(s.link, item, now);
      return false;
    }

    method OfferAll(targets: seq<Sub>, item: Item, fate: map<LinkId, Fate>, now: int) returns (dead: set<LinkId>)
      requires Valid() && now >= clock
      modifies this`batches, this`wire, this`direct, this`ledger, this`clock, zombie
      ensures Valid() && clock <= now
      ensures ledger == old(ledger) + Offers(targets, item, fate, Hooks())
      ensures dead == DeadIn(Offers(targets, item, fate, Hooks()))
    {
      dead := {};
      ghost var all := Offers(targets, item, fate, Hooks());
      for k := 0 to |targets|
        invariant Valid() && clock <= now
        invariant ledger == old(ledger) + all[..k]
        invariant dead == DeadIn(all[..k])
      {
        PrefixStep(all, k);
        assert old(ledger) + all[..k] + [all[k]] == old(ledger) + all[..k + 1];
        var gone := OfferTo(targets[k], item, fate, now);
        if gone {
          dead := dead + {targets[k].link};
        }
      }
      assert all[..|targets|] == all;
    }

    /** Every target gets exactly one offer, in order; dead links lose all their subscriptions, live ones none. */
    method PushTo(targets: seq<Sub>, item: Item, fate: map<LinkId, Fate>, now: int)
      requires Valid() && now >= clock
      modifies this`subs, this`batches, this`wire, this`direct, this`ledger, this`clock, zombie
      ensures Valid() && clock <= now
      ensures ledger == old(ledger) + Offers(targets, item, fate, Hooks())
      ensures subs == Cleared(old(subs), DeadIn(Offers(targets, item, fate, Hooks())))
      ensures Forgotten(subs, DeadIn(Offers(targets, item, fate, Hooks())))
    {
      var dead := OfferAll(targets, item, fate, now);
      subs := DropDead(subs, dead);
    }

    /** A generic event reaches every subscriber of its channel once. */
    method PushEvent(item: Item, fate: map<LinkId, Fate>, now: int)
      requires Valid() && now >= clock
      modifies this`subs, this`batches, this`wire, this`direct, this`ledger, this`clock, zombie
      ensures Valid()
      ensures ledger == old(ledger) + Offers(old(SubsOf(item.channel)), item, fate, Hooks())
      ensures subs == Cleared(old(subs), DeadIn(Offers(old(SubsOf(item.channel)), item, fate, Hooks())))
    {
      PushTo(SubsOf(item.channel), item, fate, now);
    }

    /**
     * A sealed message goes out twice encoded: decrypted to links without
     * sealed-at-rest support, as ciphertext to links with it. Each subscriber
     * still gets exactly one offer.
     */
    method PushSealed(plain: Item, cipher: Item, fate: map<LinkId, Fate>, now: int)
      requires Valid() && now >= clock && plain.channel == cipher.channel
      modifies this`subs, this`batches, this`wire, this`direct, this`ledger, this`clock, zombie
      ensures Valid()
      ensures var legacy, capable := Split(old(SubsOf(plain.channel)), sealedAtRest, false), Split(old(SubsOf(plain.channel)), sealedAtRest, true);
              && ledger == old(ledger) + Offers(legacy, plain, fate, Hooks()) + Offers(capable, cipher, fate, Hooks())
              && subs == Cleared(Cleared(old(subs), DeadIn(Offers(legacy, plain, fate, Hooks()))), DeadIn(Offers(capable, cipher, fate, Hooks())))
    {
      var all := SubsOf(plain.channel);
      var legacy, capable := Split(all, sealedAtRest, false), Split(all, sealedAtRest, true);
      PushTo(legacy, plain, fate, now);
      PushTo(capable, cipher, fate, now);
    }

    method DrainAndReplay(l: LinkId)
      requires Valid()
      modifies this`replayed, this`marks, zombie
      ensures Valid() && l !in zombie.pushes && zombie.history == old(zombie.history) - {l}
      ensures var kept := Retained(old(zombie.Past(l)), zombie.retention, zombie.cap);
              replayed == old(replayed) + if CanDefer(Hooks(), l) then Replays(l, identities[l], kept) else []
    {
      ghost var was := zombie.history;
      DeathKeeps(was, ledger, marks, l);
      NotAfterDeath(was, clock, l);
      var entries := zombie.Drain(l);
      assert zombie.history == was - {l};
      marks := marks[l := |SentTo(ledger, l)|];
      Replay(l, entries);
    }

    /** Hands the entries to the hook, if there is one and the link is identified. */
    method Replay(l: LinkId, entries: seq<Entry>)
      modifies this`replayed
      ensures replayed == old(replayed) + if CanDefer(Hooks(), l) then Replays(l, identities[l], entries) else []
    {
      if entries != [] && l in identities && identities[l] != "" && hookSet {
        var calls := ReplayLoop(l, identities[l], entries);
        replayed := replayed + calls;
      }
    }

    /**
     * Link death. Everything the buffer still retains is handed to the hook
     * once, oldest first, and no subscription, identity, capability or buffer
     * entry of the link remains.
     */
    method HandleLinkDeath(l: LinkId)
      requires Valid()
      modifies this`subs, this`identities, this`sealedAtRest, this`replayed, this`marks, zombie
      ensures Valid() && subs == Purged(old(subs), l)
      ensures identities == old(identities) - {l} && sealedAtRest == old(sealedAtRest) - {l}
      ensures l !in zombie.pushes && zombie.history == old(zombie.history) - {l}
      ensures var kept := Retained(old(zombie.Past(l)), zombie.retention, zombie.cap);
              replayed == old(replayed) + if CanDefer(old(Hooks()), l) then Replays(l, old(identities)[l], kept) else []
    {
      DrainAndReplay(l);
      UnsubscribeAll(l);
      identities := identities - {l};
      sealedAtRest := sealedAtRest - {l};
    }
  }

  // ---- Unsubscribing the dead ----

  /** The subscribers whose link is not among the given ones, in order. */
  function Kept(s: seq<Sub>, gone: set<LinkId>): seq<Sub> {
    if s == [] then []
    else
      var rest, x := Kept(s[..|s| - 1], gone), s[|s| - 1];
      if x.link in gone then rest else rest + [x]
  }

  /** The table after a push: untouched when no link died, else without the dead links and without channels left empty. */
  function Cleared(m: Subs, gone: set<LinkId>): Subs {
    if gone == {} then m else map c | c in m && Kept(m[c], gone) != [] :: Kept(m[c], gone)
  }

  lemma {:induction false} KeptAll(s: seq<Sub>)
    ensures Kept(s, {}) == s
  {
    if s != [] {
      KeptAll(s[..|s| - 1]);
    }
  }

  lemma {:induction false} KeptOneLess(s: seq<Sub>, gone: set<LinkId>, l: LinkId)
    ensures Without(Kept(s, gone), l) == Kept(s, gone + {l})
  {
    if s != [] {
      var rest, x := Kept(s[..|s| - 1], gone), s[|s| - 1];
      KeptOneLess(s[..|s| - 1], gone, l);
      assert (rest + [x])[..|rest|] == rest;
    }
  }

  lemma ClearedOneMore(m: Subs, gone: set<LinkId>, l: LinkId)
    ensures Purged(Cleared(m, gone), l) == Cleared(m, gone + {l})
  {
    forall c | c in m
      ensures Without(Kept(m[c], gone), l) == Kept(m[c], gone + {l}) && Kept(m[c], {}) == m[c]
    {
      KeptOneLess(m[c], gone, l);
      KeptAll(m[c]);
    }
  }

  /** Unsubscribes one dead link after the other. */
  method DropDead(m: Subs, dead: set<LinkId>) returns (r: Subs)
    requires Bounded(m)
    ensures Bounded(r) && r == Cleared(m, dead) && Forgotten(r, dead)
  {
    r := m;
    var todo := dead;
    ghost var gone := {};
    while todo != {}
      invariant gone + todo == dead && Bounded(r) && r == Cleared(m, gone) && Forgotten(r, gone)
      decreases todo
    {
      var l :| l in todo;
      PurgedForgets(r, gone, l);
      PurgedIsBounded(r, l);
      ClearedOneMore(m, gone, l);
      r := PurgeLoop(r, l);
      todo := todo - {l};
      gone := gone + {l};
    }
    assert gone == dead;
  }

  ghost predicate Forgotten(m: Subs, gone: set<LinkId>) {
    forall l, c :: l in gone && c in m ==> !Has(m[c], l)
  }

  method ReplayLoop(l: LinkId, identity: string, entries: seq<Entry>) returns (calls: seq<Deferral>)
    ensures calls == Replays(l, identity, entries)
  {
    calls := [];
    for k := 0 to |entries|
      invariant calls == Replays(l, identity, entries)[..k]
    {
      calls := calls + [Deferral(l, identity, entries[k].item)];
    }
  }

  function Replays(l: LinkId, identity: string, es: seq<Entry>): (r: seq<Deferral>)
    ensures |r| == |es| && forall i :: 0 <= i < |es| ==> r[i] == Deferral(l, identity, es[i].item)
  {
    seq(|es|, i requires 0 <= i < |es| => Deferral(l, identity, es[i].item))
  }

  function Split(s: seq<Sub>, capable: set<LinkId>, want: bool): (r: seq<Sub>)
    ensures forall x :: x in r <==> x in s && (x.link in capable) == want
  {
    if s == [] then []
    else
      var rest, x := Split(s[..|s| - 1], capable, want), s[|s| - 1];
      assert s == s[..|s| - 1] + [x];
      if (x.link in capable) == want then rest + [x] else rest
  }

  lemma PurgedForgets(m: Subs, gone: set<LinkId>, l: LinkId)
    requires Forgotten(m, gone)
    ensures Forgotten(Purged(m, l), gone + {l})
  {
    forall k, c | k in gone + {l} && c in Purged(m, l)
      ensures !Has(Purged(m, l)[c], k)
    {
      var r := Without(m[c], l);
      assert forall i :: 0 <= i < |r| ==> r[i] in r && r[i] in m[c];
    }
  }

  /** The channel's list is already without the link, and gone if that left it empty. */
  predicate PoppedAt(m: Subs, r: Subs, l: LinkId, c: string)
    requires c in m
  {
    var left := Without(m[c], l);
    if left == [] then c !in r else c in r && r[c] == left
  }

  ghost predicate Popping(m: Subs, r: Subs, l: LinkId, todo: set<string>) {
    && todo <= m.Keys && r.Keys <= m.Keys
    && (forall c :: c in todo ==> c in r && r[c] == m[c])
    && (forall c :: c in m && c !in todo ==> PoppedAt(m, r, l, c))
  }

  lemma PopNext(m: Subs, r: Subs, l: LinkId, todo: set<string>, c: string, r': Subs)
    requires Popping(m, r, l, todo) && c in todo
    requires r' == if Without(r[c], l) == [] then r - {c} else r[c := Without(r[c], l)]
    ensures Popping(m, r', l, todo - {c})
  {
    forall d | d in m && d !in todo - {c}
      ensures PoppedAt(m, r', l, d)
    {
      assert d != c ==> PoppedAt(m, r, l, d);
    }
  }

  lemma AllPopped(m: Subs, r: Subs, l: LinkId)
    requires Popping(m, r, l, {})
    ensures r == Purged(m, l)
  {
    forall c | c in m
      ensures c in r <==> c in Purged(m, l)
      ensures c in r ==> r[c] == Purged(m, l)[c]
    {
      assert PoppedAt(m, r, l, c);
    }
  }

  /** Pops the link from one channel after the other, deleting channels left empty. */
  method PurgeLoop(m: Subs, l: LinkId) returns (r: Subs)
    ensures r == Purged(m, l)
  {
    r := m;
    var todo := m.Keys;
    while todo != {}
      invariant Popping(m, r, l, todo)
      decreases todo
    {
      var c :| c in todo;
      var left := Without(r[c], l);
      var next := if left == [] then r - {c} else r[c := left];
      PopNext(m, r, l, todo, c, next);
      r, todo := next, todo - {c};
    }
    AllPopped(m, r, l);
  }
}
