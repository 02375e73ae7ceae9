/**
 * CDSP sessions and their deferred queues: opening, resuming and closing
 * sessions, deferring with eviction, flushing on resume or profile upgrade,
 * and expiry.
 */
module CdspSession {
  import opened Common

  const CDSP_VERSION := 1

  datatype Status = Active | Closed

  datatype Session = Session(identity: string, profile: int, status: Status, token: string, lastActivity: int, expiresAt: int)

  /** `id` is the autoincrement key, so ids grow in enqueue order. */
  datatype Item = Item(id: nat, payload: string, expiresAt: int)

  datatype Reply =
    | Rejected(code: nat)
    | Opened(session: string, token: string)
    | Resumed(session: string, flushed: seq<Item>)
    | Updated(session: string, flushed: seq<Item>)

  type Sessions = map<string, Session>

  type Queues = map<string, seq<Item>>

  predicate ValidProfile(p: int) {
    1 <= p <= 4
  }

  /** max_sync_limit of FULL, PRIORITIZED, MINIMAL, BATCHED. */
  function SyncLimit(p: int): int {
    if p == 1 then 100 else if p == 2 then 20 else if p == 3 then 5 else if p == 4 then 50 else 0
  }

  /** FULL allows more than BATCHED, that more than PRIORITIZED, and that more than MINIMAL. */
  predicate Wider(p: int, q: int) {
    (p == 1 && q in {2, 3, 4}) || (p == 4 && q in {2, 3}) || (p == 2 && q == 3)
  }

  lemma WiderIff(p: int, q: int)
    requires ValidProfile(p) && ValidProfile(q)
    ensures SyncLimit(p) > SyncLimit(q) <==> Wider(p, q)
  {
  }

  // ---- One queue ----

  /** Keeps the newest `keep`; an empty keep set, or a negative SQL limit, evicts nothing. */
  function EvictOldest(q: seq<Item>, keep: int): seq<Item> {
    if keep <= 0 then q else LastN(q, keep)
  }

  function Defer(q: seq<Item>, limit: int, item: Item): seq<Item> {
    (if |q| >= limit then EvictOldest(q, limit - 1) else q) + [item]
  }

  function DeferAll(items: seq<Item>, limit: int): seq<Item> {
    if items == [] then [] else Defer(DeferAll(items[..|items| - 1], limit), limit, items[|items| - 1])
  }

  lemma DeferOnLast(front: seq<Item>, limit: nat, x: Item)
    requires limit >= 2
    ensures Defer(LastN(front, limit), limit, x) == LastN(front + [x], limit)
  {
    if |front| >= limit {
      assert LastN(LastN(front, limit), limit - 1) == front[|front| - limit + 1..];
      assert (front + [x])[|front| + 1 - limit..] == front[|front| + 1 - limit..] + [x];
    }
  }

  /** What a queue without interruptions holds: the newest `limit`, or everything when the limit is below two. */
  lemma {:induction false} DeferAllIs(items: seq<Item>, limit: int)
    ensures DeferAll(items, limit) == if limit >= 2 then LastN(items, limit) else items
  {
    if items != [] {
      var front := items[..|items| - 1];
      DeferAllIs(front, limit);
      assert items == front + [items[|items| - 1]];
      if limit >= 2 {
        DeferOnLast(front, limit, items[|items| - 1]);
      }
    }
  }

  /** The bound holds for every sequence of deferrals if and only if the limit is at least two. */
  lemma QueueBoundedIff(limit: int)
    ensures (forall items: seq<Item> :: |DeferAll(items, limit)| <= limit) <==> limit >= 2
  {
    if limit >= 2 {
      forall items: seq<Item>
        ensures |DeferAll(items, limit)| <= limit
      {
        DeferAllIs(items, limit);
      }
    } else {
      var two := [Item(0, "", 0), Item(1, "", 0)];
      DeferAllIs(two, limit);
      assert |DeferAll(two, limit)| > limit;
    }
  }

  // ---- Finding the active session ----

  predicate ActiveFor(s: Session, identity: string) {
    s.status == Active && s.identity == identity
  }

  method FindActive(m: Sessions, identity: string) returns (r: Option<string>)
    ensures r.Some? ==> r.value in m && m[r.value].status == Active && m[r.value].identity == identity
    ensures r.None? ==> forall id :: id in m ==> m[id].status != Active || m[id].identity != identity
  {
    var todo := m.Keys;
    while todo != {}
      invariant todo <= m.Keys
      invariant forall id :: id in m && id !in todo ==> !ActiveFor(m[id], identity)
      decreases todo
    {
      var id :| id in todo;
      if ActiveFor(m[id], identity) {
        return Some(id);
      }
      todo := todo - {id};
    }
    return None;
  }

  // ---- Tables ----

  ghost predicate OneActive(m: Sessions) {
    forall a, b :: a in m && b in m && m[a].status == Active && m[b].status == Active && m[a].identity == m[b].identity ==> a == b
  }

  /** Ids ascend along the sequence and stay below `top`. */
  ghost predicate Ascending(ids: seq<nat>, top: nat) {
    && (forall i, j :: 0 <= i < j < |ids| ==> ids[i] < ids[j])
    && (forall i :: 0 <= i < |ids| ==> ids[i] < top)
  }

  function Ids(q: seq<Item>): (r: seq<nat>)
    ensures |r| == |q| && forall i :: 0 <= i < |q| ==> r[i] == q[i].id
  {
    seq(|q|, i requires 0 <= i < |q| => q[i].id)
  }

  function QueueIn(q: Queues, s: string): seq<Item> {
    if s in q then q[s] else []
  }

  function LogIn(log: map<string, seq<nat>>, s: string): seq<nat> {
    if s in log then log[s] else []
  }

  /** Everything a session was ever handed, followed by what it still has queued, is in enqueue order without repeats. */
  ghost predicate InOrderFor(log: map<string, seq<nat>>, queues: Queues, s: string, top: nat) {
    Ascending(LogIn(log, s) + Ids(QueueIn(queues, s)), top)
  }

  ghost predicate AllInOrder(log: map<string, seq<nat>>, queues: Queues, top: nat) {
    forall s :: InOrderFor(log, queues, s, top)
  }

  lemma FlushInOrder(log: map<string, seq<nat>>, queues: Queues, s: string, top: nat)
    requires AllInOrder(log, queues, top)
    ensures AllInOrder(log[s := LogIn(log, s) + Ids(QueueIn(queues, s))], queues[s := []], top)
  {
    var log', queues' := log[s := LogIn(log, s) + Ids(QueueIn(queues, s))], queues[s := []];
    forall t
      ensures InOrderFor(log', queues', t, top)
    {
      assert InOrderFor(log, queues, t, top);
      if t == s {
        assert LogIn(log', s) + Ids(QueueIn(queues', s)) == LogIn(log, s) + Ids(QueueIn(queues, s));
      }
    }
  }

  lemma AscendingDrop(a: seq<nat>, b: seq<nat>, b': seq<nat>, top: nat)
    requires Ascending(a + b, top) && |b'| <= |b| && b' == b[|b| - |b'|..]
    ensures Ascending(a + (b' + [top]), top + 1)
  {
    var u, v := a + b, a + (b' + [top]);
    var d := |b| - |b'|;
    assert forall i :: 0 <= i < |v| - 1 ==> v[i] == u[if i < |a| then i else i + d];
  }

  lemma KeptIsSuffix(q: seq<Item>, limit: int, item: Item) returns (kept: seq<Item>)
    ensures Defer(q, limit, item) == kept + [item] && |kept| <= |q| && kept == q[|q| - |kept|..]
  {
    kept := if |q| >= limit then EvictOldest(q, limit - 1) else q;
  }

  lemma DeferOneInOrder(handed: seq<nat>, q: seq<Item>, kept: seq<Item>, top: nat, item: Item)
    requires Ascending(handed + Ids(q), top) && |kept| <= |q| && kept == q[|q| - |kept|..] && item.id == top
    ensures Ascending(handed + Ids(kept + [item]), top + 1)
  {
    assert Ids(kept) == Ids(q)[|q| - |kept|..];
    AscendingDrop(handed, Ids(q), Ids(kept), top);
    assert Ids(kept + [item]) == Ids(kept) + [top];
  }

  /** Eviction drops from the front only, so a deferral keeps the order of everything left. */
  lemma DeferInOrder(log: map<string, seq<nat>>, queues: Queues, s: string, top: nat, limit: int, item: Item)
    requires AllInOrder(log, queues, top) && item.id == top
    ensures AllInOrder(log, queues[s := Defer(QueueIn(queues, s), limit, item)], top + 1)
  {
    var q := QueueIn(queues, s);
    var queues', next := queues[s := Defer(q, limit, item)], top + 1;
    var kept := KeptIsSuffix(q, limit, item);
    forall t
      ensures InOrderFor(log, queues', t, next)
    {
      assert InOrderFor(log, queues, t, top);
      if t == s {
        DeferOneInOrder(LogIn(log, s), q, kept, top, item);
      }
    }
  }

  lemma ForgetInOrder(log: map<string, seq<nat>>, queues: Queues, gone: set<string>, top: nat)
    requires AllInOrder(log, queues, top)
    ensures AllInOrder(log, queues - gone, top)
  {
    var queues' := queues - gone;
    forall t
      ensures InOrderFor(log, queues', t, top)
    {
      assert InOrderFor(log, queues, t, top);
      if t in gone {
        assert LogIn(log, t) == (LogIn(log, t) + Ids(QueueIn(queues, t)))[..|LogIn(log, t)|];
        assert LogIn(log, t) + Ids(QueueIn(queues', t)) == LogIn(log, t);
      }
    }
  }

  /** Items carry the expiry of their session, which never changes. */
  ghost predicate SameExpiry(m: Sessions, queues: Queues) {
    && queues.Keys <= m.Keys
    && (forall s, x :: s in queues && x in queues[s] ==> x.expiresAt == m[s].expiresAt)
  }

  lemma DeferredIsKnown(q: seq<Item>, limit: int, item: Item)
    ensures forall x :: x in Defer(q, limit, item) ==> x in q || x == item
    ensures limit >= 2 && |q| <= limit ==> |Defer(q, limit, item)| <= limit
  {
  }

  lemma DeferExpiry(m: Sessions, queues: Queues, s: string, q: seq<Item>, item: Item)
    requires SameExpiry(m, queues) && s in m && item.expiresAt == m[s].expiresAt
    requires forall x :: x in q ==> x in QueueIn(queues, s) || x == item
    ensures SameExpiry(m, queues[s := q])
  {
  }

  predicate Expired(s: Session, now: int, timeout: int) {
    s.lastActivity < now - timeout || s.expiresAt < now
  }

  function DropExpired(q: seq<Item>, now: int): seq<Item> {
    if q == [] then []
    else
      var rest := DropExpired(q[..|q| - 1], now);
      if q[|q| - 1].expiresAt < now then rest else rest + [q[|q| - 1]]
  }

  /** The item sweep drops exactly the expired items. */
  lemma {:induction false} DropExpiredIs(q: seq<Item>, now: int, x: Item)
    ensures x in DropExpired(q, now) <==> x in q && x.expiresAt >= now
  {
    if q != [] {
      assert q == q[..|q| - 1] + [q[|q| - 1]];
      DropExpiredIs(q[..|q| - 1], now, x);
    }
  }

  /** Expiring sessions first, with their items, leaves no expired item for the second sweep. */
  lemma {:induction false} NothingLeftToExpire(q: seq<Item>, expiry: int, now: int)
    requires expiry >= now && forall x :: x in q ==> x.expiresAt == expiry
    ensures DropExpired(q, now) == q
  {
    if q != [] {
      assert q == q[..|q| - 1] + [q[|q| - 1]];
      NothingLeftToExpire(q[..|q| - 1], expiry, now);
    }
  }

  function SweepItems(queues: Queues, now: int): Queues {
    map s | s in queues :: DropExpired(queues[s], now)
  }

  lemma SecondSweepIsNoop(m: Sessions, queues: Queues, now: int)
    requires SameExpiry(m, queues) && forall s :: s in m ==> m[s].expiresAt >= now
    ensures SweepItems(queues, now) == queues
  {
    forall s | s in queues
      ensures DropExpired(queues[s], now) == queues[s]
    {
      NothingLeftToExpire(queues[s], m[s].expiresAt, now);
    }
  }

  /** Closing whatever session of the identity is active; every other one stays as it is. */
  function ClosedFor(m: Sessions, identity: string, now: int): Sessions {
    map s | s in m :: if ActiveFor(m[s], identity) then m[s].(status := Closed, lastActivity := now) else m[s]
  }

  class SessionManager {
    const limit: int
    const timeout: int
    var sessions: Sessions
    var queues: Queues
    var nextId: nat

    /** Every id ever handed to each session, in order. */
    ghost var flushed: map<string, seq<nat>>

    ghost predicate Valid()
      reads this`sessions, this`queues, this`nextId, this`flushed
    {
      && OneActive(sessions)
      && SameExpiry(sessions, queues)
      && AllInOrder(flushed, queues, nextId)
      && (limit >= 2 ==> forall s :: s in queues ==> |queues[s]| <= limit)
      && (forall s :: s in sessions ==> ValidProfile(sessions[s].profile))
    }

    constructor (limit: int, timeout: int)
      ensures Valid() && sessions == map[] && this.limit == limit && this.timeout == timeout
    {
      this.limit, this.timeout, sessions, queues, nextId, flushed := limit, timeout, map[], map[], 0, map[];
    }

    /** Hands over the whole queue, oldest first, and empties it. */
    method Flush(s: string) returns (items: seq<Item>)
      requires Valid() && s in sessions
      modifies this`queues, this`flushed
      ensures Valid() && items == old(QueueIn(queues, s))
      ensures queues == old(queues)[s := []]
      ensures flushed == old(flushed)[s := LogIn(old(flushed), s) + Ids(items)]
    {
      FlushInOrder(flushed, queues, s, nextId);
      items := QueueIn(queues, s);
      flushed := flushed[s := LogIn(flushed, s) + Ids(items)];
      queues := queues[s := []];
    }

    /**
     * Session init. Afterwards the identity has exactly one active session,
     * unless the request was rejected and nothing changed; other identities
     * keep their sessions and queues.
     */
    method HandleSessionInit(identity: string, version: int, profile: int, token: string, now: int, newId: string, newToken: string)
      returns (r: Reply)
      requires Valid() && newId !in sessions && newId !in queues
      modifies this
      ensures Valid()
      ensures r.Rejected? <==> version > 1 || !(1 <= profile <= 4)
      ensures r.Rejected? ==> r.code == if version > 1 then 1 else 2
      ensures r.Rejected? ==> sessions == old(sessions) && queues == old(queues) && flushed == old(flushed)
      ensures r.Resumed? <==> !r.Rejected? && token != "" && exists id :: id in old(sessions) && ActiveFor(old(sessions)[id], identity) && old(sessions)[id].token == token
      ensures r.Resumed? ==>
                && r.session in old(sessions)
                && old(sessions)[r.session].status == Active && old(sessions)[r.session].identity == identity
                && r.flushed == old(QueueIn(queues, r.session))
                && sessions == old(sessions)[r.session := old(sessions)[r.session].(profile := profile, lastActivity := now)]
                && queues == old(queues)[r.session := []]
      ensures r.Opened? ==>
                && r == Opened(newId, newToken) && queues == old(queues)
                && sessions.Keys == old(sessions).Keys + {newId}
                && sessions[newId] == Session(identity, profile, Active, newToken, now, now + timeout)
                && forall id :: id in old(sessions) ==>
                     sessions[id] == if old(sessions)[id].status == Active && old(sessions)[id].identity == identity
                                     then old(sessions)[id].(status := Closed, lastActivity := now) else old(sessions)[id]
    {
      if version > CDSP_VERSION {
        return Rejected(1);
      }
      if !ValidProfile(profile) {
        return Rejected(2);
      }
      var existing := FindActive(sessions, identity);
      if token != "" && existing.Some? && sessions[existing.value].token == token {
        r := Resume(existing.value, profile, now);
      } else {
        CloseActive(existing, identity, now);
        Open(identity, profile, newId, newToken, now);
        r := Opened(newId, newToken);
      }
    }

    /** Same session, new profile, and everything that waited is handed over. */
    method Resume(s: string, profile: int, now: int) returns (r: Reply)
      requires Valid() && s in sessions && ValidProfile(profile)
      modifies this`sessions, this`queues, this`flushed
      ensures Valid() && r == Resumed(s, old(QueueIn(queues, s)))
      ensures sessions == old(sessions)[s := old(sessions)[s].(profile := profile, lastActivity := now)]
      ensures queues == old(queues)[s := []]
    {
      sessions := sessions[s := sessions[s].(profile := profile, lastActivity := now)];
      var items := Flush(s);
      r := Resumed(s, items);
    }

    method CloseActive(existing: Option<string>, identity: string, now: int)
      requires Valid()
      requires existing.Some? ==> existing.value in sessions && ActiveFor(sessions[existing.value], identity)
      requires existing.None? ==> forall id :: id in sessions ==> !ActiveFor(sessions[id], identity)
      modifies this`sessions
      ensures Valid() && sessions == ClosedFor(old(sessions), identity, now)
    {
      if existing.Some? {
        var s := existing.value;
        sessions := sessions[s := sessions[s].(status := Closed, lastActivity := now)];
      }
    }

    method Open(identity: string, profile: int, newId: string, newToken: string, now: int)
      requires Valid() && newId !in sessions && newId !in queues && ValidProfile(profile)
      requires forall id :: id in sessions ==> !ActiveFor(sessions[id], identity)
      modifies this`sessions
      ensures Valid()
      ensures sessions == old(sessions)[newId := Session(identity, profile, Active, newToken, now, now + timeout)]
    {
      sessions := sessions[newId := Session(identity, profile, Active, newToken, now, now + timeout)];
    }

    /** Flushes exactly when the new profile is wider than the old one. */
    method HandleProfileUpdate(s: string, profile: int, now: int) returns (r: Reply)
      requires Valid()
      modifies this
      ensures Valid()
      ensures r.Rejected? <==> !(1 <= profile <= 4) || s !in old(sessions) || old(sessions)[s].status != Active
      ensures r.Rejected? ==> sessions == old(sessions) && queues == old(queues) && flushed == old(flushed)
      ensures r.Rejected? ==> r.code == if !(1 <= profile <= 4) then 2 else 3
      ensures r.Updated? <==> !r.Rejected?
      ensures r.Updated? ==> sessions == old(sessions)[s := old(sessions)[s].(profile := profile, lastActivity := now)]
      ensures r.Updated? ==>
                if Wider(profile, old(sessions)[s].profile)
                then r == Updated(s, old(QueueIn(queues, s))) && queues == old(queues)[s := []]
                else r == Updated(s, []) && queues == old(queues)
    {
      if !ValidProfile(profile) {
        return Rejected(2);
      }
      if s !in sessions || sessions[s].status != Active {
        return Rejected(3);
      }
      var was := sessions[s].profile;
      WiderIff(profile, was);
      sessions := sessions[s := sessions[s].(profile := profile, lastActivity := now)];
      var items := [];
      if SyncLimit(profile) > SyncLimit(was) {
        items := Flush(s);
      }
      return Updated(s, items);
    }

    /** Without an active session the item is dropped; otherwise it is queued last. */
    method DeferSyncItem(identity: string, payload: string)
      requires Valid()
      modifies this`queues, this`nextId
      ensures Valid()
      ensures (forall id :: id in sessions ==> !ActiveFor(sessions[id], identity)) ==> queues == old(queues)
      ensures forall id :: id in sessions && ActiveFor(sessions[id], identity) ==>
                queues == old(queues)[id := Defer(QueueIn(old(queues), id), limit, Item(old(nextId), payload, sessions[id].expiresAt))]
    {
      var found := FindActive(sessions, identity);
      if found.Some? {
        Enqueue(found.value, payload);
      }
    }

    /** Evicts the oldest when the queue is full, and queues the item last. */
    method Enqueue(s: string, payload: string)
      requires Valid() && s in sessions
      modifies this`queues, this`nextId
      ensures Valid()
      ensures queues == old(queues)[s := Defer(QueueIn(old(queues), s), limit, Item(old(nextId), payload, sessions[s].expiresAt))]
    {
      var item := Item(nextId, payload, sessions[s].expiresAt);
      var q := QueueIn(queues, s);
      DeferInOrder(flushed, queues, s, nextId, limit, item);
      DeferredIsKnown(q, limit, item);
      DeferExpiry(sessions, queues, s, Defer(q, limit, item), item);
      if |q| >= limit {
        q := EvictOldest(q, limit - 1);
      }
      queues := queues[s := q + [item]];
      nextId := nextId + 1;
    }

    /** Expired sessions go with their items; the others are untouched. */
    method CleanupExpired(now: int)
      requires Valid()
      modifies this`sessions, this`queues
      ensures Valid()
      ensures forall s :: s in sessions <==>
                s in old(sessions) && old(sessions)[s].lastActivity >= now - timeout && old(sessions)[s].expiresAt >= now
      ensures forall s :: s in sessions ==> sessions[s] == old(sessions)[s]
      ensures forall s :: s in queues <==> s in old(queues) && s in sessions
      ensures forall s :: s in queues ==> queues[s] == old(queues)[s]
    {
      var gone := set s | s in sessions && Expired(sessions[s], now, timeout);
      Forget(gone);
      SecondSweepIsNoop(sessions, queues, now);
      queues := SweepItems(queues, now);
    }

    method Forget(gone: set<string>)
      requires Valid()
      modifies this`sessions, this`queues
      ensures Valid() && sessions == old(sessions) - gone && queues == old(queues) - gone
    {
      ForgetInOrder(flushed, queues, gone, nextId);
      sessions, queues := sessions - gone, queues - gone;
    }
  }
}
