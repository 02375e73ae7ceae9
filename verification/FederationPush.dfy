/**
 * Pushing a channel to a federated peer: the pusher object, the run of a node
 * that ingests, prunes, pushes and receives acknowledgements, and what the
 * receiving node's acknowledgements do to the push cursor.
 */
module FederationPush {
  import opened Common
  import opened MessageStore
  import opened MessageNumbering

  const PUSH_BATCH_SIZE: nat := 15

  /** The columns of a stored message the pusher looks at. */
  datatype Msg = Msg(seqNo: nat, hash: Hash, sender: string, origin: string)

  predicate Pushable(m: Msg, peer: string, blocked: set<string>) {
    m.origin != peer && (m.sender == "" || m.sender !in blocked)
  }

  function ToPush(ms: seq<Msg>, peer: string, blocked: set<string>): seq<Msg> {
    if ms == [] then []
    else
      var rest := ToPush(ms[..|ms| - 1], peer, blocked);
      if Pushable(ms[|ms| - 1], peer, blocked) then rest + [ms[|ms| - 1]] else rest
  }

  function TopSeq(ms: seq<Msg>, floor: nat): (t: nat)
    ensures t >= floor
  {
    if ms == [] then floor else Max(TopSeq(ms[..|ms| - 1], floor), ms[|ms| - 1].seqNo)
  }

  function MaxOf(ns: seq<nat>, floor: nat): (m: nat)
    ensures m >= floor && (m == floor || m in ns)
    ensures forall n :: n in ns ==> n <= m
  {
    if ns == [] then floor
    else
      var r := MaxOf(ns[..|ns| - 1], floor);
      assert ns == ns[..|ns| - 1] + [ns[|ns| - 1]];
      Max(r, ns[|ns| - 1])
  }

  // ---- The pusher object ----

  class FederationPusher {
    const peer: string
    var cursor: nat
    var failures: nat

    constructor (peer: string)
      ensures this.peer == peer && cursor == 0 && failures == 0
    {
      this.peer, cursor, failures := peer, 0, 0;
    }

    /**
     * `linked` says a link and a session factory are set, `history` is the
     * query result, and `sent` says encoding and sending raised nothing. The
     * batch returned is what went onto the link. Only a batch with nothing to
     * push moves the cursor.
     */
    method PushPending(linked: bool, history: seq<Msg>, blocked: set<string>, sent: bool)
      returns (ok: bool, batch: seq<Msg>)
      modifies this
      ensures ok == (linked && (sent || ToPush(history, peer, blocked) == []))
      ensures batch == if ok then ToPush(history, peer, blocked) else []
      ensures forall m :: m in batch ==> m in history && m.origin != peer && (m.sender == "" || m.sender !in blocked)
      ensures cursor == if ok && batch == [] then TopSeq(history, old(cursor)) else old(cursor)
      ensures failures == if ok then 0 else old(failures) + 1
    {
      if !linked {
        failures := failures + 1;
        return false, [];
      }
      var toPush: seq<Msg>, maxSeq := [], cursor;
      for k := 0 to |history|
        invariant toPush == ToPush(history[..k], peer, blocked)
        invariant maxSeq == TopSeq(history[..k], cursor)
        invariant unchanged(this)
      {
        var m := history[k];
        assert history[..k + 1] == history[..k] + [m];
        if m.seqNo > maxSeq {
          maxSeq := m.seqNo;
        }
        if m.origin == peer {
          continue;
        }
        if m.sender != "" && m.sender in blocked {
          continue;
        }
        toPush := toPush + [m];
      }
      assert history[..|history|] == history;
      ToPushFilters(history, peer, blocked);
      if toPush == [] {
        if history != [] && maxSeq > cursor {
          cursor := maxSeq;
        }
        failures := 0;
        return true, [];
      }
      if !sent {
        failures := failures + 1;
        return false, [];
      }
      failures := 0;
      return true, toPush;
    }

    method HandlePushAck(received: seq<nat>)
      modifies this`cursor
      ensures cursor == MaxOf(received, old(cursor))
    {
      if received != [] {
        var maxSeq := received[0];
        for k := 1 to |received|
          invariant maxSeq in received[..k] && forall n :: n in received[..k] ==> n <= maxSeq
        {
          assert received[..k + 1] == received[..k] + [received[k]];
          maxSeq := Max(maxSeq, received[k]);
        }
        assert received[..|received|] == received;
        if maxSeq > cursor {
          cursor := maxSeq;
        }
      }
    }
  }

  // ---- The history query ----

  ghost function MsgAt(db: Db, c: string, n: nat): (m: Msg)
    requires Occupied(db, c, n)
    ensures m.seqNo == n && At(db, m.hash, c, n)
    ensures m.origin == db.messages[m.hash].origin && m.sender == db.messages[m.hash].sender
  {
    var h :| At(db, h, c, n);
    Msg(n, h, db.messages[h].sender, db.messages[h].origin)
  }

  function Latest(db: Db, c: string): nat {
    if c in db.channels then db.channels[c].latestSeq else 0
  }

  /** The first `limit` stored messages with a number above `since`, in ascending order. */
  ghost function History(db: Db, c: string, since: nat, limit: nat): (ms: seq<Msg>)
    ensures |ms| <= limit
    decreases Latest(db, c) - since
  {
    if limit == 0 || since >= Latest(db, c) then []
    else if Occupied(db, c, since + 1) then [MsgAt(db, c, since + 1)] + History(db, c, since + 1, limit - 1)
    else History(db, c, since + 1, limit)
  }

  lemma TopSeqCons(m: Msg, ms: seq<Msg>, floor: nat)
    requires m.seqNo >= floor
    ensures TopSeq([m] + ms, floor) == TopSeq(ms, m.seqNo)
  {
    if ms == [] {
      assert ([m] + ms)[..0] == [];
    } else {
      TopSeqCons(m, ms[..|ms| - 1], floor);
      assert ([m] + ms)[..|ms|] == [m] + ms[..|ms| - 1];
    }
  }

  /** The batch lies above `since` and misses nothing up to `top`. */
  ghost predicate Gapless(db: Db, c: string, since: nat, ms: seq<Msg>, top: nat) {
    && since <= top <= Max(since, Latest(db, c))
    && (forall m :: m in ms ==> since < m.seqNo <= top)
    && (forall n: nat :: since < n <= top && Occupied(db, c, n) ==> MsgAt(db, c, n) in ms)
  }

  lemma {:induction false} HistoryIsGapless(db: Db, c: string, since: nat, limit: nat)
    ensures Gapless(db, c, since, History(db, c, since, limit), TopSeq(History(db, c, since, limit), since))
    decreases Latest(db, c) - since
  {
    if limit > 0 && since < Latest(db, c) {
      if Occupied(db, c, since + 1) {
        HistoryIsGapless(db, c, since + 1, limit - 1);
        TopSeqCons(MsgAt(db, c, since + 1), History(db, c, since + 1, limit - 1), since);
      } else {
        HistoryIsGapless(db, c, since + 1, limit);
        TopSeqFloor(History(db, c, since + 1, limit), since);
      }
    }
  }

  /** It is empty only when nothing is stored above `since`. */
  lemma {:induction false} HistoryIsExhaustive(db: Db, c: string, since: nat, limit: nat)
    requires AllInRange(db) && limit > 0
    ensures History(db, c, since, limit) == [] ==> forall n: nat :: n > since ==> !Occupied(db, c, n)
    decreases Latest(db, c) - since
  {
    if since < Latest(db, c) && !Occupied(db, c, since + 1) {
      HistoryIsExhaustive(db, c, since + 1, limit);
    }
  }

  /** A batch above the floor has the same top whatever the floor, unless it is empty. */
  lemma {:induction false} TopSeqFloor(ms: seq<Msg>, floor: nat)
    requires forall m :: m in ms ==> m.seqNo > floor + 1
    ensures ms != [] ==> TopSeq(ms, floor) == TopSeq(ms, floor + 1)
  {
    if |ms| > 1 {
      assert forall m :: m in ms[..|ms| - 1] ==> m in ms;
      TopSeqFloor(ms[..|ms| - 1], floor);
    } else if |ms| == 1 {
      assert ms[0] in ms && ms[..0] == [];
    }
  }

  // ---- A node pushing channel `c` to `peer` ----

  /** A fetched message, the node it had come from, and the bans when it was fetched. */
  datatype Dispatch = Dispatch(msg: Msg, source: string, bans: set<string>)

  /**
   * `sent` are the messages ever put on the link, `filtered` those ever passed
   * over by the origin or ban filter, `high` the highest number ever fetched,
   * and `via` the node each stored message came from, as the events had it.
   */
  datatype Sender = Sender(
    node: string, peer: string, c: string, db: Db, blocked: set<string>, cursor: nat,
    sent: set<Dispatch>, filtered: set<Dispatch>, high: nat, via: map<Hash, string>)

  datatype PushEvent =
    | Store(e: Event)
    | Block(who: string)
    | Unblock(who: string)
    | PushPending(delivered: bool)
    | PushAck(received: seq<nat>)

  function SourceOf(e: Event, node: string): string {
    match e
    case MirrorPull(_, m, peer, _) => if peer != "" then peer else m.origin
    case PeerPush(_, _, peer, _) => peer
    case _ => node
  }

  function Record(via: map<Hash, string>, db: Db, db': Db, source: string): map<Hash, string> {
    map h | h in db'.messages.Keys :: if h in db.messages && h in via then via[h] else source
  }

  function SourceAt(s: Sender, h: Hash): string {
    if h in s.via then s.via[h] else s.node
  }

  function Fetched(s: Sender, m: Msg): Dispatch {
    Dispatch(m, SourceAt(s, m.hash), s.blocked)
  }

  ghost function Push1(s: Sender): Sender {
    var batch := History(s.db, s.c, s.cursor, PUSH_BATCH_SIZE);
    var out := ToPush(batch, s.peer, s.blocked);
    s.(cursor := if out == [] then TopSeq(batch, s.cursor) else s.cursor,
       sent := s.sent + (set m | m in out :: Fetched(s, m)),
       filtered := s.filtered + (set m | m in batch && m !in out :: Fetched(s, m)),
       high := Max(s.high, TopSeq(batch, s.cursor)))
  }

  ghost function Next(s: Sender, e: PushEvent): Sender {
    match e
    case Store(ev) =>
      var db' := Step(s.db, ev, s.node);
      s.(db := db', via := Record(s.via, s.db, db', SourceOf(ev, s.node)))
    case Block(who) => s.(blocked := s.blocked + {who})
    case Unblock(who) => s.(blocked := s.blocked - {who})
    case PushPending(delivered) => if delivered then Push1(s) else s
    case PushAck(received) => s.(cursor := MaxOf(received, s.cursor))
  }

  /** An acknowledgement made of numbers this pusher has sent, however late or often it arrives. */
  ghost predicate Genuine(s: Sender, received: seq<nat>) {
    forall n :: n in received ==> exists d :: d in s.sent && d.msg.seqNo == n
  }

  ghost predicate CanHappen(s: Sender, e: PushEvent) {
    e.PushAck? ==> Genuine(s, e.received)
  }

  ghost predicate IsPushRun(s: Sender, es: seq<PushEvent>)
    decreases |es|
  {
    es == [] || (CanHappen(s, es[0]) && IsPushRun(Next(s, es[0]), es[1..]))
  }

  ghost function PushRun(s: Sender, es: seq<PushEvent>): Sender
    decreases |es|
  {
    if es == [] then s else PushRun(Next(s, es[0]), es[1..])
  }

  function NewSender(node: string, peer: string, c: string, channels: map<string, bool>): Sender {
    Sender(node, peer, c, Fresh(channels), {}, 0, {}, {}, 0, map[])
  }

  /** The message itself, not only its number, was sent or passed over. */
  ghost predicate Handled(s: Sender, h: Hash, n: nat) {
    || (exists d :: d in s.filtered && d.msg.hash == h && d.msg.seqNo == n)
    || (exists d :: d in s.sent && d.msg.hash == h && d.msg.seqNo == n)
  }

  /** Every stored message up to `bound` was sent in some batch or passed over by a filter. */
  ghost predicate CoveredTo(s: Sender, bound: nat) {
    forall h, n: nat :: n <= bound && At(s.db, h, s.c, n) ==> Handled(s, h, n)
  }

  /** What at-least-once delivery means for the push cursor. */
  ghost predicate Covered(s: Sender) {
    CoveredTo(s, s.cursor)
  }

  /** Stored rows name the node they came from. */
  ghost predicate OriginsTrue(s: Sender) {
    forall h :: h in s.db.messages ==> h in s.via && s.db.messages[h].origin == s.via[h]
  }

  /** The message had come from the peer, or its author was banned. */
  predicate Barred(d: Dispatch, peer: string) {
    d.source == peer || (d.msg.sender != "" && d.msg.sender in d.bans)
  }

  /** Nothing that came from the peer or whose author was banned was ever sent, and nothing else was ever passed over. */
  ghost predicate FilteredRightly(s: Sender) {
    && (forall d :: d in s.sent ==> !Barred(d, s.peer))
    && (forall d :: d in s.filtered ==> Barred(d, s.peer))
  }

  ghost predicate PushInv(s: Sender) {
    && Numbered(s.db)
    && s.high <= Latest(s.db, s.c)
    && CoveredTo(s, s.high)
    && (forall d :: d in s.filtered ==> d.msg.seqNo <= s.high) && (forall d :: d in s.sent ==> d.msg.seqNo <= s.high)
    && OriginsTrue(s) && FilteredRightly(s)
  }

  // ---- Each event keeps the invariant ----

  ghost predicate NewRowsFrom(db: Db, db': Db, source: string) {
    && (forall h :: h in db'.messages && h !in db.messages ==> db'.messages[h].origin == source)
    && (forall h :: h in db'.messages && h in db.messages ==> db'.messages[h].origin == db.messages[h].origin)
  }

  lemma EditSource(db: Db, e: Envelope, node: string)
    requires ProcessEdit(db, e, node).Ok?
    ensures NewRowsFrom(db, ProcessEdit(db, e, node).value, node)
  {
  }

  lemma PinSource(db: Db, e: Envelope, node: string)
    requires ProcessPin(db, e, node).Ok?
    ensures NewRowsFrom(db, ProcessPin(db, e, node).value, node)
  {
  }

  lemma StoreNewSource(db: Db, e: Envelope, node: string)
    requires StoreNew(db, e, node).Ok?
    ensures NewRowsFrom(db, StoreNew(db, e, node).value, node)
  {
  }

  lemma IngestSource(db: Db, e: Envelope, node: string)
    requires Ingest(db, e, node).Ok?
    ensures NewRowsFrom(db, Ingest(db, e, node).value, node)
  {
    match e.kind
    case Edit => EditSource(db, e, node);
    case Pin => PinSource(db, e, node);
    case Delete =>
    case Reaction =>
    case _ => StoreNewSource(db, e, node);
  }

  lemma {:induction false} PushSource(o: PushOutcome, ch: string, ms: seq<Remote>, peer: string)
    requires PushMessages(o, ch, ms, peer).Ok?
    ensures NewRowsFrom(o.db, PushMessages(o, ch, ms, peer).value.db, peer)
    ensures forall h :: h in o.db.messages ==> h in PushMessages(o, ch, ms, peer).value.db.messages
    decreases |ms|
  {
    if ms != [] {
      PushSource(PushOne(o, ch, ms[0], peer).value, ch, ms[1..], peer);
    }
  }

  /** A message a peer sent us is recorded as coming from that peer, and stays so. */
  lemma StepSource(db: Db, e: Event, node: string)
    ensures NewRowsFrom(db, Step(db, e, node), SourceOf(e, node))
  {
    if Apply(db, e, node).Ok? {
      match e
      case LocalIngest(env) => IngestSource(db, env, node);
      case PeerPush(ch, ms, peer, trusted) => PushSource(PushOutcome(db, [], []), ch, ms, peer);
      case _ =>
    }
  }

  lemma StoreKeepsInv(s: Sender, ev: Event)
    requires PushInv(s)
    ensures PushInv(Next(s, Store(ev)))
  {
    var s' := Next(s, Store(ev));
    StepKeepsGood(s.db, s.db, ev, s.node, false);
    StepSource(s.db, ev, s.node);
    forall h, n: nat | n <= s.high && At(s'.db, h, s.c, n)
      ensures Handled(s', h, n)
    {
      assert At(s.db, h, s.c, n);
      assert Handled(s, h, n);
    }
  }

  /** A fetched message carries the author and the origin of its row. */
  lemma {:induction false} HistoryOrigins(db: Db, c: string, since: nat, limit: nat)
    ensures forall m :: m in History(db, c, since, limit) ==>
              m.hash in db.messages && m.origin == db.messages[m.hash].origin && m.sender == db.messages[m.hash].sender
    decreases Latest(db, c) - since
  {
    if limit > 0 && since < Latest(db, c) {
      HistoryOrigins(db, c, since + 1, if Occupied(db, c, since + 1) then limit - 1 else limit);
    }
  }

  lemma {:induction false} ToPushFilters(ms: seq<Msg>, peer: string, blocked: set<string>)
    ensures forall m :: m in ToPush(ms, peer, blocked) <==>
              m in ms && m.origin != peer && (m.sender == "" || m.sender !in blocked)
  {
    if ms != [] {
      ToPushFilters(ms[..|ms| - 1], peer, blocked);
      assert ms == ms[..|ms| - 1] + [ms[|ms| - 1]];
    }
  }

  predicate InSequence(ms: seq<Msg>) {
    forall i, j :: 0 <= i < j < |ms| ==> ms[i].seqNo < ms[j].seqNo
  }

  /** A batch comes in ascending order. */
  lemma {:induction false} HistoryInSequence(db: Db, c: string, since: nat, limit: nat)
    ensures InSequence(History(db, c, since, limit))
    decreases Latest(db, c) - since
  {
    if limit > 0 && since < Latest(db, c) {
      if Occupied(db, c, since + 1) {
        HistoryInSequence(db, c, since + 1, limit - 1);
        HistoryIsGapless(db, c, since + 1, limit - 1);
      } else {
        HistoryInSequence(db, c, since + 1, limit);
      }
    }
  }

  /** And what is pushed of it in the same order. */
  lemma {:induction false} ToPushInSequence(ms: seq<Msg>, peer: string, blocked: set<string>)
    requires InSequence(ms)
    ensures InSequence(ToPush(ms, peer, blocked))
  {
    if ms != [] {
      var front, m := ms[..|ms| - 1], ms[|ms| - 1];
      ToPushInSequence(front, peer, blocked);
      ToPushFilters(front, peer, blocked);
      forall i | 0 <= i < |ToPush(front, peer, blocked)|
        ensures ToPush(front, peer, blocked)[i].seqNo < m.seqNo
      {
        assert ToPush(front, peer, blocked)[i] in front;
      }
    }
  }

  lemma PushKeepsInv(s: Sender)
    requires PushInv(s) && s.cursor <= s.high
    ensures PushInv(Push1(s)) && Push1(s).cursor <= Push1(s).high
  {
    var s' := Push1(s);
    var batch := History(s.db, s.c, s.cursor, PUSH_BATCH_SIZE);
    HistoryIsGapless(s.db, s.c, s.cursor, PUSH_BATCH_SIZE);
    HistoryOrigins(s.db, s.c, s.cursor, PUSH_BATCH_SIZE);
    ToPushFilters(batch, s.peer, s.blocked);
    forall h, n: nat | n <= s'.high && At(s.db, h, s.c, n)
      ensures Handled(s', h, n)
    {
      if n <= s.high {
        assert Handled(s, h, n);
        KeepsHandled(s, s', h, n);
      } else {
        FetchedIsHandled(s, batch, h, n);
      }
    }
  }

  lemma KeepsHandled(s: Sender, s': Sender, h: Hash, n: nat)
    requires Handled(s, h, n) && s.sent <= s'.sent && s.filtered <= s'.filtered
    ensures Handled(s', h, n)
  {
  }

  lemma FetchedIsHandled(s: Sender, batch: seq<Msg>, h: Hash, n: nat)
    requires UniqueMain(s.db) && At(s.db, h, s.c, n) && batch == History(s.db, s.c, s.cursor, PUSH_BATCH_SIZE)
    requires Occupied(s.db, s.c, n) ==> MsgAt(s.db, s.c, n) in batch
    ensures Handled(Push1(s), h, n)
  {
    var m, out := MsgAt(s.db, s.c, n), ToPush(batch, s.peer, s.blocked);
    assert m.hash == h;
    if m in out {
      assert Fetched(s, m) in Push1(s).sent;
    } else {
      assert Fetched(s, m) in Push1(s).filtered;
    }
  }

  lemma GenuineIsBounded(s: Sender, received: seq<nat>)
    requires PushInv(s) && s.cursor <= s.high && Genuine(s, received)
    ensures MaxOf(received, s.cursor) <= s.high
  {
  }

  lemma StepKeepsPushInv(s: Sender, e: PushEvent)
    requires PushInv(s) && s.cursor <= s.high && CanHappen(s, e)
    ensures PushInv(Next(s, e)) && Next(s, e).cursor <= Next(s, e).high && s.cursor <= Next(s, e).cursor
  {
    match e
    case Store(ev) => StoreKeepsInv(s, ev);
    case PushPending(delivered) =>
      if delivered {
        PushKeepsInv(s);
      }
    case PushAck(received) =>
      GenuineIsBounded(s, received);
      assert forall h, n: nat :: Handled(Next(s, e), h, n) == Handled(s, h, n);
    case _ => assert forall h, n: nat :: Handled(Next(s, e), h, n) == Handled(s, h, n);
  }

  lemma {:induction false} RunKeepsPushInv(s: Sender, es: seq<PushEvent>)
    requires PushInv(s) && s.cursor <= s.high && IsPushRun(s, es)
    ensures PushInv(PushRun(s, es)) && PushRun(s, es).cursor <= PushRun(s, es).high && s.cursor <= PushRun(s, es).cursor
    decreases |es|
  {
    if es != [] {
      StepKeepsPushInv(s, es[0]);
      RunKeepsPushInv(Next(s, es[0]), es[1..]);
    }
  }

  /**
   * With messages arriving and being pruned, bans changing, pushes lost or
   * repeated and acknowledgements late, reordered or duplicated: every stored
   * message at or below the cursor was sent or filtered; nothing was ever sent
   * that came from the peer or whose author was banned at the time, and nothing
   * else was ever filtered.
   */
  lemma AtLeastOnce(node: string, peer: string, c: string, channels: map<string, bool>, es: seq<PushEvent>)
    requires IsPushRun(NewSender(node, peer, c, channels), es)
    ensures var s := PushRun(NewSender(node, peer, c, channels), es);
            Covered(s) && OriginsTrue(s) && FilteredRightly(s)
  {
    RunKeepsGood(Fresh(channels), Fresh(channels), [], node, false);
    RunKeepsPushInv(NewSender(node, peer, c, channels), es);
  }

  // ---- Progress ----

  function SeqsOf(ms: seq<Msg>): (ns: seq<nat>)
    ensures |ns| == |ms| && forall k :: 0 <= k < |ms| ==> ns[k] == ms[k].seqNo
  {
    seq(|ms|, k requires 0 <= k < |ms| => ms[k].seqNo)
  }

  /** One push whose whole batch is acknowledged. */
  ghost function Round(s: Sender): Sender {
    var out := ToPush(History(s.db, s.c, s.cursor, PUSH_BATCH_SIZE), s.peer, s.blocked);
    Next(Push1(s), PushAck(SeqsOf(out)))
  }

  ghost predicate NothingAbove(db: Db, c: string, n: nat) {
    forall k: nat :: k > n ==> !Occupied(db, c, k)
  }

  ghost predicate Ready(s: Sender) {
    PushInv(s) && s.cursor <= s.high
  }

  lemma RoundKeepsReady(s: Sender)
    requires Ready(s)
    ensures Ready(Round(s)) && Round(s).db == s.db && Round(s).c == s.c && s.cursor <= Round(s).cursor
  {
    var out := ToPush(History(s.db, s.c, s.cursor, PUSH_BATCH_SIZE), s.peer, s.blocked);
    PushKeepsInv(s);
    var s1 := Push1(s);
    forall n | n in SeqsOf(out)
      ensures exists d :: d in s1.sent && d.msg.seqNo == n
    {
      var k :| 0 <= k < |out| && out[k].seqNo == n;
      assert Fetched(s, out[k]) in s1.sent;
    }
    StepKeepsPushInv(s1, PushAck(SeqsOf(out)));
    StepKeepsPushInv(s, PushPending(true));
  }

  /** An acknowledged round moves the cursor up, unless nothing is left above it. */
  lemma RoundAdvances(s: Sender)
    requires Ready(s)
    ensures Round(s).cursor > s.cursor || NothingAbove(s.db, s.c, s.cursor)
  {
    var batch := History(s.db, s.c, s.cursor, PUSH_BATCH_SIZE);
    var out := ToPush(batch, s.peer, s.blocked);
    HistoryIsGapless(s.db, s.c, s.cursor, PUSH_BATCH_SIZE);
    HistoryIsExhaustive(s.db, s.c, s.cursor, PUSH_BATCH_SIZE);
    ToPushFilters(batch, s.peer, s.blocked);
    if out != [] {
      assert out[0] in batch && SeqsOf(out)[0] in SeqsOf(out);
    } else if batch != [] {
      assert batch[0] in batch;
    }
  }

  ghost function Rounds(s: Sender, k: nat): Sender
    decreases k
  {
    if k == 0 then s else Round(Rounds(s, k - 1))
  }

  /** The cursor has reached `goal`, or nothing is left above it. */
  ghost predicate Reached(s: Sender, goal: nat) {
    s.cursor >= goal || NothingAbove(s.db, s.c, s.cursor)
  }

  ghost predicate SameTable(s: Sender, t: Sender) {
    Ready(t) && t.db == s.db && t.c == s.c
  }

  lemma OneMoreRound(s: Sender, t: Sender, goal: nat)
    requires SameTable(s, t) && Reached(t, goal)
    ensures SameTable(s, Round(t)) && Reached(Round(t), goal + 1)
  {
    RoundKeepsReady(t);
    RoundAdvances(t);
  }

  lemma {:induction false} RoundsAdvance(s: Sender, k: nat)
    requires Ready(s)
    ensures SameTable(s, Rounds(s, k)) && Reached(Rounds(s, k), s.cursor + k)
    decreases k
  {
    if k > 0 {
      RoundsAdvance(s, k - 1);
      OneMoreRound(s, Rounds(s, k - 1), s.cursor + (k - 1));
    }
  }

  lemma NothingAboveLatest(db: Db, c: string, n: nat)
    requires AllInRange(db) && Latest(db, c) <= n
    ensures NothingAbove(db, c, n)
  {
    assert forall h, k: nat :: At(db, h, c, k) ==> InRange(db, db.messages[h]);
  }

  /**
   * Acknowledged rounds drain the backlog: as many rounds as there are numbers
   * above the cursor leave nothing stored above it.
   */
  lemma RoundsDrain(s: Sender, k: nat)
    requires Ready(s) && Latest(s.db, s.c) <= s.cursor + k
    ensures NothingAbove(s.db, s.c, Rounds(s, k).cursor)
  {
    RoundsAdvance(s, k);
    if Rounds(s, k).cursor >= s.cursor + k {
      NothingAboveLatest(s.db, s.c, Rounds(s, k).cursor);
    }
  }

  // ---- Acknowledgements that are not made of sent numbers ----

  /**
   * Whatever numbers an acknowledgement carries, it keeps the promise if and
   * only if nothing is stored between the highest number fetched so far and
   * the highest number acknowledged.
   */
  lemma AckSafeIff(s: Sender, received: seq<nat>)
    requires PushInv(s) && s.cursor <= s.high
    ensures Covered(Next(s, PushAck(received))) <==>
            forall n: nat :: s.high < n <= MaxOf(received, s.cursor) ==> !Occupied(s.db, s.c, n)
  {
    var s' := Next(s, PushAck(received));
    assert forall h, n: nat :: Handled(s', h, n) == Handled(s, h, n);
    assert forall h, n: nat :: Handled(s, h, n) ==> n <= s.high;
    if Covered(s') {
      forall n: nat | s.high < n <= s'.cursor
        ensures !Occupied(s.db, s.c, n)
      {
        assert forall h :: At(s'.db, h, s'.c, n) ==> Handled(s', h, n);
      }
    }
    if forall n: nat :: s.high < n <= s'.cursor ==> !Occupied(s.db, s.c, n) {
      forall h, n: nat | n <= s'.cursor && At(s'.db, h, s'.c, n)
        ensures Handled(s', h, n)
      {
        assert Occupied(s.db, s.c, n);
        assert n <= s.high;
      }
    }
  }

  /** A number at or below the cursor that was never sent is never sent in any continuation. */
  lemma {:induction false} SkippedForever(s: Sender, es: seq<PushEvent>, n: nat)
    requires n <= s.cursor && forall d :: d in s.sent ==> d.msg.seqNo != n
    ensures forall d :: d in PushRun(s, es).sent ==> d.msg.seqNo != n
    decreases |es|
  {
    if es != [] {
      if es[0] == PushPending(true) {
        var batch := History(s.db, s.c, s.cursor, PUSH_BATCH_SIZE);
        HistoryIsGapless(s.db, s.c, s.cursor, PUSH_BATCH_SIZE);
        ToPushFilters(batch, s.peer, s.blocked);
      }
      SkippedForever(Next(s, es[0]), es[1..], n);
    }
  }

  // ---- The receiving node's acknowledgements ----

  lemma ReceiverStep(o: PushOutcome, ch: string, m: Remote, peer: string)
    requires PushOne(o, ch, m, peer).Ok?
    ensures var o' := PushOne(o, ch, m, peer).value;
            var l, l' := Latest(o.db, ch), Latest(o'.db, ch);
            && (l' == l || (l' == l + 1 && o'.received == o.received + [l']))
            && (l' == l ==> o'.received == o.received || o'.received == o.received + [m.seqNo])
  {
  }

  /**
   * The numbers a receiver acknowledges are the pusher's own, or the ones it has
   * just given to newly stored messages; the last of those is always among them.
   */
  lemma {:induction false} ReceiverNumbers(o: PushOutcome, ch: string, ms: seq<Remote>, peer: string)
    requires PushMessages(o, ch, ms, peer).Ok?
    ensures var o' := PushMessages(o, ch, ms, peer).value;
            var l, l' := Latest(o.db, ch), Latest(o'.db, ch);
            && l <= l'
            && (l < l' ==> l' in o'.received)
            && (forall n :: n in o.received ==> n in o'.received)
            && (forall n :: n in o'.received ==> n in o.received || l < n <= l' || exists m :: m in ms && m.seqNo == n)
    decreases |ms|
  {
    if ms != [] {
      ReceiverStep(o, ch, ms[0], peer);
      ReceiverNumbers(PushOne(o, ch, ms[0], peer).value, ch, ms[1..], peer);
    }
  }

  /**
   * The deployed pair. After a batch has been sent and stored by a receiver
   * with its own numbering, the acknowledgement keeps the promise if and only
   * if the receiver stored nothing new, or its latest number does not pass any
   * stored message the sender has not fetched yet.
   */
  lemma DeployedAckSafeIff(s: Sender, ms: seq<Remote>, receiver: Db)
    requires PushInv(s) && s.cursor <= s.high
    requires forall m :: m in ms ==> exists d :: d in s.sent && d.msg.seqNo == m.seqNo
    requires Push(receiver, s.c, ms, s.node, true).Ok?
    ensures var o := Push(receiver, s.c, ms, s.node, true).value;
            var l, l' := Latest(receiver, s.c), Latest(o.db, s.c);
            Covered(Next(s, PushAck(o.received))) <==>
              (l' == l || forall n: nat :: s.high < n <= l' ==> !Occupied(s.db, s.c, n))
  {
    ReceiverNumbers(PushOutcome(receiver, [], []), s.c, ms, s.node);
    var o := Push(receiver, s.c, ms, s.node, true).value;
    var l' := Latest(o.db, s.c);
    AckSafeIff(s, o.received);
    assert forall n :: n in o.received ==> n <= Max(s.high, l');
    assert MaxOf(o.received, s.cursor) <= Max(s.high, l');
  }

  // ---- A run that loses a message ----

  const CHANNELS := map["c" := false]

  function Note(h: Hash): MessageStore.Event {
    LocalIngest(Envelope(h, "c", "u", Text, "", None, true, None))
  }

  function NoteRow(n: nat, node: string): Row {
    FreshRow("c", "u", Text, Body(Some(""), None), node).(seqNo := Some(n))
  }

  lemma NoteStored(db: Db, h: Hash, n: nat, node: string)
    requires db.channels == map["c" := Channel(n, false)] && h !in db.messages
    ensures Step(db, Note(h), node) ==
            Db(map["c" := Channel(n + 1, false)], db.messages[h := NoteRow(n + 1, node)], db.threads)
  {
    assert map["c" := Channel(n, false)]["c" := Channel(n + 1, false)] == map["c" := Channel(n + 1, false)];
  }

  /** Node "A" stores and pushes "a", then stores "b". */
  const LOSING := [Store(Note("a")), PushPending(true), Store(Note("b"))]

  lemma SenderRun() returns (s: Sender)
    ensures IsPushRun(NewSender("A", "B", "c", CHANNELS), LOSING) && s == PushRun(NewSender("A", "B", "c", CHANNELS), LOSING)
    ensures s.c == "c" && s.cursor == 0 && At(s.db, "b", "c", 2)
    ensures s.sent == {Dispatch(Msg(1, "a", "u", "A"), "A", {})} && s.filtered == {}
  {
    var s0 := NewSender("A", "B", "c", CHANNELS);
    assert s0.db.channels == map["c" := Channel(0, false)];
    NoteStored(s0.db, "a", 0, "A");
    var s1 := Next(s0, LOSING[0]);
    PushesA(s1);
    var s2 := Next(s1, LOSING[1]);
    NoteStored(s2.db, "b", 1, "A");
    s := Next(s2, LOSING[2]);
    assert LOSING[1..][1..][1..] == [] && LOSING[1..][1..][0] == LOSING[2] && LOSING[1..][0] == LOSING[1];
    assert IsPushRun(s, []) && PushRun(s, []) == s;
    assert IsPushRun(s2, LOSING[1..][1..]) && PushRun(s2, LOSING[1..][1..]) == s;
    assert IsPushRun(s1, LOSING[1..]) && PushRun(s1, LOSING[1..]) == s;
  }

  lemma FetchesA(s: Sender)
    requires s.db.channels == map["c" := Channel(1, false)] && s.db.messages == map["a" := NoteRow(1, "A")]
    requires s.c == "c" && s.cursor == 0 && s.peer == "B" && s.blocked == {}
    ensures var m := Msg(1, "a", "u", "A");
            && History(s.db, s.c, s.cursor, PUSH_BATCH_SIZE) == [m]
            && ToPush(History(s.db, s.c, s.cursor, PUSH_BATCH_SIZE), s.peer, s.blocked) == [m]
  {
    var m := Msg(1, "a", "u", "A");
    assert At(s.db, "a", "c", 1) && MsgAt(s.db, "c", 1) == m;
    assert History(s.db, "c", 1, PUSH_BATCH_SIZE - 1) == [];
    assert History(s.db, "c", 0, PUSH_BATCH_SIZE) == [m];
    assert [m][..0] == [] && ToPush([m], "B", {}) == [m];
  }

  lemma PushesA(s: Sender)
    requires s.db.channels == map["c" := Channel(1, false)] && s.db.messages == map["a" := NoteRow(1, "A")]
    requires s.c == "c" && s.cursor == 0 && s.node == "A" && s.peer == "B" && s.via == map["a" := "A"]
    requires s.blocked == {} && s.sent == {} && s.filtered == {}
    ensures var s' := Next(s, PushPending(true));
            && s'.db == s.db && s'.c == s.c && s'.cursor == 0
            && s'.sent == {Dispatch(Msg(1, "a", "u", "A"), "A", {})} && s'.filtered == {}
  {
    var m := Msg(1, "a", "u", "A");
    FetchesA(s);
    assert Fetched(s, m) == Dispatch(m, "A", {}) && m in [m];
    assert (set x | x in [m] :: Fetched(s, x)) == {Fetched(s, m)};
    assert (set x | x in [m] && x !in [m] :: Fetched(s, x)) == {};
  }

  /** What node "A" put on the link. */
  const PUSHED := [Remote("a", 1, "u", 0, Text, "", None, "A", true, false)]

  /** Node "B" holds one message of its own, stores the pushed one as its number 2, and says so. */
  lemma ReceiverRun()
    ensures var receiver := RunOf(Fresh(CHANNELS), [Note("z")], "B");
            var o := Push(receiver, "c", PUSHED, "A", true);
            o.Ok? && o.value.received == [2]
  {
    var db := Fresh(CHANNELS);
    assert db.channels == map["c" := Channel(0, false)];
    NoteStored(db, "z", 0, "B");
    var receiver := Step(db, Note("z"), "B");
    assert [Note("z")][1..] == [] && RunOf(receiver, [], "B") == receiver;
    var o := PushOutcome(receiver, [], []);
    assert PushOne(o, "c", PUSHED[0], "A").Ok? && PushOne(o, "c", PUSHED[0], "A").value.received == [2];
    assert PUSHED[1..] == [];
  }

  /**
   * A concrete loss, from two empty nodes. "B" acknowledges "a" as number 2; at
   * "A" that is the number of "b", which is then below the cursor without ever
   * having been sent.
   */
  lemma LossExample() returns (s: Sender)
    ensures IsPushRun(NewSender("A", "B", "c", CHANNELS), LOSING) && s == PushRun(NewSender("A", "B", "c", CHANNELS), LOSING)
    ensures var o := Push(RunOf(Fresh(CHANNELS), [Note("z")], "B"), "c", PUSHED, "A", true);
            && o.Ok? && !Covered(Next(s, PushAck(o.value.received)))
            && At(s.db, "b", "c", 2) && forall d :: d in s.sent ==> d.msg.hash != "b"
  {
    s := SenderRun();
    ReceiverRun();
    SkipsB(s);
  }

  lemma SkipsB(s: Sender)
    requires s.c == "c" && At(s.db, "b", "c", 2)
    requires s.sent == {Dispatch(Msg(1, "a", "u", "A"), "A", {})} && s.filtered == {}
    ensures !Covered(Next(s, PushAck([2])))
  {
    var s' := Next(s, PushAck([2]));
    assert 2 in [2] && s'.cursor >= 2;
    assert At(s'.db, "b", "c", 2) && !Handled(s', "b", 2);
  }
}
