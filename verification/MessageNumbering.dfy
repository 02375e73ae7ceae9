/**
 * What every interleaving of ingest, mirror, push, prune and rollback keeps
 * about the numbers in the message table, on main timelines and in threads.
 */
module MessageNumbering {
  import opened Common
  import opened MessageStore

  // ---- The ways one operation may change the table ----

  /** The fields no later operation ever rewrites. */
  predicate SameIdentity(a: Row, b: Row) {
    a.channel == b.channel && a.seqNo == b.seqNo && a.threadSeq == b.threadSeq && a.replyTo == b.replyTo && a.origin == b.origin
  }

  ghost predicate Keeps(db: Db, db': Db) {
    && (forall h :: h in db.messages ==> h in db'.messages && SameIdentity(db.messages[h], db'.messages[h]))
    && db'.channels.Keys == db.channels.Keys
    && (forall c :: c in db.channels ==> db'.channels[c].isSealed == db.channels[c].isSealed)
  }

  ghost predicate SameCounters(db: Db, db': Db) {
    db'.channels == db.channels && db'.threads == db.threads
  }

  /** No new row. */
  ghost predicate Rewrites(db: Db, db': Db) {
    Keeps(db, db') && SameCounters(db, db') && db'.messages.Keys == db.messages.Keys
  }

  /** One new row outside every timeline. */
  ghost predicate AddsAside(db: Db, db': Db, h: Hash) {
    && Keeps(db, db') && SameCounters(db, db')
    && h !in db.messages && db'.messages.Keys == db.messages.Keys + {h}
    && db'.messages[h].channel in db.channels
    && db'.messages[h].seqNo.None? && db'.messages[h].threadSeq.None?
  }

  /** One new row that takes its channel's next number. */
  ghost predicate AddsMain(db: Db, db': Db, h: Hash) {
    && Keeps(db, db') && db'.threads == db.threads
    && h !in db.messages && db'.messages.Keys == db.messages.Keys + {h}
    && db'.messages[h].channel in db.channels && db'.messages[h].threadSeq.None?
    && var c := db'.messages[h].channel;
       && db'.messages[h].seqNo == Some(db.channels[c].latestSeq + 1)
       && db'.channels == db.channels[c := db.channels[c].(latestSeq := db.channels[c].latestSeq + 1)]
  }

  function LatestReply(db: Db, root: Hash): nat {
    if root in db.threads then db.threads[root].latestThreadSeq else 0
  }

  /** One new reply that takes its thread's next number. */
  ghost predicate AddsReply(db: Db, db': Db, h: Hash) {
    && Keeps(db, db') && db'.channels == db.channels
    && h !in db.messages && db'.messages.Keys == db.messages.Keys + {h}
    && var r := db'.messages[h];
       && r.channel in db.channels && r.seqNo.None? && r.replyTo.Some?
       && var root := r.replyTo.value;
          && r.threadSeq == Some(LatestReply(db, root) + 1)
          && root in db.messages
          && db'.threads.Keys == db.threads.Keys + {root}
          && (forall t :: t in db.threads && t != root ==> db'.threads[t] == db.threads[t])
          && db'.threads[root].latestThreadSeq == LatestReply(db, root) + 1
          && db'.threads[root].replyCount == (if root in db.threads then db.threads[root].replyCount else 0) + 1
  }

  ghost predicate Grows(db: Db, db': Db) {
    Rewrites(db, db') || exists h :: AddsAside(db, db', h) || AddsMain(db, db', h) || AddsReply(db, db', h)
  }

  // ---- Each operation is one of these ----

  /** Roots of threads are stored, and the two thread counters agree. */
  ghost predicate ThreadsOk(db: Db) {
    forall t :: t in db.threads ==> t in db.messages && db.threads[t].replyCount == db.threads[t].latestThreadSeq
  }

  lemma EditGrows(db: Db, e: Envelope, node: string)
    requires ProcessEdit(db, e, node).Ok?
    ensures Grows(db, ProcessEdit(db, e, node).value)
  {
    assert AddsAside(db, ProcessEdit(db, e, node).value, e.hash);
  }

  lemma PinGrows(db: Db, e: Envelope, node: string)
    requires ProcessPin(db, e, node).Ok?
    ensures Grows(db, ProcessPin(db, e, node).value)
  {
    assert AddsMain(db, ProcessPin(db, e, node).value, e.hash);
  }

  lemma ReplyCounts(db: Db, root: Hash, sender: string)
    requires ThreadsOk(db) && NextThreadSeq(db, root).Ok?
    ensures var (db1, n) := NextThreadSeq(db, root).value;
            var db2 := UpdateThread(db1, root, sender);
            && n == LatestReply(db, root) + 1 && root in db.messages
            && db2.channels == db.channels && db2.messages == db.messages
            && db2.threads.Keys == db.threads.Keys + {root}
            && (forall t :: t in db.threads && t != root ==> db2.threads[t] == db.threads[t])
            && db2.threads[root].latestThreadSeq == n
            && db2.threads[root].replyCount == (if root in db.threads then db.threads[root].replyCount else 0) + 1
  {
  }

  lemma ReplyGrows(db: Db, e: Envelope, node: string)
    requires ThreadsOk(db) && e.hash !in db.messages && e.kind == ThreadReply && e.replyTo.Some?
    requires StoreNew(db, e, node).Ok?
    ensures AddsReply(db, StoreNew(db, e, node).value, e.hash)
  {
    ReplyCounts(db, e.replyTo.value, e.sender);
  }

  lemma StoreNewGrows(db: Db, e: Envelope, node: string)
    requires ThreadsOk(db) && StoreNew(db, e, node).Ok?
    ensures Grows(db, StoreNew(db, e, node).value)
  {
    if e.hash !in db.messages {
      if e.kind == ThreadReply && e.replyTo.Some? {
        ReplyGrows(db, e, node);
      } else {
        assert AddsMain(db, StoreNew(db, e, node).value, e.hash);
      }
    }
  }

  lemma IngestGrows(db: Db, e: Envelope, node: string)
    requires ThreadsOk(db) && Ingest(db, e, node).Ok?
    ensures Grows(db, Ingest(db, e, node).value)
  {
    match e.kind
    case Edit => EditGrows(db, e, node);
    case Pin => PinGrows(db, e, node);
    case Delete => assert Rewrites(db, Ingest(db, e, node).value);
    case Reaction => assert Rewrites(db, Ingest(db, e, node).value);
    case _ => StoreNewGrows(db, e, node);
  }

  lemma RemoteGrows(db: Db, ch: string, m: Remote, origin: string)
    requires StoreRemote(db, ch, m, origin).Ok?
    ensures Grows(db, StoreRemote(db, ch, m, origin).value)
  {
    assert AddsMain(db, StoreRemote(db, ch, m, origin).value, m.hash);
  }

  // ---- Numbering ----

  /** The row's number lies within what its channel or thread has handed out. */
  predicate InRange(db: Db, r: Row) {
    && r.channel in db.channels
    && (r.seqNo.Some? ==> r.threadSeq.None? && 1 <= r.seqNo.value <= db.channels[r.channel].latestSeq)
    && (r.threadSeq.Some? ==> r.replyTo.Some? && 1 <= r.threadSeq.value <= LatestReply(db, r.replyTo.value))
  }

  ghost predicate AllInRange(db: Db) {
    forall h :: h in db.messages ==> InRange(db, db.messages[h])
  }

  ghost predicate UniqueMain(db: Db) {
    forall g, h, c, n: nat :: At(db, g, c, n) && At(db, h, c, n) ==> g == h
  }

  ghost predicate UniqueReplies(db: Db) {
    forall g, h, t, n: nat :: ReplyAt(db, g, t, n) && ReplyAt(db, h, t, n) ==> g == h
  }

  /** Each number handed out names at most one row, and the thread counters agree. */
  ghost predicate Numbered(db: Db) {
    ThreadsOk(db) && AllInRange(db) && UniqueMain(db) && UniqueReplies(db)
  }

  predicate At(db: Db, h: Hash, c: string, n: nat) {
    h in db.messages && db.messages[h].channel == c && db.messages[h].seqNo == Some(n)
  }

  predicate ReplyAt(db: Db, h: Hash, root: Hash, n: nat) {
    h in db.messages && db.messages[h].replyTo == Some(root) && db.messages[h].threadSeq == Some(n)
  }

  ghost predicate Occupied(db: Db, c: string, n: nat) {
    exists h :: At(db, h, c, n)
  }

  ghost predicate Answered(db: Db, root: Hash, n: nat) {
    exists h :: ReplyAt(db, h, root, n)
  }

  /** No number is missing: main timelines are 1..latest, threads are 1..reply_count. */
  ghost predicate Dense(db: Db) {
    && (forall c, n: nat {:trigger Occupied(db, c, n)} ::
          c in db.channels && 1 <= n <= db.channels[c].latestSeq ==> Occupied(db, c, n))
    && (forall t, n: nat {:trigger Answered(db, t, n)} ::
          t in db.threads && 1 <= n <= db.threads[t].replyCount ==> Answered(db, t, n))
  }

  lemma GrowsKeepsThreads(db: Db, db': Db)
    requires ThreadsOk(db) && Grows(db, db')
    ensures ThreadsOk(db')
    ensures forall t :: LatestReply(db, t) <= LatestReply(db', t)
  {
  }

  lemma GrowsKeepsRange(db: Db, db': Db, h: Hash)
    requires ThreadsOk(db) && AllInRange(db) && Grows(db, db') && h in db'.messages
    ensures InRange(db', db'.messages[h])
  {
    GrowsKeepsThreads(db, db');
    if h in db.messages {
      assert SameIdentity(db.messages[h], db'.messages[h]) && InRange(db, db.messages[h]);
    }
  }

  /** A row on the main timeline was there before, or took the next number. */
  lemma MainIsOldOrNext(db: Db, db': Db, h: Hash, c: string, n: nat)
    requires AllInRange(db) && Grows(db, db') && At(db', h, c, n)
    ensures c in db.channels
    ensures (At(db, h, c, n) && n <= db.channels[c].latestSeq)
            || (AddsMain(db, db', h) && n == db.channels[c].latestSeq + 1)
  {
    if h in db.messages {
      assert SameIdentity(db.messages[h], db'.messages[h]) && InRange(db, db.messages[h]);
    }
  }

  lemma ReplyIsOldOrNext(db: Db, db': Db, h: Hash, t: Hash, n: nat)
    requires AllInRange(db) && Grows(db, db') && ReplyAt(db', h, t, n)
    ensures (ReplyAt(db, h, t, n) && n <= LatestReply(db, t))
            || (AddsReply(db, db', h) && n == LatestReply(db, t) + 1)
  {
    if h in db.messages {
      assert SameIdentity(db.messages[h], db'.messages[h]) && InRange(db, db.messages[h]);
    }
  }

  lemma GrowsKeepsNumbered(db: Db, db': Db)
    requires Numbered(db) && Grows(db, db')
    ensures Numbered(db')
  {
    GrowsKeepsThreads(db, db');
    forall h | h in db'.messages
      ensures InRange(db', db'.messages[h])
    {
      GrowsKeepsRange(db, db', h);
    }
    forall g, h, c, n: nat | At(db', g, c, n) && At(db', h, c, n)
      ensures g == h
    {
      MainIsOldOrNext(db, db', g, c, n);
      MainIsOldOrNext(db, db', h, c, n);
    }
    forall g, h, t, n: nat | ReplyAt(db', g, t, n) && ReplyAt(db', h, t, n)
      ensures g == h
    {
      ReplyIsOldOrNext(db, db', g, t, n);
      ReplyIsOldOrNext(db, db', h, t, n);
    }
  }

  lemma StaysOccupied(db: Db, db': Db, c: string, n: nat)
    requires Keeps(db, db') && Occupied(db, c, n)
    ensures Occupied(db', c, n)
  {
    var h :| At(db, h, c, n);
    assert At(db', h, c, n);
  }

  lemma StaysAnswered(db: Db, db': Db, t: Hash, n: nat)
    requires Keeps(db, db') && Answered(db, t, n)
    ensures Answered(db', t, n)
  {
    var h :| ReplyAt(db, h, t, n);
    assert ReplyAt(db', h, t, n);
  }

  lemma MainStaysDense(db: Db, db': Db, c: string, n: nat)
    requires Dense(db) && Grows(db, db') && c in db'.channels && 1 <= n <= db'.channels[c].latestSeq
    ensures Occupied(db', c, n)
  {
    if n <= db.channels[c].latestSeq {
      StaysOccupied(db, db', c, n);
    } else {
      var h :| AddsMain(db, db', h);
      assert At(db', h, c, n);
    }
  }

  lemma ThreadStaysDense(db: Db, db': Db, t: Hash, n: nat)
    requires Numbered(db) && Dense(db) && Grows(db, db') && t in db'.threads && 1 <= n <= db'.threads[t].replyCount
    ensures Answered(db', t, n)
  {
    if t in db.threads && n <= db.threads[t].replyCount {
      StaysAnswered(db, db', t, n);
    } else {
      assert db'.threads != db.threads;
      var h :| AddsReply(db, db', h);
      NewReplyAnswers(db, db', h, t, n);
    }
  }

  /** The one number a thread gains is the new reply's. */
  lemma NewReplyAnswers(db: Db, db': Db, h: Hash, t: Hash, n: nat)
    requires ThreadsOk(db) && AddsReply(db, db', h) && t in db'.threads && n <= db'.threads[t].replyCount
    requires t in db.threads ==> n > db.threads[t].replyCount
    requires n >= 1
    ensures Answered(db', t, n)
  {
    assert ReplyAt(db', h, t, n);
  }

  lemma GrowsKeepsDense(db: Db, db': Db)
    requires Numbered(db) && Dense(db) && Grows(db, db')
    ensures Dense(db')
  {
    forall c, n: nat {:trigger Occupied(db', c, n)} | c in db'.channels && 1 <= n <= db'.channels[c].latestSeq
      ensures Occupied(db', c, n)
    {
      MainStaysDense(db, db', c, n);
    }
    forall t, n: nat {:trigger Answered(db', t, n)} | t in db'.threads && 1 <= n <= db'.threads[t].replyCount
      ensures Answered(db', t, n)
    {
      ThreadStaysDense(db, db', t, n);
    }
  }

  /** Numbers up to the latest one are never handed out again. */
  ghost predicate NoReuse(db: Db, db': Db) {
    && db'.channels.Keys == db.channels.Keys
    && (forall c :: c in db.channels ==> db.channels[c].latestSeq <= db'.channels[c].latestSeq)
    && (forall h, c, n: nat :: c in db.channels && At(db', h, c, n) && n <= db.channels[c].latestSeq ==> At(db, h, c, n))
  }

  lemma GrowsNeverReuses(db: Db, db': Db)
    requires Numbered(db) && Grows(db, db')
    ensures NoReuse(db, db')
  {
    forall h, c, n: nat | c in db.channels && At(db', h, c, n) && n <= db.channels[c].latestSeq
      ensures At(db, h, c, n)
    {
      MainIsOldOrNext(db, db', h, c, n);
    }
  }

  // ---- A pushed batch is a sequence of single insertions ----

  ghost predicate Good(db0: Db, db: Db, dense: bool) {
    Numbered(db) && (dense ==> Dense(db)) && NoReuse(db0, db)
  }

  lemma GrowsKeepsGood(db0: Db, db: Db, db': Db, dense: bool)
    requires Good(db0, db, dense) && Grows(db, db')
    ensures Good(db0, db', dense)
  {
    GrowsKeepsNumbered(db, db');
    GrowsNeverReuses(db, db');
    if dense {
      GrowsKeepsDense(db, db');
    }
    forall h, c, n: nat | c in db0.channels && At(db', h, c, n) && n <= db0.channels[c].latestSeq
      ensures At(db0, h, c, n)
    {
      assert At(db, h, c, n);
    }
  }

  lemma {:induction false} PushKeepsGood(db0: Db, o: PushOutcome, ch: string, ms: seq<Remote>, peer: string, dense: bool)
    requires Good(db0, o.db, dense) && PushMessages(o, ch, ms, peer).Ok?
    ensures Good(db0, PushMessages(o, ch, ms, peer).value.db, dense)
    decreases |ms|
  {
    if ms != [] {
      var o' := PushOne(o, ch, ms[0], peer).value;
      if o'.db != o.db {
        RemoteGrows(o.db, ch, ms[0], peer);
        GrowsKeepsGood(db0, o.db, o'.db, dense);
      }
      PushKeepsGood(db0, o', ch, ms[1..], peer, dense);
    }
  }

  lemma StepKeepsGood(db0: Db, db: Db, e: Event, node: string, dense: bool)
    requires Good(db0, db, dense) && (dense ==> !e.PruneRows?)
    ensures Good(db0, Step(db, e, node), dense)
  {
    if Apply(db, e, node).Ok? {
      match e
      case LocalIngest(env) =>
        IngestGrows(db, env, node);
        GrowsKeepsGood(db0, db, Ingest(db, env, node).value, dense);
      case MirrorPull(ch, m, peer, now) =>
        if m.hash !in db.messages {
          RemoteGrows(db, ch, m, if peer != "" then peer else m.origin);
          GrowsKeepsGood(db0, db, MirrorIngest(db, ch, m, peer, now).value, dense);
        }
      case PeerPush(ch, ms, peer, trusted) => PushKeepsGood(db0, PushOutcome(db, [], []), ch, ms, peer, dense);
      case PruneRows(hs) => PruneKeepsGood(db0, db, hs);
    }
  }

  lemma PruneKeepsGood(db0: Db, db: Db, hs: set<Hash>)
    requires Good(db0, db, false) && Prune(db, hs).Ok?
    ensures Good(db0, Prune(db, hs).value, false)
  {
    var db' := Prune(db, hs).value;
    forall t | t in db.threads
      ensures t !in hs
    {
      assert t !in hs * db.threads.Keys;
    }
    assert forall h, c, n: nat :: At(db', h, c, n) ==> At(db, h, c, n);
    assert forall h, t, n: nat :: ReplyAt(db', h, t, n) ==> ReplyAt(db, h, t, n);
  }

  lemma {:induction false} RunKeepsGood(db0: Db, db: Db, es: seq<Event>, node: string, dense: bool)
    requires Good(db0, db, dense) && (dense ==> NeverPrunes(es))
    ensures Good(db0, RunOf(db, es, node), dense)
    decreases |es|
  {
    if es != [] {
      StepKeepsGood(db0, db, es[0], node, dense);
      RunKeepsGood(db0, Step(db, es[0], node), es[1..], node, dense);
    }
  }

  function Fresh(channels: map<string, bool>): Db {
    Db(map c | c in channels :: Channel(0, channels[c]), map[], map[])
  }

  /**
   * From an empty node, whatever arrives in whatever order: each sequence number
   * and each thread number names one row, both thread counters agree, and as
   * long as nothing is pruned the numbers are exactly 1..latest and 1..reply_count.
   */
  lemma TimelinesStayNumbered(channels: map<string, bool>, es: seq<Event>, node: string)
    ensures Numbered(RunOf(Fresh(channels), es, node))
    ensures NeverPrunes(es) ==> Dense(RunOf(Fresh(channels), es, node))
  {
    RunKeepsGood(Fresh(channels), Fresh(channels), es, node, false);
    if NeverPrunes(es) {
      RunKeepsGood(Fresh(channels), Fresh(channels), es, node, true);
    }
  }

  /** Pruning frees rows, not numbers: no later run gives an issued number to another message. */
  lemma NumbersNeverReused(db: Db, es: seq<Event>, node: string)
    requires Numbered(db)
    ensures NoReuse(db, RunOf(db, es, node))
  {
    RunKeepsGood(db, db, es, node, false);
  }
}
