/**
 * Rounds of a push, the receiving node's handling of it, and the
 * acknowledgement it sends, as deployed. Between the rounds the sender's table
 * and bans stay as they are.
 */
module FederationRounds {
  import opened Common
  import opened MessageStore
  import opened MessageNumbering
  import opened FederationPush
  import Content = MessageContent

  /** What the receiver makes of each message: its payload and the outcome of ban and signature checks. */
  type Encoding = Msg -> Remote

  ghost predicate Faithful(enc: Encoding) {
    forall m :: enc(m).hash == m.hash && enc(m).seqNo == m.seqNo
  }

  function EncodeAll(enc: Encoding, ms: seq<Msg>): (r: seq<Remote>)
    ensures |r| == |ms| && forall i :: 0 <= i < |ms| ==> r[i] == enc(ms[i])
  {
    seq(|ms|, i requires 0 <= i < |ms| => enc(ms[i]))
  }

  datatype Nodes = Nodes(s: Sender, r: Db)

  ghost function Batch(s: Sender): seq<Msg> {
    History(s.db, s.c, s.cursor, PUSH_BATCH_SIZE)
  }

  ghost function Out(s: Sender): seq<Msg> {
    ToPush(Batch(s), s.peer, s.blocked)
  }

  ghost function Received(p: Nodes, enc: Encoding): Result<PushOutcome, Error> {
    Push(p.r, p.s.c, EncodeAll(enc, Out(p.s)), p.s.node, true)
  }

  ghost function Deployed(p: Nodes, enc: Encoding): Nodes {
    if Out(p.s) == [] then Nodes(Push1(p.s), p.r)
    else match Received(p, enc)
         case Err(_) => Nodes(Push1(p.s), p.r)
         case Ok(o) => Nodes(Next(Push1(p.s), PushAck(o.received)), o.db)
  }

  /** The two nodes before each round of an endless sequence of rounds. */
  type Rounds = nat -> Nodes

  ghost predicate Goes(ps: Rounds, enc: Encoding, k: nat) {
    ps(k + 1) == Deployed(ps(k), enc)
  }

  ghost predicate AreRounds(ps: Rounds, enc: Encoding) {
    Faithful(enc) && forall k: nat :: Goes(ps, enc, k)
  }

  // ---- What the receiver acknowledges ----

  /** Not stored, and turned away by a check. */
  predicate Refuses(db: Db, ch: string, m: Remote) {
    m.hash !in db.messages && Content.Settled(db, ch, m)
  }

  lemma OneReceived(o: PushOutcome, ch: string, m: Remote, peer: string)
    requires PushOne(o, ch, m, peer).Ok?
    ensures var o' := PushOne(o, ch, m, peer).value;
            if Refuses(o.db, ch, m) then o'.db == o.db && o'.received == o.received
            else |o'.received| == |o.received| + 1 && m.hash in o'.db.messages
    ensures o.db.messages.Keys <= PushOne(o, ch, m, peer).value.db.messages.Keys
  {
  }

  lemma {:induction false} ReceivedGrows(o: PushOutcome, ch: string, ms: seq<Remote>, peer: string)
    requires PushMessages(o, ch, ms, peer).Ok?
    ensures var o' := PushMessages(o, ch, ms, peer).value;
            |o.received| <= |o'.received| && o.db.messages.Keys <= o'.db.messages.Keys
    decreases |ms|
  {
    if ms != [] {
      OneReceived(o, ch, ms[0], peer);
      ReceivedGrows(PushOne(o, ch, ms[0], peer).value, ch, ms[1..], peer);
    }
  }

  ghost predicate AllRefused(db: Db, ch: string, ms: seq<Remote>) {
    forall m :: m in ms ==> Refuses(db, ch, m)
  }

  /** Nothing is acknowledged exactly when every message is refused, and then nothing is stored either. */
  lemma {:induction false} NothingReceivedIff(o: PushOutcome, ch: string, ms: seq<Remote>, peer: string)
    requires PushMessages(o, ch, ms, peer).Ok?
    ensures var o' := PushMessages(o, ch, ms, peer).value;
            && (|o'.received| == |o.received| <==> AllRefused(o.db, ch, ms))
            && (AllRefused(o.db, ch, ms) ==> o'.received == o.received && o'.db == o.db)
    decreases |ms|
  {
    if ms != [] {
      var o1 := PushOne(o, ch, ms[0], peer).value;
      OneReceived(o, ch, ms[0], peer);
      assert ms[0] in ms;
      if Refuses(o.db, ch, ms[0]) {
        NothingReceivedIff(o1, ch, ms[1..], peer);
        RefusedHeadTail(o.db, ch, ms);
      } else {
        ReceivedGrows(o1, ch, ms[1..], peer);
      }
    }
  }

  lemma RefusedHeadTail(db: Db, ch: string, ms: seq<Remote>)
    requires ms != []
    ensures AllRefused(db, ch, ms) <==> Refuses(db, ch, ms[0]) && AllRefused(db, ch, ms[1..])
  {
    assert ms == [ms[0]] + ms[1..];
  }

  /** Something acknowledged is something the receiver now holds. */
  lemma {:induction false} SomethingHeld(o: PushOutcome, ch: string, ms: seq<Remote>, peer: string) returns (i: nat)
    requires PushMessages(o, ch, ms, peer).Ok? && |PushMessages(o, ch, ms, peer).value.received| > |o.received|
    ensures i < |ms| && ms[i].hash in PushMessages(o, ch, ms, peer).value.db.messages
    decreases |ms|
  {
    var o1 := PushOne(o, ch, ms[0], peer).value;
    OneReceived(o, ch, ms[0], peer);
    ReceivedGrows(o1, ch, ms[1..], peer);
    if Refuses(o.db, ch, ms[0]) {
      i := SomethingHeld(o1, ch, ms[1..], peer);
      i := i + 1;
    } else {
      i := 0;
    }
  }

  /** A message the receiver holds is acknowledged with the sender's number. */
  lemma {:induction false} KnownIsReceived(o: PushOutcome, ch: string, ms: seq<Remote>, peer: string, i: nat)
    requires PushMessages(o, ch, ms, peer).Ok? && i < |ms| && ms[i].hash in o.db.messages
    ensures ms[i].seqNo in PushMessages(o, ch, ms, peer).value.received
    decreases |ms|
  {
    var o1 := PushOne(o, ch, ms[0], peer).value;
    OneReceived(o, ch, ms[0], peer);
    if i == 0 {
      ReceiverNumbers(o1, ch, ms[1..], peer);
    } else {
      KnownIsReceived(o1, ch, ms[1..], peer, i - 1);
    }
  }

  // ---- One round ----

  /** The sender will fetch and send the same again. */
  ghost predicate SameView(s: Sender, t: Sender) {
    t.db == s.db && t.c == s.c && t.cursor == s.cursor && t.peer == s.peer && t.blocked == s.blocked && t.node == s.node
  }

  /** There is something to send, and all of it is refused, or the receiver fails on it. */
  ghost predicate Blocked(p: Nodes, enc: Encoding) {
    Out(p.s) != [] && (Received(p, enc).Err? || AllRefused(p.r, p.s.c, EncodeAll(enc, Out(p.s))))
  }

  lemma RoundView(p: Nodes, enc: Encoding)
    ensures var t := Deployed(p, enc).s;
            t.db == p.s.db && t.c == p.s.c && t.peer == p.s.peer && t.blocked == p.s.blocked && t.node == p.s.node && p.s.cursor <= t.cursor
  {
  }

  /** A blocked pair stays as it is. */
  lemma BlockedRound(p: Nodes, enc: Encoding)
    requires Blocked(p, enc)
    ensures SameView(p.s, Deployed(p, enc).s) && Deployed(p, enc).r == p.r
    ensures Blocked(Deployed(p, enc), enc)
  {
    RoundView(p, enc);
    if Received(p, enc).Ok? {
      NothingReceivedIff(PushOutcome(p.r, [], []), p.s.c, EncodeAll(enc, Out(p.s)), p.s.node);
    }
  }

  lemma EmptyRound(p: Nodes, enc: Encoding)
    requires Batch(p.s) == []
    ensures SameView(p.s, Deployed(p, enc).s) && Deployed(p, enc).r == p.r && Batch(Deployed(p, enc).s) == []
  {
  }

  lemma SentAreAbove(s: Sender, m: Msg)
    requires m in Out(s)
    ensures m in Batch(s) && m.seqNo > s.cursor
  {
    ToPushFilters(Batch(s), s.peer, s.blocked);
    HistoryIsGapless(s.db, s.c, s.cursor, PUSH_BATCH_SIZE);
  }

  /** A batch that is filtered whole is passed at once. */
  lemma FilteredRoundMoves(p: Nodes, enc: Encoding)
    requires Batch(p.s) != [] && Out(p.s) == []
    ensures Deployed(p, enc).s.cursor > p.s.cursor
  {
    HistoryIsGapless(p.s.db, p.s.c, p.s.cursor, PUSH_BATCH_SIZE);
    assert Batch(p.s)[0] in Batch(p.s);
  }

  /** If the receiver holds a message of the batch, the round moves the cursor. */
  lemma KnownRoundMoves(p: Nodes, enc: Encoding, i: nat)
    requires Faithful(enc) && i < |Out(p.s)| && Out(p.s)[i].hash in p.r.messages && Received(p, enc).Ok?
    ensures Deployed(p, enc).s.cursor > p.s.cursor
  {
    var ms := EncodeAll(enc, Out(p.s));
    KnownIsReceived(PushOutcome(p.r, [], []), p.s.c, ms, p.s.node, i);
    SentAreAbove(p.s, Out(p.s)[i]);
    assert ms[i].seqNo in Received(p, enc).value.received;
  }

  /** Unless it is blocked, a round moves the cursor or teaches the receiver a message of the batch, and then the next one moves it. */
  lemma MovesInTwo(p: Nodes, enc: Encoding)
    requires Faithful(enc) && Batch(p.s) != [] && !Blocked(p, enc)
    ensures Deployed(Deployed(p, enc), enc).s.cursor > p.s.cursor
  {
    var q := Deployed(p, enc);
    RoundView(p, enc);
    RoundView(q, enc);
    if Out(p.s) == [] {
      FilteredRoundMoves(p, enc);
    } else if q.s.cursor == p.s.cursor {
      var i := LearnsOne(p, enc);
      assert Out(q.s) == Out(p.s);
      KnownRoundMoves(q, enc, i);
    }
  }

  lemma LearnsOne(p: Nodes, enc: Encoding) returns (i: nat)
    requires Faithful(enc) && Out(p.s) != [] && !Blocked(p, enc) && Deployed(p, enc).s.cursor == p.s.cursor
    ensures var q := Deployed(p, enc);
            i < |Out(p.s)| && Out(p.s)[i].hash in q.r.messages && Received(q, enc).Ok?
  {
    var ms, o := EncodeAll(enc, Out(p.s)), PushOutcome(p.r, [], []);
    NothingReceivedIff(o, p.s.c, ms, p.s.node);
    i := SomethingHeld(o, p.s.c, ms, p.s.node);
    Content.PushTwice(p.r, p.s.c, ms, p.s.node);
    RoundView(p, enc);
    assert Out(Deployed(p, enc).s) == Out(p.s);
  }

  // ---- Whole sequences of rounds ----

  ghost predicate DrainedAt(ps: Rounds, k: nat) {
    Batch(ps(k).s) == []
  }

  ghost predicate BlockedAt(ps: Rounds, enc: Encoding, k: nat) {
    Blocked(ps(k), enc)
  }

  lemma {:induction false} BlockedForever(ps: Rounds, enc: Encoding, k: nat, j: nat)
    requires AreRounds(ps, enc) && BlockedAt(ps, enc, k) && k <= j
    ensures BlockedAt(ps, enc, j) && ps(j).s.cursor == ps(k).s.cursor && ps(j).r == ps(k).r
    decreases j
  {
    if k < j {
      BlockedForever(ps, enc, k, j - 1);
      BlockedRound(ps(j - 1), enc);
      assert Goes(ps, enc, j - 1);
    }
  }

  lemma {:induction false} DrainedForever(ps: Rounds, enc: Encoding, k: nat, j: nat)
    requires AreRounds(ps, enc) && DrainedAt(ps, k) && k <= j
    ensures DrainedAt(ps, j)
    decreases j
  {
    if k < j {
      DrainedForever(ps, enc, k, j - 1);
      EmptyRound(ps(j - 1), enc);
      assert Goes(ps, enc, j - 1);
    }
  }

  lemma NothingOut(s: Sender)
    requires Batch(s) == []
    ensures Out(s) == []
  {
  }

  lemma NotBoth(ps: Rounds, enc: Encoding, j: nat, k: nat)
    requires AreRounds(ps, enc) && DrainedAt(ps, j)
    ensures !BlockedAt(ps, enc, k)
  {
    if j <= k {
      DrainedForever(ps, enc, j, k);
      NothingOut(ps(k).s);
    } else if BlockedAt(ps, enc, k) {
      BlockedForever(ps, enc, k, j);
      NothingOut(ps(j).s);
      assert false;
    }
  }

  lemma {:induction false} TableStays(ps: Rounds, enc: Encoding, k: nat)
    requires AreRounds(ps, enc)
    ensures ps(k).s.db == ps(0).s.db && ps(k).s.c == ps(0).s.c
    decreases k
  {
    if k > 0 {
      TableStays(ps, enc, k - 1);
      RoundView(ps(k - 1), enc);
      assert Goes(ps, enc, k - 1);
    }
  }

  lemma TwoRoundsMove(ps: Rounds, enc: Encoding, k: nat)
    requires AreRounds(ps, enc) && !DrainedAt(ps, k) && !BlockedAt(ps, enc, k)
    ensures ps(k + 2).s.cursor > ps(k).s.cursor
  {
    MovesInTwo(ps(k), enc);
    assert Goes(ps, enc, k) && Goes(ps, enc, k + 1);
  }

  /** The table is drained before round `k`, or the cursor has come to `goal`. */
  ghost predicate GotTo(ps: Rounds, k: nat, goal: nat) {
    DrainedAt(ps, k) || ps(k).s.cursor >= goal
  }

  lemma GetsFurther(ps: Rounds, enc: Encoding, k: nat, goal: nat)
    requires AreRounds(ps, enc) && !BlockedAt(ps, enc, k) && GotTo(ps, k, goal)
    ensures GotTo(ps, k + 2, goal + 1)
  {
    if DrainedAt(ps, k) {
      DrainedForever(ps, enc, k, k + 2);
    } else {
      TwoRoundsMove(ps, enc, k);
    }
  }

  /** After `2 * n` rounds without a blockage the cursor has moved by `n`, or the table is drained. */
  lemma {:induction false} Progress(ps: Rounds, enc: Encoding, n: nat)
    requires AreRounds(ps, enc) && forall k: nat :: !BlockedAt(ps, enc, k)
    ensures GotTo(ps, 2 * n, ps(0).s.cursor + n)
    decreases n
  {
    if n > 0 {
      Progress(ps, enc, n - 1);
      GetsFurther(ps, enc, 2 * (n - 1), ps(0).s.cursor + (n - 1));
    }
  }

  lemma PastTheEnd(s: Sender)
    requires s.cursor >= Latest(s.db, s.c)
    ensures Batch(s) == []
  {
  }

  /**
   * With the receiver as written, the rounds get to the end of the table if and
   * only if no round meets a batch that is refused whole; such a batch blocks
   * everything behind it for good.
   */
  lemma DrainsIff(ps: Rounds, enc: Encoding)
    requires AreRounds(ps, enc)
    ensures (exists k: nat :: DrainedAt(ps, k)) <==> forall k: nat :: !BlockedAt(ps, enc, k)
  {
    if j: nat :| DrainedAt(ps, j) {
      forall k: nat
        ensures !BlockedAt(ps, enc, k)
      {
        NotBoth(ps, enc, j, k);
      }
    }
    if forall k: nat :: !BlockedAt(ps, enc, k) {
      var n := Latest(ps(0).s.db, ps(0).s.c);
      Progress(ps, enc, n);
      TableStays(ps, enc, 2 * n);
      if !DrainedAt(ps, 2 * n) {
        PastTheEnd(ps(2 * n).s);
      }
    }
  }

  lemma {:induction false} HistoryIsStored(db: Db, c: string, since: nat, limit: nat)
    ensures forall m :: m in History(db, c, since, limit) ==> At(db, m.hash, c, m.seqNo)
    decreases Latest(db, c) - since
  {
    if limit > 0 && since < Latest(db, c) {
      HistoryIsStored(db, c, since + 1, if Occupied(db, c, since + 1) then limit - 1 else limit);
    }
  }

  /** The end of the table is where nothing is stored above the cursor. */
  lemma EmptyIff(s: Sender)
    requires AllInRange(s.db)
    ensures Batch(s) == [] <==> NothingAbove(s.db, s.c, s.cursor)
  {
    HistoryIsExhaustive(s.db, s.c, s.cursor, PUSH_BATCH_SIZE);
    if Batch(s) != [] {
      var m := Batch(s)[0];
      assert m in Batch(s);
      HistoryIsStored(s.db, s.c, s.cursor, PUSH_BATCH_SIZE);
      HistoryIsGapless(s.db, s.c, s.cursor, PUSH_BATCH_SIZE);
      assert Occupied(s.db, s.c, m.seqNo);
    }
  }

  // ---- A blocked pair ----

  /** The receiver has banned every sender. */
  function Banned(m: Msg): Remote {
    Remote(m.hash, m.seqNo, m.sender, 0, Text, "", None, "A", true, true)
  }

  const REFUSED := Banned(Msg(1, "a", "u", "A"))

  lemma RefusedAtOnce(s: Sender)
    requires Out(s) == [Msg(1, "a", "u", "A")] && s.c == "c"
    ensures Blocked(Nodes(s, Fresh(CHANNELS)), Banned)
  {
    var ms := EncodeAll(Banned, Out(s));
    assert ms == [REFUSED];
    forall m | m in ms
      ensures Refuses(Fresh(CHANNELS), "c", m)
    {
      assert m == REFUSED;
    }
  }

  lemma StoresA() returns (s: Sender)
    ensures s == PushRun(NewSender("A", "B", "c", CHANNELS), [Store(Note("a"))])
    ensures Out(s) == [Msg(1, "a", "u", "A")] && s.c == "c"
  {
    var s0 := NewSender("A", "B", "c", CHANNELS);
    assert s0.db.channels == map["c" := Channel(0, false)];
    NoteStored(s0.db, "a", 0, "A");
    s := Next(s0, Store(Note("a")));
    assert [Store(Note("a"))][1..] == [] && PushRun(s, []) == s;
    FetchesA(s);
  }

  /** Node "A" has stored one message, node "B" none: the push is refused, again and again. */
  lemma BlockedExample(ps: Rounds, k: nat)
    requires ps(0) == Nodes(PushRun(NewSender("A", "B", "c", CHANNELS), [Store(Note("a"))]), Fresh(CHANNELS))
    requires AreRounds(ps, Banned)
    ensures BlockedAt(ps, Banned, k)
  {
    var s := StoresA();
    RefusedAtOnce(s);
    BlockedForever(ps, Banned, 0, k);
  }
}
