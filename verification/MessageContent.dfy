/** What the message table promises about contents: sealed bodies, bounded lists, reaction counts, repeated pushes. */
module MessageContent {
  import opened Common
  import opened MessageStore

  // ---- Ciphertext at rest, bounded lists ----

  predicate CleanRow(db: Db, r: Row) {
    && r.channel in db.channels
    && (db.channels[r.channel].isSealed ==> r.body.plain.None?)
    && |r.editChain| <= MAX_EDIT_CHAIN_LENGTH
    && (forall x :: x in r.reactions ==>
          |r.reactions[x].identities| <= MAX_STORED_REACTORS && |r.reactions[x].identities| <= r.reactions[x].count)
  }

  ghost predicate Clean(db: Db) {
    forall h :: h in db.messages ==> CleanRow(db, db.messages[h])
  }

  /** Replacing rows by clean ones in a database with the same channels keeps it clean. */
  lemma CleanUpdate(db: Db, db': Db, h: Hash, r: Row)
    requires Clean(db) && CleanRow(db, r)
    requires db'.messages == db.messages[h := r] && SameSealing(db, db')
    ensures Clean(db')
  {
  }

  ghost predicate SameSealing(db: Db, db': Db) {
    forall c :: c in db.channels ==> c in db'.channels && db'.channels[c].isSealed == db.channels[c].isSealed
  }

  lemma EditKeepsClean(db: Db, e: Envelope, node: string)
    requires Clean(db) && ProcessEdit(db, e, node).Ok?
    ensures Clean(ProcessEdit(db, e, node).value)
  {
    var original := db.messages[e.replyTo.value];
    assert CleanRow(db, original);
    var b := SealForOrigin(db.channels[e.channel], e.body, e.sealing).value;
    var row := FreshRow(e.channel, e.sender, Edit, b, node).(replyTo := e.replyTo);
    var db1 := Insert(db, e.hash, row).value;
    CleanUpdate(db, db1, e.hash, row);
    CleanUpdate(db1, ProcessEdit(db, e, node).value, e.replyTo.value,
                original.(editChain := original.editChain + [e.hash], body := b));
  }

  lemma ReactionKeepsClean(db: Db, e: Envelope)
    requires Clean(db) && ProcessReaction(db, e).Ok?
    ensures Clean(ProcessReaction(db, e).value)
  {
    var db' := ProcessReaction(db, e).value;
    var t := db.messages[e.replyTo.value];
    assert CleanRow(db, t);
    CleanUpdate(db, db', e.replyTo.value, db'.messages[e.replyTo.value]);
  }

  lemma DeleteKeepsClean(db: Db, e: Envelope)
    requires Clean(db) && ProcessDelete(db, e).Ok?
    ensures Clean(ProcessDelete(db, e).value)
  {
    var db' := ProcessDelete(db, e).value;
    assert CleanRow(db, db.messages[e.replyTo.value]);
    CleanUpdate(db, db', e.replyTo.value, db'.messages[e.replyTo.value]);
  }

  lemma PinKeepsClean(db: Db, e: Envelope, node: string)
    requires Clean(db) && ProcessPin(db, e, node).Ok?
    ensures Clean(ProcessPin(db, e, node).value)
  {
    var t := db.messages[e.replyTo.value];
    var db1 := db.(messages := db.messages[e.replyTo.value := t.(pinned := !t.pinned)]);
    assert CleanRow(db, t);
    CleanUpdate(db, db1, e.replyTo.value, t.(pinned := !t.pinned));
    var db' := ProcessPin(db, e, node).value;
    CleanUpdate(db1, db', e.hash, db'.messages[e.hash]);
  }

  lemma IngestKeepsClean(db: Db, e: Envelope, node: string)
    requires Clean(db) && Ingest(db, e, node).Ok?
    ensures Clean(Ingest(db, e, node).value)
  {
    match e.kind
    case Edit => EditKeepsClean(db, e, node);
    case Delete => DeleteKeepsClean(db, e);
    case Pin => PinKeepsClean(db, e, node);
    case Reaction => ReactionKeepsClean(db, e);
    case _ => StoreNewKeepsClean(db, e, node);
  }

  lemma StoreNewKeepsClean(db: Db, e: Envelope, node: string)
    requires Clean(db) && StoreNew(db, e, node).Ok?
    ensures Clean(StoreNew(db, e, node).value)
  {
    var db' := StoreNew(db, e, node).value;
    if e.hash !in db.messages {
      NewRowIsClean(db, e, node);
      CleanUpdate(db, db', e.hash, db'.messages[e.hash]);
    }
  }

  lemma NewRowIsClean(db: Db, e: Envelope, node: string)
    requires e.hash !in db.messages && StoreNew(db, e, node).Ok?
    ensures var db' := StoreNew(db, e, node).value;
            && e.hash in db'.messages && db'.messages == db.messages[e.hash := db'.messages[e.hash]]
            && SameSealing(db, db') && CleanRow(db, db'.messages[e.hash])
  {
  }

  lemma RemoteKeepsClean(db: Db, ch: string, m: Remote, origin: string)
    requires Clean(db) && StoreRemote(db, ch, m, origin).Ok?
    ensures Clean(StoreRemote(db, ch, m, origin).value)
  {
  }

  lemma {:induction false} PushKeepsClean(o: PushOutcome, ch: string, ms: seq<Remote>, peer: string)
    requires Clean(o.db) && PushMessages(o, ch, ms, peer).Ok?
    ensures Clean(PushMessages(o, ch, ms, peer).value.db)
    decreases |ms|
  {
    if ms != [] {
      var o' := PushOne(o, ch, ms[0], peer).value;
      if o'.db != o.db {
        RemoteKeepsClean(o.db, ch, ms[0], peer);
      }
      PushKeepsClean(o', ch, ms[1..], peer);
    }
  }

  lemma StepKeepsClean(db: Db, e: Event, node: string)
    requires Clean(db)
    ensures Clean(Step(db, e, node))
  {
    if Apply(db, e, node).Ok? {
      match e
      case LocalIngest(env) => IngestKeepsClean(db, env, node);
      case MirrorPull(ch, m, peer, now) =>
        if m.hash !in db.messages {
          RemoteKeepsClean(db, ch, m, if peer != "" then peer else m.origin);
        }
      case PeerPush(ch, ms, peer, trusted) => PushKeepsClean(PushOutcome(db, [], []), ch, ms, peer);
      case PruneRows(hs) =>
    }
  }

  /**
   * Whatever a node ingests, mirrors or is pushed, no row of a sealed channel
   * ever holds a plaintext body, and edit chains and reactor lists stay bounded.
   */
  lemma {:induction false} SealedAtRest(db: Db, es: seq<Event>, node: string)
    requires Clean(db)
    ensures Clean(RunOf(db, es, node))
    decreases |es|
  {
    if es != [] {
      StepKeepsClean(db, es[0], node);
      SealedAtRest(Step(db, es[0], node), es[1..], node);
    }
  }

  // ---- Reactions ----

  function ReactAll(ws: seq<string>): Reactors {
    if ws == [] then Reactors(0, []) else React(ReactAll(ws[..|ws| - 1]), ws[|ws| - 1])
  }

  /** The different reactors, in order of first appearance. */
  function Distinct(ws: seq<string>): (d: seq<string>)
    ensures forall w :: w in ws <==> w in d
  {
    if ws == [] then []
    else
      var d, w := Distinct(ws[..|ws| - 1]), ws[|ws| - 1];
      assert ws == ws[..|ws| - 1] + [w];
      if w in d then d else d + [w]
  }

  /** Reactions by someone who already reacted but is past the stored twenty. */
  function Recounts(ws: seq<string>): nat {
    if ws == [] then 0
    else
      var d, w := Distinct(ws[..|ws| - 1]), ws[|ws| - 1];
      Recounts(ws[..|ws| - 1]) + if w in d && w !in Stored(d) then 1 else 0
  }

  function Stored(d: seq<string>): seq<string> {
    if |d| > MAX_STORED_REACTORS then d[..MAX_STORED_REACTORS] else d
  }

  /** The list is the first twenty different reactors; the count is the different reactors plus every recount. */
  lemma {:induction false} ReactionTally(ws: seq<string>)
    ensures ReactAll(ws).identities == Stored(Distinct(ws))
    ensures ReactAll(ws).count == |Distinct(ws)| + Recounts(ws)
  {
    if ws != [] {
      ReactionTally(ws[..|ws| - 1]);
    }
  }

  predicate LateRepeat(ws: seq<string>, j: nat)
    requires j < |ws|
  {
    ws[j] in ws[..j] && ws[j] !in Stored(Distinct(ws[..j]))
  }

  lemma LateRepeatPrefix(ws: seq<string>, j: nat)
    requires j < |ws| - 1
    ensures LateRepeat(ws[..|ws| - 1], j) == LateRepeat(ws, j)
  {
    assert ws[..|ws| - 1][..j] == ws[..j];
  }

  lemma {:induction false} RecountsZero(ws: seq<string>)
    ensures Recounts(ws) == 0 <==> forall j :: 0 <= j < |ws| ==> !LateRepeat(ws, j)
  {
    if ws != [] {
      var us := ws[..|ws| - 1];
      RecountsZero(us);
      forall j | 0 <= j < |us|
        ensures LateRepeat(us, j) == LateRepeat(ws, j)
      {
        LateRepeatPrefix(ws, j);
      }
      assert Recounts(ws) == Recounts(us) + if LateRepeat(ws, |us|) then 1 else 0;
    }
  }

  /**
   * The stored count is the number of different identities that reacted if and
   * only if nobody beyond the first twenty reacted a second time.
   */
  lemma ReactionCountExact(ws: seq<string>)
    ensures ReactAll(ws).count == |Distinct(ws)| <==> forall j :: 0 <= j < |ws| ==> !LateRepeat(ws, j)
  {
    ReactionTally(ws);
    RecountsZero(ws);
  }

  /** `n` different identities. */
  function Crowd(n: nat): (ws: seq<string>)
    ensures |ws| == n && forall w :: w in ws ==> |w| < n
  {
    if n == 0 then [] else Crowd(n - 1) + [seq(n - 1, i => 'u')]
  }

  lemma {:induction false} CrowdIsDistinct(n: nat)
    ensures Distinct(Crowd(n)) == Crowd(n)
  {
    if n > 0 {
      CrowdIsDistinct(n - 1);
      assert Crowd(n)[..n - 1] == Crowd(n - 1);
      assert seq(n - 1, i => 'u') !in Crowd(n - 1);
    }
  }

  /** More than twenty identities react, and then the last of them reacts again: one reaction is counted twice. */
  lemma RecountExample(n: nat)
    requires n > MAX_STORED_REACTORS
    ensures var ws := Crowd(n) + [Crowd(n)[n - 1]];
            LateRepeat(ws, n) && ReactAll(ws).count == |Distinct(ws)| + 1 && |Distinct(ws)| == n
  {
    var us, w := Crowd(n), Crowd(n)[n - 1];
    var ws := us + [w];
    CrowdIsDistinct(n);
    CrowdIsDistinct(n - 1);
    assert ws[..n] == us && us[..n - 1] == Crowd(n - 1) && |w| == n - 1;
    StoredIsEarly(n);
    ReactionTally(ws);
    ReactionTally(us);
    NoRecounts(n);
  }

  lemma StoredIsEarly(n: nat)
    requires n > MAX_STORED_REACTORS
    ensures Crowd(n)[n - 1] !in Stored(Crowd(n))
  {
    var us := Crowd(n);
    assert us[..n - 1] == Crowd(n - 1);
    forall w | w in Stored(us)
      ensures |w| < n - 1
    {
      var i :| 0 <= i < MAX_STORED_REACTORS && w == us[i];
      assert us[i] == us[..n - 1][i];
    }
  }

  lemma {:induction false} NoRecounts(n: nat)
    ensures Recounts(Crowd(n)) == 0
  {
    if n > 0 {
      NoRecounts(n - 1);
      CrowdIsDistinct(n - 1);
      assert Crowd(n)[..n - 1] == Crowd(n - 1);
    }
  }

  // ---- Repeated pushes ----

  /** The message is stored, or would be turned away again. */
  predicate Settled(db: Db, ch: string, m: Remote) {
    || m.hash in db.messages
    || m.banned || !m.verified || |m.body| > MAX_MESSAGE_BODY_SIZE
    || (ch in db.channels && ValidateMirrorPayload(db.channels[ch], m.body, m.cipher).Err?)
  }

  lemma PushOneSettles(o: PushOutcome, ch: string, m: Remote, peer: string)
    requires PushOne(o, ch, m, peer).Ok?
    ensures Settled(PushOne(o, ch, m, peer).value.db, ch, m)
    ensures forall x :: Settled(o.db, ch, x) ==> Settled(PushOne(o, ch, m, peer).value.db, ch, x)
  {
  }

  lemma {:induction false} PushSettles(o: PushOutcome, ch: string, ms: seq<Remote>, peer: string)
    requires PushMessages(o, ch, ms, peer).Ok?
    ensures forall m :: m in ms || Settled(o.db, ch, m) ==> Settled(PushMessages(o, ch, ms, peer).value.db, ch, m)
    decreases |ms|
  {
    if ms != [] {
      PushOneSettles(o, ch, ms[0], peer);
      PushSettles(PushOne(o, ch, ms[0], peer).value, ch, ms[1..], peer);
    }
  }

  lemma {:induction false} SettledPushIsNoop(o: PushOutcome, ch: string, ms: seq<Remote>, peer: string)
    requires forall m :: m in ms ==> Settled(o.db, ch, m)
    ensures var r := PushMessages(o, ch, ms, peer);
            && r.Ok? && r.value.db == o.db
            && (forall n :: n in r.value.received && n !in o.received ==> exists m :: m in ms && m.seqNo == n)
    decreases |ms|
  {
    if ms != [] {
      assert ms[0] in ms;
      var o' := PushOne(o, ch, ms[0], peer).value;
      SettledPushIsNoop(o', ch, ms[1..], peer);
    }
  }

  /**
   * At-least-once delivery into idempotent storage: pushing a batch again
   * changes nothing, and this time every number acknowledged is the pusher's.
   */
  lemma PushTwice(db: Db, ch: string, ms: seq<Remote>, peer: string)
    requires Push(db, ch, ms, peer, true).Ok?
    ensures var db' := Push(db, ch, ms, peer, true).value.db;
            var again := Push(db', ch, ms, peer, true);
            && again.Ok? && again.value.db == db'
            && (forall n :: n in again.value.received ==> exists m :: m in ms && m.seqNo == n)
  {
    PushSettles(PushOutcome(db, [], []), ch, ms, peer);
    var db' := Push(db, ch, ms, peer, true).value.db;
    SettledPushIsNoop(PushOutcome(db', [], []), ch, ms, peer);
  }
}
