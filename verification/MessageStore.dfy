/**
 * The message table of a node and everything that writes to it: local ingest
 * with its edit, delete, pin, reaction and thread paths, mirror ingest,
 * federation push, and pruning. Each operation is one transaction: it commits
 * or leaves the database as it was.
 */
module MessageStore {
  import opened Common

  const MAX_MESSAGE_BODY_SIZE := 32000
  const MAX_EDIT_CHAIN_LENGTH := 50
  const MAX_STORED_REACTORS := 20
  const MAX_EMOJI_LENGTH := 32
  const MIN_SENDER_HASH := 16
  const MAX_MIRROR_AGE := 30 * 86400
  const CLOCK_DRIFT := 300

  type Hash = string

  datatype Kind = Text | Media | System | Reaction | ThreadReply | Delete | Pin | Edit

  datatype Reactors = Reactors(count: nat, identities: seq<string>)

  /** What a row stores of a body: plaintext, or a ciphertext, or neither. */
  datatype Body = Body(plain: Option<string>, cipher: Option<string>)

  datatype Row = Row(
    channel: string, sender: string, kind: Kind, seqNo: Option<nat>, threadSeq: Option<nat>, replyTo: Option<Hash>,
    body: Body, origin: string, pinned: bool, deleted: bool, editChain: seq<Hash>, reactions: map<string, Reactors>)

  datatype Channel = Channel(latestSeq: nat, isSealed: bool)

  datatype Thread = Thread(replyCount: nat, latestThreadSeq: nat, participants: seq<string>)

  datatype Db = Db(channels: map<string, Channel>, messages: map<Hash, Row>, threads: map<Hash, Thread>)

  datatype Error =
    | NoChannel | BodyTooLarge | Refused | NoTarget | WrongChannel | NotAuthor | ChainFull
    | BadEmoji | KeyClash | NoSealingKey | Unsealed | BadSender | BadTimestamp

  /**
   * An envelope with its precomputed hash, the outcome of the permission gate,
   * and the ciphertext the sealed-key manager would return (none without a key).
   */
  datatype Envelope = Envelope(
    hash: Hash, channel: string, sender: string, kind: Kind, body: string, replyTo: Option<Hash>,
    permitted: bool, sealing: Option<string>)

  /** A message received from a federation peer, with the outcome of the signature check. */
  datatype Remote = Remote(
    hash: Hash, seqNo: nat, sender: string, timestamp: int, kind: Kind, body: string, cipher: Option<string>,
    origin: string, verified: bool, banned: bool)

  // ---- Shared pieces ----

  function SealForOrigin(ch: Channel, plain: string, sealing: Option<string>): Result<Body, Error> {
    if !ch.isSealed then Ok(Body(Some(plain), None))
    else if plain == "" then Ok(Body(None, None))
    else if sealing.None? then Err(NoSealingKey)
    else Ok(Body(None, sealing))
  }

  function ValidateMirrorPayload(ch: Channel, plain: string, cipher: Option<string>): Result<Body, Error> {
    if !ch.isSealed then Ok(Body(Some(plain), None))
    else if plain != "" || cipher.None? || cipher == Some("") then Err(Unsealed)
    else Ok(Body(None, cipher))
  }

  function NextSeq(db: Db, ch: string): Result<(Db, nat), Error> {
    if ch !in db.channels then Err(NoChannel)
    else
      var n := db.channels[ch].latestSeq + 1;
      Ok((db.(channels := db.channels[ch := db.channels[ch].(latestSeq := n)]), n))
  }

  /** A thread row references its root message, so a missing root fails the insert. */
  function NextThreadSeq(db: Db, root: Hash): Result<(Db, nat), Error> {
    if root in db.threads then
      var n := db.threads[root].latestThreadSeq + 1;
      Ok((db.(threads := db.threads[root := db.threads[root].(latestThreadSeq := n)]), n))
    else if root !in db.messages then Err(KeyClash)
    else Ok((db.(threads := db.threads[root := Thread(0, 1, [])]), 1))
  }

  function UpdateThread(db: Db, root: Hash, sender: string): Db {
    var t := if root in db.threads then db.threads[root].(replyCount := db.threads[root].replyCount + 1)
             else Thread(1, 0, []);
    var t' := if sender in t.participants then t else t.(participants := t.participants + [sender]);
    db.(threads := db.threads[root := t'])
  }

  function Insert(db: Db, h: Hash, r: Row): Result<Db, Error> {
    if h in db.messages then Err(KeyClash) else Ok(db.(messages := db.messages[h := r]))
  }

  function FreshRow(ch: string, sender: string, kind: Kind, body: Body, origin: string): Row {
    Row(ch, sender, kind, None, None, None, body, origin, false, false, [], map[])
  }

  // ---- Local ingest ----

  function Target(db: Db, e: Envelope): Result<Row, Error> {
    if e.replyTo.None? || e.replyTo.value !in db.messages then Err(NoTarget)
    else if db.messages[e.replyTo.value].channel != e.channel then Err(WrongChannel)
    else Ok(db.messages[e.replyTo.value])
  }

  function ProcessEdit(db: Db, e: Envelope, node: string): Result<Db, Error> {
    match Target(db, e)
    case Err(x) => Err(x)
    case Ok(original) =>
      if original.sender != e.sender then Err(NotAuthor)
      else if e.channel !in db.channels then Err(NoChannel)
      else match SealForOrigin(db.channels[e.channel], e.body, e.sealing)
           case Err(x) => Err(x)
           case Ok(b) =>
             match Insert(db, e.hash, FreshRow(e.channel, e.sender, Edit, b, node).(replyTo := e.replyTo))
             case Err(x) => Err(x)
             case Ok(db1) =>
               if |original.editChain| >= MAX_EDIT_CHAIN_LENGTH then Err(ChainFull)
               else Ok(db1.(messages := db1.messages[e.replyTo.value :=
                              original.(editChain := original.editChain + [e.hash], body := b)]))
  }

  function ProcessDelete(db: Db, e: Envelope): Result<Db, Error> {
    match Target(db, e)
    case Err(x) => Err(x)
    case Ok(t) => Ok(db.(messages := db.messages[e.replyTo.value := t.(deleted := true, body := t.body.(plain := None))]))
  }

  /** `e.hash` names the system message a pin toggle leaves behind. */
  function ProcessPin(db: Db, e: Envelope, node: string): Result<Db, Error> {
    match Target(db, e)
    case Err(x) => Err(x)
    case Ok(t) =>
      var db1 := db.(messages := db.messages[e.replyTo.value := t.(pinned := !t.pinned)]);
      match NextSeq(db1, e.channel)
      case Err(x) => Err(x)
      case Ok((db2, n)) =>
        match SealForOrigin(db2.channels[e.channel], if t.pinned then "unpinned" else "pinned", e.sealing)
        case Err(x) => Err(x)
        case Ok(b) => Insert(db2, e.hash, FreshRow(e.channel, e.sender, System, b, node).(seqNo := Some(n)))
  }

  /** The stored list keeps the first twenty reactors; the count keeps counting. */
  function React(r: Reactors, who: string): Reactors {
    if who in r.identities then r
    else
      var ids := r.identities + [who];
      Reactors(r.count + 1, if |ids| > MAX_STORED_REACTORS then ids[..MAX_STORED_REACTORS] else ids)
  }

  function ProcessReaction(db: Db, e: Envelope): Result<Db, Error> {
    match Target(db, e)
    case Err(x) => Err(x)
    case Ok(t) =>
      if e.body == "" || |e.body| > MAX_EMOJI_LENGTH then Err(BadEmoji)
      else
        var entry := if e.body in t.reactions then t.reactions[e.body] else Reactors(0, []);
        Ok(db.(messages := db.messages[e.replyTo.value := t.(reactions := t.reactions[e.body := React(entry, e.sender)])]))
  }

  /** Texts, media, system messages and thread replies: a known hash is returned as it is. */
  function StoreNew(db: Db, e: Envelope, node: string): Result<Db, Error> {
    if e.hash in db.messages then Ok(db)
    else if e.channel !in db.channels then Err(NoChannel)
    else
      var threaded := e.kind == ThreadReply && e.replyTo.Some?;
      var numbered := if threaded then NextThreadSeq(db, e.replyTo.value) else NextSeq(db, e.channel);
      match numbered
      case Err(x) => Err(x)
      case Ok((db1, n)) =>
        var db2 := if threaded then UpdateThread(db1, e.replyTo.value, e.sender) else db1;
        match SealForOrigin(db2.channels[e.channel], e.body, e.sealing)
        case Err(x) => Err(x)
        case Ok(b) =>
          var row := FreshRow(e.channel, e.sender, e.kind, b, node).(replyTo := e.replyTo);
          Insert(db2, e.hash, if threaded then row.(threadSeq := Some(n)) else row.(seqNo := Some(n)))
  }

  function Ingest(db: Db, e: Envelope, node: string): Result<Db, Error> {
    if e.channel !in db.channels then Err(NoChannel)
    else if |e.body| > MAX_MESSAGE_BODY_SIZE then Err(BodyTooLarge)
    else if !e.permitted then Err(Refused)
    else match e.kind
         case Edit => ProcessEdit(db, e, node)
         case Delete => ProcessDelete(db, e)
         case Pin => ProcessPin(db, e, node)
         case Reaction => ProcessReaction(db, e)
         case _ => StoreNew(db, e, node)
  }

  // ---- Federation ----

  function StoreRemote(db: Db, ch: string, m: Remote, origin: string): Result<Db, Error> {
    if ch !in db.channels then Err(NoChannel)
    else match ValidateMirrorPayload(db.channels[ch], m.body, m.cipher)
         case Err(x) => Err(x)
         case Ok(b) =>
           var (db1, n) := NextSeq(db, ch).value;
           Insert(db1, m.hash, FreshRow(ch, m.sender, m.kind, b, origin).(seqNo := Some(n)))
  }

  /** Pulled through a mirror of `peer`; the payload's own origin counts only when no peer is known. */
  function MirrorIngest(db: Db, ch: string, m: Remote, peer: string, now: int): Result<Db, Error> {
    if |m.body| > MAX_MESSAGE_BODY_SIZE then Err(BodyTooLarge)
    else if |m.sender| < MIN_SENDER_HASH then Err(BadSender)
    else if m.timestamp > now + CLOCK_DRIFT || m.timestamp < now - MAX_MIRROR_AGE then Err(BadTimestamp)
    else if !m.verified then Err(Refused)
    else if m.hash in db.messages then Ok(db)
    else StoreRemote(db, ch, m, if peer != "" then peer else m.origin)
  }

  datatype PushOutcome = PushOutcome(db: Db, received: seq<nat>, rejected: seq<Hash>)

  function PushOne(o: PushOutcome, ch: string, m: Remote, peer: string): Result<PushOutcome, Error> {
    if m.hash in o.db.messages then Ok(o.(received := o.received + [m.seqNo]))
    else if m.banned || !m.verified || |m.body| > MAX_MESSAGE_BODY_SIZE then Ok(o.(rejected := o.rejected + [m.hash]))
    else match StoreRemote(o.db, ch, m, peer)
         case Ok(db) => Ok(PushOutcome(db, o.received + [db.channels[ch].latestSeq], o.rejected))
         case Err(Unsealed) => Ok(o.(rejected := o.rejected + [m.hash]))
         case Err(x) => Err(x)
  }

  /**
   * Pushed by `peer`. A message already stored is acknowledged with the
   * pusher's sequence number, a new one with the number it gets here.
   */
  function PushMessages(o: PushOutcome, ch: string, ms: seq<Remote>, peer: string): Result<PushOutcome, Error>
    decreases |ms|
  {
    if ms == [] then Ok(o)
    else match PushOne(o, ch, ms[0], peer)
         case Err(x) => Err(x)
         case Ok(o') => PushMessages(o', ch, ms[1..], peer)
  }

  function Push(db: Db, ch: string, ms: seq<Remote>, peer: string, trusted: bool): Result<PushOutcome, Error> {
    if !trusted then Err(Refused) else PushMessages(PushOutcome(db, [], []), ch, ms, peer)
  }

  // ---- Maintenance ----

  /** Rows may go, but not the root of a thread that still has its row. */
  function Prune(db: Db, hs: set<Hash>): Result<Db, Error> {
    if hs * db.threads.Keys != {} then Err(KeyClash) else Ok(db.(messages := db.messages - hs))
  }

  // ---- Runs ----

  datatype Event =
    | LocalIngest(e: Envelope)
    | MirrorPull(ch: string, m: Remote, peer: string, now: int)
    | PeerPush(ch: string, ms: seq<Remote>, peer: string, trusted: bool)
    | PruneRows(hs: set<Hash>)
    | RolledBack

  function Apply(db: Db, e: Event, node: string): Result<Db, Error> {
    match e
    case LocalIngest(env) => Ingest(db, env, node)
    case MirrorPull(ch, m, peer, now) => MirrorIngest(db, ch, m, peer, now)
    case PeerPush(ch, ms, peer, trusted) =>
      (match Push(db, ch, ms, peer, trusted)
       case Ok(o) => Ok(o.db)
       case Err(x) => Err(x))
    case PruneRows(hs) => Prune(db, hs)
    case RolledBack => Err(Refused)
  }

  function Step(db: Db, e: Event, node: string): Db {
    match Apply(db, e, node)
    case Ok(db') => db'
    case Err(_) => db
  }

  function RunOf(db: Db, es: seq<Event>, node: string): Db
    decreases |es|
  {
    if es == [] then db else RunOf(Step(db, es[0], node), es[1..], node)
  }

  predicate NeverPrunes(es: seq<Event>) {
    forall k :: 0 <= k < |es| ==> !es[k].PruneRows?
  }
}
