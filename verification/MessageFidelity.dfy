/**
 * What the message table says: which requests are accepted, what each leaves in
 * the row it names, and how long a row keeps what was written.
 */
module MessageFidelity {
  import opened Common
  import opened MessageStore

  /** What a row holds once `text` is written to it: the text, or in a sealed channel its ciphertext alone. */
  predicate Says(b: Body, ch: Channel, text: string, sealing: Option<string>) {
    if ch.isSealed then b.plain.None? && b.cipher == (if text == "" then None else sealing)
    else b.plain == Some(text) && b.cipher.None?
  }

  predicate CanSay(ch: Channel, text: string, sealing: Option<string>) {
    ch.isSealed && text != "" ==> sealing.Some?
  }

  lemma SealingSays(ch: Channel, text: string, sealing: Option<string>)
    ensures SealForOrigin(ch, text, sealing).Ok? <==> CanSay(ch, text, sealing)
    ensures SealForOrigin(ch, text, sealing).Ok? ==> Says(SealForOrigin(ch, text, sealing).value, ch, text, sealing)
  {
  }

  predicate Admitted(db: Db, e: Envelope) {
    e.channel in db.channels && |e.body| <= 32000 && e.permitted
  }

  // ---- Posts ----

  predicate IsPost(k: Kind) {
    k == Text || k == Media || k == System || k == ThreadReply
  }

  predicate Threaded(e: Envelope) {
    e.kind == ThreadReply && e.replyTo.Some?
  }

  predicate New(r: Row) {
    !r.pinned && !r.deleted && r.editChain == [] && r.reactions == map[]
  }

  lemma PostAcceptedIff(db: Db, e: Envelope, node: string)
    requires IsPost(e.kind)
    ensures Ingest(db, e, node).Ok? <==>
            && Admitted(db, e)
            && (e.hash !in db.messages ==>
                  && CanSay(db.channels[e.channel], e.body, e.sealing)
                  && (Threaded(e) ==> e.replyTo.value in db.threads || e.replyTo.value in db.messages))
  {
    if e.channel in db.channels {
      SealingSays(db.channels[e.channel], e.body, e.sealing);
    }
  }

  /** A new post is stored as it was sent; a known one changes nothing. */
  lemma PostStored(db: Db, e: Envelope, node: string)
    requires IsPost(e.kind) && Ingest(db, e, node).Ok?
    ensures e.hash in db.messages ==> Ingest(db, e, node).value == db
    ensures e.hash !in db.messages ==> Stored(db, e, node, Ingest(db, e, node).value)
  {
    if e.hash !in db.messages {
      if Threaded(e) {
        ReplyStored(db, e, node);
      } else {
        MainStored(db, e, node);
      }
    }
  }

  /** One more row, with the words of the post. */
  predicate Stored(db: Db, e: Envelope, node: string, db': Db)
    requires e.channel in db.channels
  {
    && e.hash in db'.messages && db'.messages == db.messages[e.hash := db'.messages[e.hash]]
    && var r := db'.messages[e.hash];
       && r.channel == e.channel && r.sender == e.sender && r.kind == e.kind && r.replyTo == e.replyTo && r.origin == node
       && Says(r.body, db.channels[e.channel], e.body, e.sealing) && New(r)
  }

  /** Off a thread it takes the channel's next number, and threads stay as they are. */
  lemma MainStored(db: Db, e: Envelope, node: string)
    requires IsPost(e.kind) && !Threaded(e) && e.hash !in db.messages && Ingest(db, e, node).Ok?
    ensures var db' := Ingest(db, e, node).value;
            && Stored(db, e, node, db') && db'.threads == db.threads
            && db'.messages[e.hash].threadSeq.None?
            && db'.messages[e.hash].seqNo == Some(db.channels[e.channel].latestSeq + 1)
  {
    SealingSays(db.channels[e.channel], e.body, e.sealing);
  }

  function ThreadAt(db: Db, root: Hash): Thread {
    if root in db.threads then db.threads[root] else Thread(0, 0, [])
  }

  /** The thread row, made if there was none, counts one more reply and lists its author once. */
  lemma ThreadUpdated(db: Db, root: Hash, sender: string)
    ensures var db', was := UpdateThread(db, root, sender), ThreadAt(db, root);
            && db' == db.(threads := db'.threads) && db'.threads.Keys == db.threads.Keys + {root}
            && (forall t :: t in db.threads && t != root ==> db'.threads[t] == db.threads[t])
            && db'.threads[root].replyCount == was.replyCount + 1 && db'.threads[root].latestThreadSeq == was.latestThreadSeq
            && db'.threads[root].participants ==
               if sender in was.participants then was.participants else was.participants + [sender]
  {
  }

  /** In a thread it takes the thread's next number, and its author is listed once among the participants. */
  lemma ReplyStored(db: Db, e: Envelope, node: string)
    requires Threaded(e) && e.hash !in db.messages && Ingest(db, e, node).Ok?
    ensures var db', root := Ingest(db, e, node).value, e.replyTo.value;
            && Stored(db, e, node, db') && db'.channels == db.channels
            && db'.messages[e.hash].seqNo.None? && root in db'.threads
            && (forall t :: t in db.threads && t != root ==> t in db'.threads && db'.threads[t] == db.threads[t])
            && var was, now := ThreadAt(db, root), db'.threads[root];
               && db'.messages[e.hash].threadSeq == Some(was.latestThreadSeq + 1)
               && now.latestThreadSeq == was.latestThreadSeq + 1 && now.replyCount == was.replyCount + 1
               && now.participants == if e.sender in was.participants then was.participants else was.participants + [e.sender]
  {
    SealingSays(db.channels[e.channel], e.body, e.sealing);
  }

  // ---- Requests about another message ----

  /** The request names a stored message of its own channel. */
  predicate Aims(db: Db, e: Envelope) {
    e.replyTo.Some? && e.replyTo.value in db.messages && db.messages[e.replyTo.value].channel == e.channel
  }

  /** Only the author edits, at most fifty times. */
  lemma EditAcceptedIff(db: Db, e: Envelope, node: string)
    requires e.kind == Edit
    ensures Ingest(db, e, node).Ok? <==>
            && Admitted(db, e) && Aims(db, e) && e.hash !in db.messages
            && db.messages[e.replyTo.value].sender == e.sender && |db.messages[e.replyTo.value].editChain| < 50
            && CanSay(db.channels[e.channel], e.body, e.sealing)
  {
    if e.channel in db.channels {
      SealingSays(db.channels[e.channel], e.body, e.sealing);
    }
  }

  /** The target says the new text and lists the edit; the edit has a row of its own, outside the timeline. */
  lemma EditStored(db: Db, e: Envelope, node: string)
    requires e.kind == Edit && Ingest(db, e, node).Ok?
    ensures var db', t := Ingest(db, e, node).value, e.replyTo.value;
            && t in db.messages && t != e.hash && db'.messages.Keys == db.messages.Keys + {e.hash}
            && (forall h :: h in db.messages && h != t ==> db'.messages[h] == db.messages[h])
            && var b := db'.messages[t].body;
               && Says(b, db.channels[e.channel], e.body, e.sealing)
               && db'.messages[t] == db.messages[t].(editChain := db.messages[t].editChain + [e.hash], body := b)
               && db'.messages[e.hash] == Row(e.channel, e.sender, Edit, None, None, Some(t), b, node, false, false, [], map[])
  {
    SealingSays(db.channels[e.channel], e.body, e.sealing);
  }

  lemma DeleteAcceptedIff(db: Db, e: Envelope, node: string)
    requires e.kind == Delete
    ensures Ingest(db, e, node).Ok? <==> Admitted(db, e) && Aims(db, e)
  {
  }

  /** The target loses its text and is marked; nothing else changes. */
  lemma DeleteStored(db: Db, e: Envelope, node: string)
    requires e.kind == Delete && Ingest(db, e, node).Ok?
    ensures var db', t := Ingest(db, e, node).value, e.replyTo.value;
            && t in db.messages && db'.messages.Keys == db.messages.Keys && db'.channels == db.channels
            && (forall h :: h in db.messages && h != t ==> db'.messages[h] == db.messages[h])
            && db'.messages[t].deleted && db'.messages[t].body.plain.None?
            && db'.messages[t] == db.messages[t].(deleted := true, body := db'.messages[t].body)
            && db'.messages[t].body.cipher == db.messages[t].body.cipher
  {
  }

  lemma PinAcceptedIff(db: Db, e: Envelope, node: string)
    requires e.kind == Pin
    ensures Ingest(db, e, node).Ok? <==>
            Admitted(db, e) && Aims(db, e) && e.hash !in db.messages && (db.channels[e.channel].isSealed ==> e.sealing.Some?)
  {
  }

  /** The target's pin is flipped, and a system message with the next number says which way. */
  lemma PinStored(db: Db, e: Envelope, node: string)
    requires e.kind == Pin && Ingest(db, e, node).Ok?
    ensures var db', t := Ingest(db, e, node).value, e.replyTo.value;
            && t in db.messages && db'.messages.Keys == db.messages.Keys + {e.hash} && t != e.hash
            && (forall h :: h in db.messages && h != t ==> db'.messages[h] == db.messages[h])
            && db'.messages[t] == db.messages[t].(pinned := !db.messages[t].pinned)
            && var r := db'.messages[e.hash];
               && Says(r.body, db.channels[e.channel], if db.messages[t].pinned then "unpinned" else "pinned", e.sealing)
               && r.kind == System && r.sender == e.sender && r.channel == e.channel && r.origin == node && New(r)
               && r.seqNo == Some(db.channels[e.channel].latestSeq + 1) && r.threadSeq.None?
  {
    var t := e.replyTo.value;
    SealingSays(db.channels[e.channel], if db.messages[t].pinned then "unpinned" else "pinned", e.sealing);
  }

  lemma ReactionAcceptedIff(db: Db, e: Envelope, node: string)
    requires e.kind == Reaction
    ensures Ingest(db, e, node).Ok? <==> Admitted(db, e) && Aims(db, e) && 1 <= |e.body| <= 32
  {
  }

  function ReactorsIn(r: Row, emoji: string): Reactors {
    if emoji in r.reactions then r.reactions[emoji] else Reactors(0, [])
  }

  /** One more reactor under that emoji of the target; nothing else changes. */
  lemma ReactionStored(db: Db, e: Envelope, node: string)
    requires e.kind == Reaction && Ingest(db, e, node).Ok?
    ensures var db', t := Ingest(db, e, node).value, e.replyTo.value;
            && t in db.messages && db'.messages.Keys == db.messages.Keys && db'.channels == db.channels
            && (forall h :: h in db.messages && h != t ==> db'.messages[h] == db.messages[h])
            && db'.messages[t] == db.messages[t].(reactions := db'.messages[t].reactions)
            && (forall emoji :: emoji != e.body ==> ReactorsIn(db'.messages[t], emoji) == ReactorsIn(db.messages[t], emoji))
            && var was, now := ReactorsIn(db.messages[t], e.body), ReactorsIn(db'.messages[t], e.body);
               if e.sender in was.identities then now == was
               else now.count == was.count + 1 &&
                    now.identities == if |was.identities| < 20 then was.identities + [e.sender] else (was.identities + [e.sender])[..20]
  {
  }

  // ---- Messages from peers ----

  /** The row a peer's message becomes. */
  predicate IsRemoteRow(db: Db, ch: string, m: Remote, origin: string, r: Row)
    requires ch in db.channels
  {
    && r.channel == ch && r.sender == m.sender && r.kind == m.kind && r.origin == origin && New(r)
    && r.replyTo.None? && r.threadSeq.None? && r.seqNo == Some(db.channels[ch].latestSeq + 1)
    && RemoteSays(r.body, db.channels[ch].isSealed, m)
  }

  predicate RemoteSays(b: Body, isSealed: bool, m: Remote) {
    if isSealed then b.plain.None? && b.cipher == m.cipher else b.plain == Some(m.body) && b.cipher.None?
  }

  /** A sealed channel takes ciphertext and no plaintext. */
  predicate Sealable(ch: Channel, m: Remote) {
    ch.isSealed ==> m.body == "" && m.cipher.Some? && m.cipher.value != ""
  }

  lemma MirrorAcceptedIff(db: Db, ch: string, m: Remote, peer: string, now: int)
    ensures MirrorIngest(db, ch, m, peer, now).Ok? <==>
            && |m.body| <= 32000 && |m.sender| >= 16 && now - 30 * 86400 <= m.timestamp <= now + 300 && m.verified
            && (m.hash !in db.messages ==> ch in db.channels && Sealable(db.channels[ch], m))
  {
  }

  lemma MirrorStored(db: Db, ch: string, m: Remote, peer: string, now: int)
    requires MirrorIngest(db, ch, m, peer, now).Ok?
    ensures var db' := MirrorIngest(db, ch, m, peer, now).value;
            if m.hash in db.messages then db' == db
            else && m.hash in db'.messages && db'.messages == db.messages[m.hash := db'.messages[m.hash]]
                 && ch in db.channels && IsRemoteRow(db, ch, m, if peer != "" then peer else m.origin, db'.messages[m.hash])
  {
  }

  predicate Welcome(ch: Channel, m: Remote) {
    !m.banned && m.verified && |m.body| <= 32000 && Sealable(ch, m)
  }

  /** Of a pushed message, in its place in the batch: known, turned away, or stored. */
  lemma OneStored(o: PushOutcome, ch: string, m: Remote, peer: string)
    requires PushOne(o, ch, m, peer).Ok?
    ensures var o' := PushOne(o, ch, m, peer).value;
            if m.hash in o.db.messages then o' == o.(received := o.received + [m.seqNo])
            else if ch in o.db.channels && Welcome(o.db.channels[ch], m) then
              && m.hash in o'.db.messages && o'.db.messages == o.db.messages[m.hash := o'.db.messages[m.hash]]
              && IsRemoteRow(o.db, ch, m, peer, o'.db.messages[m.hash])
              && o'.rejected == o.rejected && o'.received == o.received + [o.db.channels[ch].latestSeq + 1]
            else o' == o.(rejected := o.rejected + [m.hash])
  {
  }

  /** Stored under the name of the peer that pushed it, with the body it was pushed with. */
  predicate CameWith(db: Db, ch: string, m: Remote, peer: string, r: Row) {
    && r.channel == ch && r.sender == m.sender && r.kind == m.kind && r.origin == peer
    && ch in db.channels && Welcome(db.channels[ch], m) && RemoteSays(r.body, db.channels[ch].isSealed, m)
  }

  ghost predicate SameSeals(db: Db, db': Db) {
    db'.channels.Keys == db.channels.Keys && forall c :: c in db.channels ==> db'.channels[c].isSealed == db.channels[c].isSealed
  }

  lemma OneFrame(o: PushOutcome, ch: string, m: Remote, peer: string)
    requires PushOne(o, ch, m, peer).Ok?
    ensures var o' := PushOne(o, ch, m, peer).value;
            && SameSeals(o.db, o'.db)
            && (forall h :: h in o.db.messages ==> h in o'.db.messages && o'.db.messages[h] == o.db.messages[h])
            && (forall h :: h in o'.db.messages && h !in o.db.messages ==> h == m.hash && CameWith(o.db, ch, m, peer, o'.db.messages[h]))
  {
    OneStored(o, ch, m, peer);
  }

  /** A batch adds only rows of its own messages, and changes none. */
  lemma {:induction false} BatchStored(o: PushOutcome, ch: string, ms: seq<Remote>, peer: string)
    requires PushMessages(o, ch, ms, peer).Ok?
    ensures var o' := PushMessages(o, ch, ms, peer).value;
            && SameSeals(o.db, o'.db)
            && (forall h :: h in o.db.messages ==> h in o'.db.messages && o'.db.messages[h] == o.db.messages[h])
            && (forall h :: h in o'.db.messages && h !in o.db.messages ==>
                  exists m :: m in ms && m.hash == h && CameWith(o.db, ch, m, peer, o'.db.messages[h]))
    decreases |ms|
  {
    if ms != [] {
      var o1, o' := PushOne(o, ch, ms[0], peer).value, PushMessages(o, ch, ms, peer).value;
      OneFrame(o, ch, ms[0], peer);
      BatchStored(o1, ch, ms[1..], peer);
      forall h | h in o'.db.messages && h !in o.db.messages
        ensures exists m :: m in ms && m.hash == h && CameWith(o.db, ch, m, peer, o'.db.messages[h])
      {
        if h in o1.db.messages {
          assert ms[0] in ms;
        } else {
          var m :| m in ms[1..] && m.hash == h && CameWith(o1.db, ch, m, peer, o'.db.messages[h]);
          assert m in ms;
        }
      }
    }
  }

  /** A push is taken from trusted peers only; the one failure behind that is a missing channel. */
  lemma PushAcceptedIf(db: Db, ch: string, ms: seq<Remote>, peer: string, trusted: bool)
    ensures Push(db, ch, ms, peer, trusted).Ok? ==> trusted
    ensures trusted && ch in db.channels ==> Push(db, ch, ms, peer, trusted).Ok?
  {
    if trusted && ch in db.channels {
      BatchTaken(PushOutcome(db, [], []), ch, ms, peer);
    }
  }

  lemma {:induction false} BatchTaken(o: PushOutcome, ch: string, ms: seq<Remote>, peer: string)
    requires ch in o.db.channels
    ensures PushMessages(o, ch, ms, peer).Ok?
    decreases |ms|
  {
    if ms != [] {
      OneFrame(o, ch, ms[0], peer);
      BatchTaken(PushOne(o, ch, ms[0], peer).value, ch, ms[1..], peer);
    }
  }

  /** Pruning takes exactly the rows named, or fails on the root of a thread. */
  lemma PruneStored(db: Db, hs: set<Hash>)
    ensures Prune(db, hs).Ok? <==> forall h :: h in hs ==> h !in db.threads
    ensures Prune(db, hs).Ok? ==>
              var db' := Prune(db, hs).value;
              && db'.channels == db.channels && db'.threads == db.threads
              && (forall h :: h in db'.messages <==> h in db.messages && h !in hs)
              && (forall h :: h in db'.messages ==> db'.messages[h] == db.messages[h])
  {
    assert hs * db.threads.Keys != {} ==> exists h :: h in hs && h in db.threads by {
      if hs * db.threads.Keys != {} {
        var h :| h in hs * db.threads.Keys;
      }
    }
    assert forall h :: h in hs && h in db.threads ==> h in hs * db.threads.Keys;
  }

  // ---- A row keeps what was written ----

  /** The event may rewrite the message: it is an edit or a delete that names it. */
  predicate Rewrites(e: Event, h: Hash) {
    e.LocalIngest? && (e.e.kind == Edit || e.e.kind == Delete) && e.e.replyTo == Some(h)
  }

  predicate Removes(e: Event, h: Hash) {
    e.PruneRows? && h in e.hs
  }

  predicate SameWords(a: Row, b: Row) {
    && a.channel == b.channel && a.sender == b.sender && a.kind == b.kind && a.replyTo == b.replyTo
    && a.body == b.body && a.origin == b.origin && a.deleted == b.deleted && a.editChain == b.editChain
    && a.seqNo == b.seqNo && a.threadSeq == b.threadSeq
  }

  lemma IngestKeepsWords(db: Db, e: Envelope, node: string, h: Hash)
    requires h in db.messages && !Rewrites(LocalIngest(e), h) && Ingest(db, e, node).Ok?
    ensures h in Ingest(db, e, node).value.messages && SameWords(db.messages[h], Ingest(db, e, node).value.messages[h])
  {
    match e.kind
    case Edit => EditStored(db, e, node);
    case Delete => DeleteStored(db, e, node);
    case Pin => PinStored(db, e, node);
    case Reaction => ReactionStored(db, e, node);
    case _ => PostStored(db, e, node);
  }

  lemma StepKeepsWords(db: Db, e: Event, node: string, h: Hash)
    requires h in db.messages && !Rewrites(e, h) && !Removes(e, h)
    ensures h in Step(db, e, node).messages && SameWords(db.messages[h], Step(db, e, node).messages[h])
  {
    if Apply(db, e, node).Ok? {
      match e
      case LocalIngest(env) => IngestKeepsWords(db, env, node, h);
      case MirrorPull(ch, m, peer, now) => MirrorStored(db, ch, m, peer, now);
      case PeerPush(ch, ms, peer, trusted) => BatchStored(PushOutcome(db, [], []), ch, ms, peer);
      case PruneRows(hs) =>
    }
  }

  predicate Spared(es: seq<Event>, h: Hash) {
    forall k :: 0 <= k < |es| ==> !Rewrites(es[k], h) && !Removes(es[k], h)
  }

  /** Whatever else a node takes in, a row keeps its words until an edit or delete names it or it is pruned. */
  lemma {:induction false} WordsKept(db: Db, es: seq<Event>, node: string, h: Hash)
    requires h in db.messages && Spared(es, h)
    ensures h in RunOf(db, es, node).messages && SameWords(db.messages[h], RunOf(db, es, node).messages[h])
    decreases |es|
  {
    if es != [] {
      StepKeepsWords(db, es[0], node, h);
      WordsKept(Step(db, es[0], node), es[1..], node, h);
    }
  }

  /** So a post says what its author sent, and after an edit what the author sent last. */
  lemma LastWordsStand(db: Db, e: Envelope, es: seq<Event>, node: string, h: Hash)
    requires Ingest(db, e, node).Ok? && e.hash !in db.messages && Spared(es, h)
    requires (IsPost(e.kind) && h == e.hash) || (e.kind == Edit && e.replyTo == Some(h))
    ensures var db' := RunOf(Ingest(db, e, node).value, es, node);
            && h in db'.messages && db'.messages[h].sender == e.sender
            && Says(db'.messages[h].body, db.channels[e.channel], e.body, e.sealing)
  {
    var db1 := Ingest(db, e, node).value;
    if e.kind == Edit {
      EditStored(db, e, node);
      EditAcceptedIff(db, e, node);
    } else {
      PostStored(db, e, node);
    }
    WordsKept(db1, es, node, h);
  }
}
