/**
 * The tables of a node as an object: the writers run their statements one by
 * one, and the transaction around them restores the tables when one raises.
 */
module MessageNode {
  import opened Common
  import opened MessageStore

  /** On success the tables are what the specification says; on an error only the error is. */
  ghost predicate Did(now: Db, r: Result<(), Error>, spec: Result<Db, Error>) {
    match spec
    case Ok(db) => r.Ok? && now == db
    case Err(x) => r == Err(x)
  }

  class Node {
    const node: string
    var channels: map<string, Channel>
    var messages: map<Hash, Row>
    var threads: map<Hash, Thread>

    ghost function View(): Db
      reads this
    {
      Db(channels, messages, threads)
    }

    constructor (node: string, channels: map<string, Channel>)
      ensures this.node == node && View() == Db(channels, map[], map[])
    {
      this.node, this.channels, messages, threads := node, channels, map[], map[];
    }

    method IncrementSeq(ch: string) returns (r: Result<nat, Error>)
      modifies this`channels
      ensures match NextSeq(old(View()), ch)
              case Ok((db, n)) => View() == db && r == Ok(n)
              case Err(x) => View() == old(View()) && r == Err(x)
    {
      if ch !in channels {
        return Err(NoChannel);
      }
      var n := channels[ch].latestSeq + 1;
      channels := channels[ch := channels[ch].(latestSeq := n)];
      r := Ok(n);
    }

    method IncrementThreadSeq(root: Hash) returns (r: Result<nat, Error>)
      modifies this`threads
      ensures match NextThreadSeq(old(View()), root)
              case Ok((db, n)) => View() == db && r == Ok(n)
              case Err(x) => View() == old(View()) && r == Err(x)
    {
      if root in threads {
        var t := threads[root].(latestThreadSeq := threads[root].latestThreadSeq + 1);
        threads := threads[root := t];
        r := Ok(t.latestThreadSeq);
      } else if root !in messages {
        r := Err(KeyClash);
      } else {
        threads := threads[root := Thread(0, 1, [])];
        r := Ok(1);
      }
    }

    method UpdateThreadMetadata(root: Hash, sender: string)
      modifies this`threads
      ensures View() == UpdateThread(old(View()), root, sender)
    {
      if root in threads {
        threads := threads[root := threads[root].(replyCount := threads[root].replyCount + 1)];
        if sender !in threads[root].participants {
          threads := threads[root := threads[root].(participants := threads[root].participants + [sender])];
        }
      } else {
        threads := threads[root := Thread(1, 0, [] + [sender])];
      }
    }

    method InsertRow(h: Hash, row: Row) returns (r: Result<(), Error>)
      modifies this`messages
      ensures Did(View(), r, Insert(old(View()), h, row))
      ensures r.Err? ==> View() == old(View())
    {
      if h in messages {
        return Err(KeyClash);
      }
      messages := messages[h := row];
      r := Ok(());
    }

    method EditMessage(e: Envelope) returns (r: Result<(), Error>)
      modifies this`messages
      ensures Did(View(), r, ProcessEdit(old(View()), e, node))
    {
      var found := Target(Db(channels, messages, threads), e);
      if found.Err? {
        return Err(found.error);
      }
      var original := found.value;
      if original.sender != e.sender {
        return Err(NotAuthor);
      }
      if e.channel !in channels {
        return Err(NoChannel);
      }
      var body := SealForOrigin(channels[e.channel], e.body, e.sealing);
      if body.Err? {
        return Err(body.error);
      }
      r := InsertRow(e.hash, FreshRow(e.channel, e.sender, Edit, body.value, node).(replyTo := e.replyTo));
      if r.Err? {
        return;
      }
      if |original.editChain| >= MAX_EDIT_CHAIN_LENGTH {
        return Err(ChainFull);
      }
      messages := messages[e.replyTo.value := original.(editChain := original.editChain + [e.hash], body := body.value)];
    }

    method DeleteMessage(e: Envelope) returns (r: Result<(), Error>)
      modifies this`messages
      ensures Did(View(), r, ProcessDelete(old(View()), e))
      ensures r.Err? ==> View() == old(View())
    {
      var found := Target(Db(channels, messages, threads), e);
      if found.Err? {
        return Err(found.error);
      }
      var t := found.value;
      messages := messages[e.replyTo.value := t.(deleted := true, body := t.body.(plain := None))];
      r := Ok(());
    }

    method PinMessage(e: Envelope) returns (r: Result<(), Error>)
      modifies this`messages, this`channels
      ensures Did(View(), r, ProcessPin(old(View()), e, node))
    {
      var found := Target(Db(channels, messages, threads), e);
      if found.Err? {
        return Err(found.error);
      }
      var t := found.value;
      messages := messages[e.replyTo.value := t.(pinned := !t.pinned)];
      var n := IncrementSeq(e.channel);
      if n.Err? {
        return Err(n.error);
      }
      var body := SealForOrigin(channels[e.channel], if t.pinned then "unpinned" else "pinned", e.sealing);
      if body.Err? {
        return Err(body.error);
      }
      r := InsertRow(e.hash, FreshRow(e.channel, e.sender, System, body.value, node).(seqNo := Some(n.value)));
    }

    method AddReaction(e: Envelope) returns (r: Result<(), Error>)
      modifies this`messages
      ensures Did(View(), r, ProcessReaction(old(View()), e))
      ensures r.Err? ==> View() == old(View())
    {
      var found := Target(Db(channels, messages, threads), e);
      if found.Err? {
        return Err(found.error);
      }
      var t := found.value;
      if e.body == "" || |e.body| > MAX_EMOJI_LENGTH {
        return Err(BadEmoji);
      }
      var entry := if e.body in t.reactions then t.reactions[e.body] else Reactors(0, []);
      if e.sender !in entry.identities {
        var ids := entry.identities + [e.sender];
        if |ids| > MAX_STORED_REACTORS {
          ids := ids[..MAX_STORED_REACTORS];
        }
        entry := Reactors(entry.count + 1, ids);
      }
      messages := messages[e.replyTo.value := t.(reactions := t.reactions[e.body := entry])];
      r := Ok(());
    }

    method StoreMessage(e: Envelope) returns (r: Result<(), Error>)
      modifies this
      ensures Did(View(), r, StoreNew(old(View()), e, node))
    {
      if e.hash in messages {
        return Ok(());
      }
      if e.channel !in channels {
        return Err(NoChannel);
      }
      var row := FreshRow(e.channel, e.sender, e.kind, Body(None, None), node).(replyTo := e.replyTo);
      if e.kind == ThreadReply && e.replyTo.Some? {
        var n := IncrementThreadSeq(e.replyTo.value);
        if n.Err? {
          return Err(n.error);
        }
        UpdateThreadMetadata(e.replyTo.value, e.sender);
        row := row.(threadSeq := Some(n.value));
      } else {
        var n := IncrementSeq(e.channel);
        row := row.(seqNo := Some(n.value));
      }
      var body := SealForOrigin(channels[e.channel], e.body, e.sealing);
      if body.Err? {
        return Err(body.error);
      }
      r := InsertRow(e.hash, row.(body := body.value));
    }

    method IngestInTransaction(e: Envelope) returns (r: Result<(), Error>)
      modifies this
      ensures Did(View(), r, Ingest(old(View()), e, node))
    {
      if e.channel !in channels {
        return Err(NoChannel);
      }
      if |e.body| > MAX_MESSAGE_BODY_SIZE {
        return Err(BodyTooLarge);
      }
      if !e.permitted {
        return Err(Refused);
      }
      match e.kind
      case Edit => r := EditMessage(e);
      case Delete => r := DeleteMessage(e);
      case Pin => r := PinMessage(e);
      case Reaction => r := AddReaction(e);
      case _ => r := StoreMessage(e);
    }

    /** An error anywhere inside leaves the tables exactly as they were. */
    method IngestLocal(e: Envelope) returns (r: Result<(), Error>)
      modifies this
      ensures Did(View(), r, Ingest(old(View()), e, node))
      ensures View() == Step(old(View()), LocalIngest(e), node)
    {
      var c, m, t := channels, messages, threads;
      r := IngestInTransaction(e);
      if r.Err? {
        channels, messages, threads := c, m, t;
      }
    }

    /** Shared tail of mirror ingest and push: seal check before a number is taken, then the insert. */
    method InsertRemote(ch: string, m: Remote, origin: string) returns (r: Result<nat, Error>)
      modifies this
      ensures match StoreRemote(old(View()), ch, m, origin)
              case Ok(db) => View() == db && r == Ok(db.channels[ch].latestSeq)
              case Err(x) => r == Err(x) && View() == if x == KeyClash then NextSeq(old(View()), ch).value.0 else old(View())
    {
      if ch !in channels {
        return Err(NoChannel);
      }
      var body := ValidateMirrorPayload(channels[ch], m.body, m.cipher);
      if body.Err? {
        return Err(body.error);
      }
      r := IncrementSeq(ch);
      var done := InsertRow(m.hash, FreshRow(ch, m.sender, m.kind, body.value, origin).(seqNo := Some(r.value)));
      if done.Err? {
        return Err(done.error);
      }
    }

    method IngestMirrored(ch: string, m: Remote, peer: string, now: int) returns (r: Result<(), Error>)
      modifies this
      ensures Did(View(), r, MirrorIngest(old(View()), ch, m, peer, now))
      ensures View() == Step(old(View()), MirrorPull(ch, m, peer, now), node)
    {
      if |m.body| > MAX_MESSAGE_BODY_SIZE {
        return Err(BodyTooLarge);
      }
      if |m.sender| < MIN_SENDER_HASH {
        return Err(BadSender);
      }
      if m.timestamp > now + CLOCK_DRIFT || m.timestamp < now - MAX_MIRROR_AGE {
        return Err(BadTimestamp);
      }
      if !m.verified {
        return Err(Refused);
      }
      if m.hash in messages {
        return Ok(());
      }
      var n := InsertRemote(ch, m, if peer != "" then peer else m.origin);
      r := if n.Ok? then Ok(()) else Err(n.error);
    }

    /** The loop over a pushed batch; an error ends the transaction and undoes all of it. */
    method ReceivePush(ch: string, ms: seq<Remote>, peer: string, trusted: bool) returns (r: Result<(seq<nat>, seq<Hash>), Error>)
      modifies this
      ensures match Push(old(View()), ch, ms, peer, trusted)
              case Ok(o) => View() == o.db && r == Ok((o.received, o.rejected))
              case Err(x) => View() == old(View()) && r == Err(x)
    {
      if !trusted {
        return Err(Refused);
      }
      var received: seq<nat>, rejected: seq<Hash> := [], [];
      var c, t, saved := channels, threads, messages;
      ghost var start := PushOutcome(View(), [], []);
      for k := 0 to |ms|
        invariant PushMessages(start, ch, ms, peer) == PushMessages(PushOutcome(View(), received, rejected), ch, ms[k..], peer)
      {
        var m := ms[k];
        assert ms[k..][1..] == ms[k + 1..];
        if m.hash in messages {
          received := received + [m.seqNo];
          continue;
        }
        if m.banned || !m.verified || |m.body| > MAX_MESSAGE_BODY_SIZE {
          rejected := rejected + [m.hash];
          continue;
        }
        var n := InsertRemote(ch, m, peer);
        if n.Ok? {
          received := received + [n.value];
        } else if n.error == Unsealed {
          rejected := rejected + [m.hash];
        } else {
          channels, threads, messages := c, t, saved;
          return Err(n.error);
        }
      }
      r := Ok((received, rejected));
    }
  }
}
