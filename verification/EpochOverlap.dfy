/**
 * How long one manager can read what was encrypted before. Generations of keys
 * are listed as they are installed, whatever frames arrive, valid or not, in
 * either role and with loads and teardowns in between.
 */
module EpochOverlap {
  import opened Common
  import opened EpochCrypto
  import opened EpochManager
  import EpochWire

  datatype Event =
    | MakeRotate(sk: PrivateKey)
    | TakeRotate(rotate: RotateFrame, sk: PrivateKey, prefix: seq<Byte>)
    | TakeAck(ack: AckFrame, prefix: seq<Byte>)
    | Seal(p: Plaintext)
    | Unseal(data: DataFrame)
    | Reload(row: Snapshot, u: Unwrapped)
    | TearDown

  datatype Keys = Keys(epoch: nat, send: Option<Key>, recv: Option<Key>)

  /**
   * `gens` are the generations installed so far, and `closed` says that the one
   * before the current can no longer be read: a frame of the current epoch has
   * been decrypted since it was installed, or everything was torn down.
   * `count` is how many frames were encrypted since the current generation was
   * installed, or what a load made it.
   */
  datatype Run = Run(m: Manager, gens: seq<Keys>, closed: bool, count: nat)

  function KeysOf(m: Manager): Keys {
    Keys(m.epoch, m.send, m.recv)
  }

  function Begin(me: Identity, peer: Option<Identity>, duration: nat): Run {
    Run(Init(me, peer, duration), [Keys(0, None, None), Keys(0, None, None)], false, 0)
  }

  /** The manager's own step; a refused frame changes nothing. */
  function Next(m: Manager, e: Event): Manager {
    match e
    case MakeRotate(sk) => CreateRotate(m, sk).0
    case TakeRotate(f, sk, prefix) =>
      (match HandleRotate(m, f, sk, prefix)
       case Ok((m', _)) => m'
       case Err(_) => m)
    case TakeAck(f, prefix) =>
      (match HandleAck(m, f, prefix)
       case Ok(m') => m'
       case Err(_) => m)
    case Seal(p) =>
      (match Encrypt(m, p)
       case Ok((m', _)) => m'
       case Err(_) => m)
    case Unseal(d) =>
      (match Decrypt(m, d)
       case Ok((m', _)) => m'
       case Err(_) => m)
    case Reload(row, u) => Load(m, row, u)
    case TearDown => Teardown(m)
  }

  predicate Installs(m: Manager, e: Event) {
    match e
    case TakeRotate(f, sk, prefix) => HandleRotate(m, f, sk, prefix).Ok?
    case TakeAck(f, prefix) => HandleAck(m, f, prefix).Ok?
    case _ => false
  }

  /** A frame of the current epoch, opened under the current key. */
  predicate Reads(m: Manager, e: Event) {
    e.Unseal? && e.data.epochId == m.epoch && m.recv.Some? && Opens(e.data, m.recv.value)
  }

  predicate Opens(d: DataFrame, k: Key) {
    d.ciphertext.key == k && d.ciphertext.nonce == d.nonce && d.ciphertext.aad == d.epochId
  }

  predicate Seals(m: Manager, e: Event) {
    e.Seal? && Encrypt(m, e.p).Ok?
  }

  function Step(s: Run, e: Event): Run
    requires |s.gens| >= 2
  {
    var m, n := Next(s.m, e), |s.gens|;
    if Installs(s.m, e) then Run(m, s.gens + [KeysOf(m)], false, 0)
    else if e.Reload? then Run(m, s.gens[..n - 1] + [KeysOf(m)], s.closed, e.row.counter)
    else if e.TearDown? then Run(m, s.gens[..n - 1] + [KeysOf(m)], true, s.count)
    else s.(m := m, closed := s.closed || Reads(s.m, e), count := if Seals(s.m, e) then s.count + 1 else s.count)
  }

  function RunOf(s: Run, es: seq<Event>): (t: Run)
    requires |s.gens| >= 2
    ensures |t.gens| >= 2
    decreases |es|
  {
    if es == [] then s else RunOf(Step(s, es[0]), es[1..])
  }

  function Current(s: Run): Keys
    requires |s.gens| >= 2
  {
    s.gens[|s.gens| - 1]
  }

  function Before(s: Run): Keys
    requires |s.gens| >= 2
  {
    s.gens[|s.gens| - 2]
  }

  // ---- Two generations at most ----

  /** What a manager holds: the current generation and, until it is closed, the receive key of the one before. */
  predicate HoldsTwo(s: Run) {
    && |s.gens| >= 2
    && KeysOf(s.m) == Current(s)
    && s.m.prevRecv == (if s.closed then None else Before(s).recv)
    && s.m.counter == s.count
  }

  lemma StepHoldsTwo(s: Run, e: Event)
    requires HoldsTwo(s)
    ensures HoldsTwo(Step(s, e))
  {
    var s', n := Step(s, e), |s.gens|;
    if Installs(s.m, e) {
      assert s'.gens[n - 1] == s.gens[n - 1];
    } else if e.Reload? || e.TearDown? {
      assert s'.gens[n - 2] == s.gens[n - 2];
    }
  }

  lemma {:induction false} RunHoldsTwo(s: Run, es: seq<Event>)
    requires HoldsTwo(s)
    ensures HoldsTwo(RunOf(s, es))
    decreases |es|
  {
    if es != [] {
      StepHoldsTwo(s, es[0]);
      RunHoldsTwo(Step(s, es[0]), es[1..]);
    }
  }

  /**
   * After any events a manager holds the keys installed last and no others,
   * except the receive key installed before those until a frame of the current
   * epoch has been read.
   */
  lemma TwoGenerations(me: Identity, peer: Option<Identity>, duration: nat, es: seq<Event>)
    ensures HoldsTwo(RunOf(Begin(me, peer, duration), es))
  {
    RunHoldsTwo(Begin(me, peer, duration), es);
  }

  /** Exactly which data frames can be read. */
  lemma ReadableIff(s: Run, d: DataFrame)
    requires HoldsTwo(s)
    ensures Decrypt(s.m, d).Ok? <==>
            if d.epochId == Current(s).epoch && Current(s).recv.Some? then Opens(d, Current(s).recv.value)
            else !s.closed && d.epochId == s.m.prevEpoch && Before(s).recv.Some? && Opens(d, Before(s).recv.value)
    ensures Decrypt(s.m, d).Ok? ==> Decrypt(s.m, d).value.1 == d.ciphertext.plaintext
  {
  }

  /** Exactly when a manager encrypts, and with which nonce: the frames of a generation are numbered from zero. */
  lemma SealableIff(s: Run, p: Plaintext)
    requires HoldsTwo(s)
    ensures Encrypt(s.m, p).Ok? <==>
            Current(s).send.Some? && Current(s).recv.Some? && s.count < 0x8000_0000_0000_0000
    ensures Encrypt(s.m, p).Ok? ==>
              var d := Encrypt(s.m, p).value.1;
              && d.epochId == Current(s).epoch && d.nonce == s.m.prefix + EpochWire.Pack(s.count, 8)
              && d.ciphertext == Sealed(Current(s).send.value, d.nonce, p, Current(s).epoch)
  {
  }

  /** New keys come with the nonce prefix drawn for them. */
  lemma InstallsPrefix(m: Manager, e: Event)
    requires Installs(m, e)
    ensures Next(m, e).prefix == e.prefix && Next(m, e).counter == 0 && Active(Next(m, e))
  {
  }

  /** After a teardown nothing is encrypted, read or completed. */
  lemma TornDown(m: Manager, p: Plaintext, d: DataFrame, f: AckFrame, prefix: seq<Byte>)
    ensures var t := Teardown(m);
            && Encrypt(t, p) == Err(NoActiveEpoch) && Decrypt(t, d) == Err(NoKeyForEpoch)
            && HandleAck(t, f, prefix).Err?
            && t.epoch == m.epoch && t.chain == m.chain && t.peer == m.peer
  {
  }

  /** A load takes every column of the row; keys that were not saved stay, keys that do not unwrap go. */
  lemma LoadTakes(m: Manager, row: Snapshot, u: Unwrapped)
    ensures var t := Load(m, row, u);
            && t.epoch == row.epoch && t.duration == row.duration && t.chain == row.chain
            && t.prefix == row.prefix && t.counter == row.counter
            && (row.send.None? ==> t.send == m.send) && (row.recv.None? ==> t.recv == m.recv)
            && (row.send.Some? ==> t.send == if u.send then row.send else None)
            && (row.recv.Some? ==> t.recv == if u.recv then row.recv else None)
            && t.prevRecv == m.prevRecv && t.prevEpoch == m.prevEpoch && t.pending == m.pending
            && t.me == m.me && t.peer == m.peer
  {
  }

  predicate NoInstall(s: Run, es: seq<Event>)
    requires |s.gens| >= 2
    decreases |es|
  {
    es == [] || (!Installs(s.m, es[0]) && NoInstall(Step(s, es[0]), es[1..]))
  }

  lemma {:induction false} StaysClosed(s: Run, es: seq<Event>)
    requires HoldsTwo(s) && s.closed && NoInstall(s, es)
    ensures RunOf(s, es).closed && |RunOf(s, es).gens| == |s.gens|
    decreases |es|
  {
    if es != [] {
      StepHoldsTwo(s, es[0]);
      StaysClosed(Step(s, es[0]), es[1..]);
    }
  }

  /**
   * Once a frame of the current epoch has been read, the previous key is gone,
   * and until new keys are installed nothing opens that is not of the current
   * epoch and under the current key.
   */
  lemma ReadingCloses(s: Run, d: DataFrame, es: seq<Event>, late: DataFrame)
    requires HoldsTwo(s) && d.epochId == s.m.epoch && s.m.recv.Some? && Decrypt(s.m, d).Ok?
    requires NoInstall(Step(s, Unseal(d)), es)
    ensures var t := RunOf(Step(s, Unseal(d)), es);
            && t.m.prevRecv.None?
            && (Decrypt(t.m, late).Ok? ==> t.m.recv.Some? && late.epochId == t.m.epoch && Opens(late, t.m.recv.value))
  {
    var s1 := Step(s, Unseal(d));
    StepHoldsTwo(s, Unseal(d));
    StaysClosed(s1, es);
    RunHoldsTwo(s1, es);
    ReadableIff(RunOf(s1, es), late);
  }
}
