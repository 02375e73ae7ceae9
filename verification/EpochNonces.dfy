/**
 * Nonce discipline of one manager over whole runs of rotations in either role,
 * encrypts, decrypts, persists and reloads. The nonce prefix is arbitrary:
 * uniqueness of (send key, nonce) rests on fresh X25519 keys and the counter.
 */
module EpochNonces {
  import opened Common
  import opened EpochCrypto
  import opened EpochManager
  import EpochWire

  datatype Event =
    | MakeRotate(sk: PrivateKey)
    | TakeRotate(rotate: RotateFrame, sk: PrivateKey, prefix: seq<Byte>)
    | TakeAck(ack: AckFrame, prefix: seq<Byte>)
    | Seal(p: Plaintext)
    | Unseal(data: DataFrame)
    | Save
    | Reload(u: Unwrapped)
    | Restart(u: Unwrapped)

  datatype Use = Use(key: Key, nonce: Nonce)

  /**
   * `log` lists every (key, nonce) handed to the cipher; `row` is the persisted
   * snapshot and `saved` the length of the log when it was taken.
   */
  datatype Run = Run(m: Manager, log: seq<Use>, row: Option<Snapshot>, saved: nat, seen: set<PrivateKey>)

  /** No encrypt under the snapshot's send key since the snapshot was taken. */
  ghost predicate SnapshotCurrent(s: Run) {
    s.row.Some? && forall n :: s.saved <= n < |s.log| ==> Some(s.log[n].key) != s.row.value.send
  }

  /** Generated keys are new to this manager, only active managers are saved, and reloads are of current snapshots. */
  ghost predicate Enabled(s: Run, e: Event) {
    match e
    case MakeRotate(sk) => sk !in s.seen
    case TakeRotate(f, sk, prefix) => sk !in s.seen && sk != f.pub.owner && |prefix| == 16
    case TakeAck(_, prefix) => |prefix| == 16
    case Save => Active(s.m)
    case Reload(_) => SnapshotCurrent(s)
    case Restart(_) => SnapshotCurrent(s)
    case _ => true
  }

  ghost function Step(s: Run, e: Event): Run {
    match e
    case MakeRotate(sk) => s.(m := CreateRotate(s.m, sk).0, seen := s.seen + {sk})
    case TakeRotate(f, sk, prefix) =>
      (match HandleRotate(s.m, f, sk, prefix)
       case Ok((m, _)) => s.(m := m, seen := s.seen + {sk, f.pub.owner})
       case Err(_) => s)
    case TakeAck(f, prefix) =>
      (match HandleAck(s.m, f, prefix)
       case Ok(m) => s.(m := m, seen := s.seen + {f.pub.owner})
       case Err(_) => s)
    case Seal(p) =>
      (match Encrypt(s.m, p)
       case Ok((m, f)) => s.(m := m, log := s.log + [Use(s.m.send.value, f.nonce)])
       case Err(_) => s)
    case Unseal(d) =>
      (match Decrypt(s.m, d)
       case Ok((m, _)) => s.(m := m)
       case Err(_) => s)
    case Save => s.(row := Some(Persist(s.m)), saved := |s.log|)
    case Reload(u) => if s.row.Some? then s.(m := Load(s.m, s.row.value, u)) else s
    case Restart(u) => if s.row.Some? then s.(m := Load(Init(s.m.me, s.m.peer, s.m.duration), s.row.value, u)) else s
  }

  ghost predicate IsRun(s: Run, es: seq<Event>)
    decreases |es|
  {
    es == [] || (Enabled(s, es[0]) && IsRun(Step(s, es[0]), es[1..]))
  }

  ghost function RunOf(s: Run, es: seq<Event>): Run
    decreases |es|
  {
    if es == [] then s else RunOf(Step(s, es[0]), es[1..])
  }

  function Begin(me: Identity, peer: Option<Identity>, duration: nat): Run {
    Run(Init(me, peer, duration), [], None, 0, {})
  }

  ghost predicate NoReuse(log: seq<Use>) {
    forall a, b :: 0 <= a < b < |log| ==> log[a] != log[b]
  }

  // ---- Invariant ----

  /** A key made of X25519 keys this manager has seen. */
  predicate Traceable(k: Key, seen: set<PrivateKey>) {
    && |k| == KEY_LEN && k[0].KeyOctet?
    && k == KeyMaterial(k[0].key)
    && k[0].key.secret.low in seen && k[0].key.secret.high in seen
  }

  /** An initiator-side send key whose secret involves `sk`. */
  predicate MadeWith(k: Key, sk: PrivateKey) {
    |k| > 0 && k[0].KeyOctet? && k[0].key.dir == I2R && (k[0].key.secret.low == sk || k[0].key.secret.high == sk)
  }

  /** Everything logged so far under `key` and `prefix` used a counter below `counter`. */
  ghost predicate Spent(log: seq<Use>, key: Key, prefix: seq<Byte>, counter: nat) {
    forall n :: 0 <= n < |log| && log[n].key == key ==>
      exists c: nat :: c < counter && log[n].nonce == BuildNonce(prefix, c)
  }

  /** The key may sit in a send slot: 16-byte prefix, known ingredients, not made with the pending key. */
  ghost predicate SlotOk(s: Run, send: Option<Key>, prefix: seq<Byte>, counter: nat) {
    counter <= NONCE_OVERFLOW && (send.Some? ==> |prefix| == 16 && Settled(s, send.value))
  }

  ghost predicate Settled(s: Run, k: Key) {
    Traceable(k, s.seen) && (s.m.pending.Some? ==> !MadeWith(k, s.m.pending.value))
  }

  function FirstAfter(row: Snapshot): Use
    requires row.send.Some?
  {
    Use(row.send.value, BuildNonce(row.prefix, row.counter))
  }

  /** An encrypt under the saved key since the save used, first of all, the nonce the snapshot would hand out next. */
  ghost predicate RowOk(s: Run, row: Snapshot) {
    && s.saved <= |s.log|
    && row.send.Some? && row.recv.Some? && SlotOk(s, row.send, row.prefix, row.counter)
    && Spent(s.log[..s.saved], row.send.value, row.prefix, row.counter)
    && ((exists n :: s.saved <= n < |s.log| && s.log[n].key == row.send.value) ==> FirstAfter(row) in s.log)
    && (s.m.send == row.send ==>
          s.m.prefix == row.prefix && (s.m.counter == row.counter || FirstAfter(row) in s.log))
  }

  predicate WellFormed(u: Use) {
    |u.nonce| == 24 && EpochWire.Unpack(u.nonce[16..]) < NONCE_OVERFLOW
  }

  ghost predicate Inv(s: Run) {
    && NoReuse(s.log)
    && (s.m.pending.Some? ==> s.m.pending.value in s.seen)
    && (forall n :: 0 <= n < |s.log| ==> Settled(s, s.log[n].key) && WellFormed(s.log[n]))
    && SlotOk(s, s.m.send, s.m.prefix, s.m.counter)
    && (s.m.send.Some? ==> Spent(s.log, s.m.send.value, s.m.prefix, s.m.counter))
    && (s.row.Some? ==> RowOk(s, s.row.value))
  }

  lemma NoncesDistinct(prefix: seq<Byte>, c: nat, d: nat)
    requires |prefix| == 16 && c < NONCE_OVERFLOW && d < NONCE_OVERFLOW && c != d
    ensures BuildNonce(prefix, c) != BuildNonce(prefix, d)
  {
    Fits(c);
    Fits(d);
    assert BuildNonce(prefix, c)[16..] == EpochWire.Pack(c, 8);
    assert BuildNonce(prefix, d)[16..] == EpochWire.Pack(d, 8);
    EpochWire.UnpackPack(c, 8);
    EpochWire.UnpackPack(d, 8);
  }

  /** Counters below the overflow mark fit the 8-byte field. */
  lemma Fits(c: nat)
    requires c < NONCE_OVERFLOW
    ensures c < EpochWire.Pow256(8)
  {
    assert EpochWire.Pow256(4) == 0x1_0000_0000;
    assert EpochWire.Pow256(8) == 256 * (256 * (256 * (256 * EpochWire.Pow256(4))));
  }

  lemma RotateKeepsInv(s: Run, e: Event)
    requires Inv(s) && Enabled(s, e) && (e.MakeRotate? || e.Unseal?)
    ensures Inv(Step(s, e))
  {
  }

  /** A key derived with a fresh private key matches nothing logged or saved. */
  lemma TakeRotateKeepsInv(s: Run, f: RotateFrame, sk: PrivateKey, prefix: seq<Byte>)
    requires Inv(s) && Enabled(s, TakeRotate(f, sk, prefix))
    ensures Inv(Step(s, TakeRotate(f, sk, prefix)))
  {
    var s' := Step(s, TakeRotate(f, sk, prefix));
    if HandleRotate(s.m, f, sk, prefix).Ok? {
      var d := Derived(Exchange(sk, f.pub), f.epochId, R2I);
      assert KeyMaterial(d)[0] == KeyOctet(d, 0);
      assert forall k :: Traceable(k, s.seen) ==> Traceable(k, s'.seen) && k != KeyMaterial(d);
    }
  }

  lemma TakeAckKeepsInv(s: Run, f: AckFrame, prefix: seq<Byte>)
    requires Inv(s) && Enabled(s, TakeAck(f, prefix))
    ensures Inv(Step(s, TakeAck(f, prefix)))
  {
    var s' := Step(s, TakeAck(f, prefix));
    if HandleAck(s.m, f, prefix).Ok? {
      var p := s.m.pending.value;
      var d := Derived(Exchange(p, f.pub), f.epochId, I2R);
      assert KeyMaterial(d)[0] == KeyOctet(d, 0) && MadeWith(KeyMaterial(d), p);
      assert forall k :: Traceable(k, s.seen) ==> Traceable(k, s'.seen);
    }
  }

  lemma SealIsNew(s: Run, p: Plaintext)
    requires Inv(s) && Encrypt(s.m, p).Ok?
    ensures var u := Use(s.m.send.value, BuildNonce(s.m.prefix, s.m.counter));
            WellFormed(u) && u !in s.log
  {
    var u := Use(s.m.send.value, BuildNonce(s.m.prefix, s.m.counter));
    Fits(s.m.counter);
    assert u.nonce[16..] == EpochWire.Pack(s.m.counter, 8);
    EpochWire.UnpackPack(s.m.counter, 8);
    forall n | 0 <= n < |s.log|
      ensures s.log[n] != u
    {
      if s.log[n].key == u.key {
        var c: nat :| c < s.m.counter && s.log[n].nonce == BuildNonce(s.m.prefix, c);
        NoncesDistinct(s.m.prefix, c, s.m.counter);
      }
    }
  }

  lemma SealKeepsInv(s: Run, p: Plaintext)
    requires Inv(s)
    ensures Inv(Step(s, Seal(p)))
  {
    if Encrypt(s.m, p).Ok? {
      SealIsNew(s, p);
      var s' := Step(s, Seal(p));
      var u := s'.log[|s.log|];
      assert s'.log == s.log + [u];
      forall n | 0 <= n < |s'.log| && s'.log[n].key == s.m.send.value
        ensures exists c: nat :: c < s'.m.counter && s'.log[n].nonce == BuildNonce(s.m.prefix, c)
      {
        if n < |s.log| {
          var c: nat :| c < s.m.counter && s.log[n].nonce == BuildNonce(s.m.prefix, c);
        }
      }
      if s.row.Some? {
        assert s'.log[..s.saved] == s.log[..s.saved];
        SealKeepsRow(s, p, u);
      }
    }
  }

  lemma SealKeepsRow(s: Run, p: Plaintext, u: Use)
    requires Inv(s) && s.row.Some? && Encrypt(s.m, p).Ok?
    requires u == Use(s.m.send.value, BuildNonce(s.m.prefix, s.m.counter))
    ensures RowOk(Step(s, Seal(p)), s.row.value)
  {
    var s', row := Step(s, Seal(p)), s.row.value;
    assert s'.log == s.log + [u] && s'.log[..s.saved] == s.log[..s.saved];
    assert FirstAfter(row) in s.log ==> FirstAfter(row) in s'.log;
    if s.m.send == row.send && s.m.counter == row.counter {
      assert s'.log[|s.log|] == FirstAfter(row);
    }
  }

  lemma ReloadKeepsInv(s: Run, e: Event)
    requires Inv(s) && Enabled(s, e) && (e.Reload? || e.Restart?)
    ensures Inv(Step(s, e))
  {
    var row := s.row.value;
    forall n | 0 <= n < |s.log| && s.log[n].key == row.send.value
      ensures exists c: nat :: c < row.counter && s.log[n].nonce == BuildNonce(row.prefix, c)
    {
      assert n < s.saved && s.log[..s.saved][n] == s.log[n];
    }
  }

  lemma SaveKeepsInv(s: Run)
    requires Inv(s) && Active(s.m)
    ensures Inv(Step(s, Save))
  {
    assert s.log[..|s.log|] == s.log;
  }

  lemma StepKeepsInv(s: Run, e: Event)
    requires Inv(s) && Enabled(s, e)
    ensures Inv(Step(s, e))
  {
    match e
    case TakeRotate(f, sk, prefix) => TakeRotateKeepsInv(s, f, sk, prefix);
    case TakeAck(f, prefix) => TakeAckKeepsInv(s, f, prefix);
    case Seal(p) => SealKeepsInv(s, p);
    case Save => SaveKeepsInv(s);
    case Reload(_) => ReloadKeepsInv(s, e);
    case Restart(_) => ReloadKeepsInv(s, e);
    case _ => RotateKeepsInv(s, e);
  }

  lemma {:induction false} RunKeepsInv(s: Run, es: seq<Event>)
    requires Inv(s) && IsRun(s, es)
    ensures Inv(RunOf(s, es))
    decreases |es|
  {
    if es != [] {
      StepKeepsInv(s, es[0]);
      RunKeepsInv(Step(s, es[0]), es[1..]);
    }
  }

  /**
   * In every run no (send key, nonce) pair is handed to the cipher twice, and
   * every nonce is 24 bytes with a counter below 2^63, so the 8-byte pack is defined.
   */
  lemma NoncesNeverReused(me: Identity, peer: Option<Identity>, duration: nat, es: seq<Event>)
    requires IsRun(Begin(me, peer, duration), es)
    ensures var log := RunOf(Begin(me, peer, duration), es).log;
            NoReuse(log) && forall n :: 0 <= n < |log| ==> WellFormed(log[n])
  {
    RunKeepsInv(Begin(me, peer, duration), es);
  }

  /**
   * The condition on reloads is exact: reloading a snapshot and encrypting
   * repeats an earlier pair if and only if something was encrypted under the
   * snapshot's send key after the snapshot was taken.
   */
  lemma ReloadReusesIffStale(s: Run, u: Unwrapped, p: Plaintext)
    requires Inv(s) && s.row.Some?
    requires Encrypt(Load(s.m, s.row.value, u), p).Ok?
    ensures FirstAfter(s.row.value).nonce == Encrypt(Load(s.m, s.row.value, u), p).value.1.nonce
    ensures FirstAfter(s.row.value) in s.log <==> !SnapshotCurrent(s)
  {
    if SnapshotCurrent(s) {
      ReloadKeepsInv(s, Reload(u));
      SealIsNew(Step(s, Reload(u)), p);
    }
  }

  // ---- A run from the start that repeats a nonce ----

  const PREFIX: seq<Byte> := seq(16, i => 0)

  const ROTATE := RotateOf(Init("b", Some("a"), 0), 0)

  /** A rotate of the peer is accepted, the state is saved, and something is encrypted. */
  const STALING := [TakeRotate(ROTATE, 1, PREFIX), Save, Seal([])]

  lemma StaleReached() returns (s: Run)
    ensures IsRun(Begin("a", Some("b"), 0), STALING) && s == RunOf(Begin("a", Some("b"), 0), STALING)
    ensures Inv(s) && s.row.Some? && !SnapshotCurrent(s) && Encrypt(Load(s.m, s.row.value, Unwrapped(true, true)), []).Ok?
  {
    var s0 := Begin("a", Some("b"), 0);
    var s1 := Step(s0, STALING[0]);
    assert HandleRotate(s0.m, ROTATE, 1, PREFIX).Ok?;
    assert Active(s1.m) && s1.m.counter == 0;
    var s2 := Step(s1, STALING[1]);
    assert s2.row == Some(Persist(s1.m)) && Encrypt(s2.m, []).Ok?;
    s := Step(s2, STALING[2]);
    assert s.log == [Use(s1.m.send.value, BuildNonce(s1.m.prefix, 0))] && s.saved == 0;
    assert Some(s.log[0].key) == s.row.value.send;
    assert STALING[1..][1..][1..] == [] && STALING[1..][1..][0] == STALING[2] && STALING[1..][0] == STALING[1];
    assert IsRun(s, []) && RunOf(s, []) == s;
    assert IsRun(s2, STALING[1..][1..]) && RunOf(s2, STALING[1..][1..]) == s;
    assert IsRun(s1, STALING[1..]) && RunOf(s1, STALING[1..]) == s;
    RunKeepsInv(s0, STALING);
  }

  /** Reloading the saved state there, the next encryption repeats a key and nonce. */
  lemma ReuseIsReal()
    ensures var s := RunOf(Begin("a", Some("b"), 0), STALING);
            && s.row.Some? && s.row.value.send.Some?
            && var out := Encrypt(Load(s.m, s.row.value, Unwrapped(true, true)), []);
               out.Ok? && Use(s.row.value.send.value, out.value.1.nonce) in s.log
  {
    var s := StaleReached();
    ReloadReusesIffStale(s, Unwrapped(true, true), []);
  }
}
