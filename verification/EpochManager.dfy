/**
 * One end of the rekeying protocol: the value each operation computes, and the
 * manager object whose fields and key buffers are updated in place.
 */
module EpochManager {
  import opened Common
  import opened EpochCrypto

  const NONCE_OVERFLOW: nat := 0x8000_0000_0000_0000

  type Identity = string

  datatype SignedContent =
    | RotateContent(epochId: nat, duration: nat, pub: PublicKey, prevHash: ChainHash)
    | AckContent(epochId: nat, pub: PublicKey, chain: ChainHash)

  datatype Signature = Signature(signer: Identity, content: SignedContent)

  datatype RotateFrame = RotateFrame(epochId: nat, duration: nat, pub: PublicKey, prevHash: ChainHash, sig: Signature)

  datatype AckFrame = AckFrame(epochId: nat, pub: PublicKey, chain: ChainHash, sig: Signature)

  datatype DataFrame = DataFrame(epochId: nat, nonce: Nonce, ciphertext: Ciphertext)

  datatype EpochError =
    | NoPeerIdentity | BadSignature | EpochRegression | ChainMismatch | NoPendingExchange
    | NoActiveEpoch | NonceOverflow | NoKeyForEpoch | DecryptFailed

  /** The fields of a manager, with key buffers read as values. */
  datatype Manager = Manager(
    me: Identity, peer: Option<Identity>, duration: nat,
    epoch: nat, send: Option<Key>, recv: Option<Key>, prevRecv: Option<Key>, prevEpoch: nat,
    prefix: seq<Byte>, counter: nat, chain: ChainHash, pending: Option<PrivateKey>)

  /** The row `persist_state` writes. */
  datatype Snapshot = Snapshot(
    epoch: nat, duration: nat, send: Option<Key>, recv: Option<Key>,
    prefix: seq<Byte>, counter: nat, chain: ChainHash)

  function Init(me: Identity, peer: Option<Identity>, duration: nat): Manager {
    Manager(me, peer, duration, 0, None, None, None, 0, [], 0, NoChain, None)
  }

  predicate Active(m: Manager) {
    m.send.Some? && m.recv.Some?
  }

  function Activate(m: Manager, epochId: nat, send: Key, recv: Key, i2r: Key, prefix: seq<Byte>): Manager {
    m.(prevRecv := m.recv, prevEpoch := m.epoch,
       epoch := epochId, send := Some(send), recv := Some(recv),
       prefix := prefix, counter := 0, chain := HmacOf(i2r))
  }

  function RotateOf(m: Manager, sk: PrivateKey): RotateFrame {
    RotateFrame(m.epoch + 1, m.duration, Pub(sk), m.chain,
                Signature(m.me, RotateContent(m.epoch + 1, m.duration, Pub(sk), m.chain)))
  }

  /** `sk` is the freshly generated X25519 key; a retry replaces the pending one. */
  function CreateRotate(m: Manager, sk: PrivateKey): (Manager, RotateFrame) {
    (m.(pending := Some(sk)), RotateOf(m, sk))
  }

  function HandleRotate(m: Manager, f: RotateFrame, sk: PrivateKey, prefix: seq<Byte>): Result<(Manager, AckFrame), EpochError> {
    if m.peer.None? then Err(NoPeerIdentity)
    else if f.sig != Signature(m.peer.value, RotateContent(f.epochId, f.duration, f.pub, f.prevHash)) then Err(BadSignature)
    else if f.epochId <= m.epoch then Err(EpochRegression)
    else if f.prevHash != m.chain then Err(ChainMismatch)
    else
      var i2r, r2i := I2RKey(sk, f.pub, f.epochId), R2IKey(sk, f.pub, f.epochId);
      var m' := Activate(m, f.epochId, r2i, i2r, i2r, prefix);
      Ok((m', AckFrame(f.epochId, Pub(sk), m'.chain, Signature(m.me, AckContent(f.epochId, Pub(sk), m'.chain)))))
  }

  /** No epoch id and no chain hash is compared here: only signature and pending key. */
  function HandleAck(m: Manager, f: AckFrame, prefix: seq<Byte>): Result<Manager, EpochError> {
    if m.peer.None? then Err(NoPeerIdentity)
    else if f.sig != Signature(m.peer.value, AckContent(f.epochId, f.pub, f.chain)) then Err(BadSignature)
    else if m.pending.None? then Err(NoPendingExchange)
    else
      var i2r, r2i := I2RKey(m.pending.value, f.pub, f.epochId), R2IKey(m.pending.value, f.pub, f.epochId);
      Ok(Activate(m, f.epochId, i2r, r2i, i2r, prefix).(pending := None))
  }

  function Encrypt(m: Manager, p: Plaintext): Result<(Manager, DataFrame), EpochError> {
    if !Active(m) then Err(NoActiveEpoch)
    else if m.counter >= NONCE_OVERFLOW then Err(NonceOverflow)
    else
      var nonce := BuildNonce(m.prefix, m.counter);
      Ok((m.(counter := m.counter + 1), DataFrame(m.epoch, nonce, Sealed(m.send.value, nonce, p, m.epoch))))
  }

  /** A success under the current key drops the previous one. */
  function Decrypt(m: Manager, f: DataFrame): Result<(Manager, Plaintext), EpochError> {
    if f.epochId == m.epoch && m.recv.Some? then
      match Open(m.recv.value, f.nonce, f.ciphertext, f.epochId)
      case Some(p) => Ok((m.(prevRecv := None), p))
      case None => Err(DecryptFailed)
    else if f.epochId == m.prevEpoch && m.prevRecv.Some? then
      match Open(m.prevRecv.value, f.nonce, f.ciphertext, f.epochId)
      case Some(p) => Ok((m, p))
      case None => Err(DecryptFailed)
    else Err(NoKeyForEpoch)
  }

  function Persist(m: Manager): Snapshot {
    Snapshot(m.epoch, m.duration, m.send, m.recv, m.prefix, m.counter, m.chain)
  }

  /** A key column as loaded: absent, it leaves the field alone; present but not unwrapped, it clears it. */
  function LoadedKey(held: Option<Key>, column: Option<Key>, unwrapped: bool): Option<Key> {
    if column.None? then held else if unwrapped then column else None
  }

  /** Whether each key column unwraps; previous key and pending exchange are not touched by a load. */
  datatype Unwrapped = Unwrapped(send: bool, recv: bool)

  function Load(m: Manager, row: Snapshot, u: Unwrapped): Manager {
    m.(epoch := row.epoch, duration := row.duration,
       send := LoadedKey(m.send, row.send, u.send),
       recv := LoadedKey(m.recv, row.recv, u.recv),
       prefix := row.prefix, counter := row.counter, chain := row.chain)
  }

  function Teardown(m: Manager): Manager {
    m.(send := None, recv := None, prevRecv := None, pending := None)
  }

  /** A manager that starts up with the given row: one that was saved active, and whose keys unwrap. */
  function Restarted(m: Manager, duration: nat): Manager {
    Load(Init(m.me, m.peer, duration), Persist(m), Unwrapped(true, true))
  }

  /** A restart restores every field but the overlap key and the pending exchange; with a key that does not unwrap, an inactive manager. */
  lemma PersistLoadRoundTrip(m: Manager, duration: nat, u: Unwrapped)
    requires Active(m)
    ensures Restarted(m, duration) == m.(prevRecv := None, prevEpoch := 0, pending := None)
    ensures u != Unwrapped(true, true) ==> !Active(Load(Init(m.me, m.peer, duration), Persist(m), u))
  {
  }

  // ---- The object ----

  ghost predicate Erased(b: array<Octet>)
    reads b
  {
    forall i :: 0 <= i < b.Length ==> b[i] == Zero
  }

  /** Overwrites the buffer in place. */
  method SecureErase(b: array<Octet>)
    modifies b
    ensures Erased(b)
  {
    for i := 0 to b.Length
      invariant forall j :: 0 <= j < i ==> b[j] == Zero
    {
      b[i] := Zero;
    }
  }

  method EraseIfHeld(b: array?<Octet>)
    modifies b
    ensures b != null ==> Erased(b)
  {
    if b != null {
      SecureErase(b);
    }
  }

  method EraseAll(bs: seq<array?<Octet>>)
    modifies set b: array?<Octet> | b in bs
    ensures forall b: array<Octet> :: b in bs ==> Erased(b)
  {
    for k := 0 to |bs|
      invariant forall j :: 0 <= j < k && bs[j] != null ==> Erased(bs[j])
    {
      if bs[k] != null {
        SecureErase(bs[k]);
      }
    }
  }

  method CopyKey(k: Key) returns (b: array<Octet>)
    ensures fresh(b) && b[..] == k
  {
    b := new Octet[|k|](i requires 0 <= i < |k| => k[i]);
  }

  ghost function Bytes(b: array?<Octet>): Option<Key>
    reads b
  {
    if b == null then None else Some(b[..])
  }

  ghost function Held(b: array?<Octet>): set<array<Octet>> {
    if b == null then {} else {b}
  }

  class EpochLink {
    const me: Identity
    const peer: Option<Identity>
    var duration: nat
    var epoch: nat
    var sendKey: array?<Octet>
    var recvKey: array?<Octet>
    var prevRecvKey: array?<Octet>
    var prevEpoch: nat
    var prefix: seq<Byte>
    var counter: nat
    var chain: ChainHash
    var pending: Option<PrivateKey>

    /** Every buffer that was superseded or dropped so far. */
    ghost var retired: set<array<Octet>>

    ghost predicate Valid()
      reads this`sendKey, this`recvKey, this`prevRecvKey, this`retired, retired
    {
      // the three live buffers are separate objects, none of them retired
      && (sendKey != null ==> sendKey != recvKey && sendKey != prevRecvKey && sendKey !in retired)
      && (recvKey != null ==> recvKey != prevRecvKey && recvKey !in retired)
      && (prevRecvKey != null ==> prevRecvKey !in retired)
      // and every retired one is all zeros
      && (forall b :: b in retired ==> Erased(b))
    }

    ghost function View(): Manager
      reads this, sendKey, recvKey, prevRecvKey
    {
      Manager(me, peer, duration, epoch, Bytes(sendKey), Bytes(recvKey), Bytes(prevRecvKey), prevEpoch,
              prefix, counter, chain, pending)
    }

    constructor (me: Identity, peer: Option<Identity>, duration: nat)
      ensures Valid() && retired == {} && View() == Init(me, peer, duration)
    {
      this.me, this.peer, this.duration := me, peer, duration;
      epoch, sendKey, recvKey, prevRecvKey, prevEpoch := 0, null, null, null, 0;
      prefix, counter, chain, pending, retired := [], 0, NoChain, None, {};
    }

    method CreateEpochRotate(sk: PrivateKey) returns (f: RotateFrame)
      requires Valid()
      modifies this`pending
      ensures Valid() && (View(), f) == CreateRotate(old(View()), sk)
    {
      pending := Some(sk);
      f := RotateFrame(epoch + 1, duration, Pub(sk), chain,
                       Signature(me, RotateContent(epoch + 1, duration, Pub(sk), chain)));
    }

    method RetireKeys()
      requires Valid()
      modifies this`sendKey, this`recvKey, this`prevRecvKey, this`retired, sendKey, prevRecvKey
      ensures Valid() && sendKey == null && recvKey == null && prevRecvKey == old(recvKey)
      ensures retired == old(retired) + Held(old(sendKey)) + Held(old(prevRecvKey))
    {
      EraseIfHeld(prevRecvKey);
      EraseIfHeld(sendKey);
      retired := retired + Held(sendKey) + Held(prevRecvKey);
      prevRecvKey, sendKey, recvKey := recvKey, null, null;
    }

    /** New keys go into the slots just vacated, and the counter starts over. */
    method InstallKeys(epochId: nat, send: array<Octet>, recv: array<Octet>, i2r: Key, newPrefix: seq<Byte>)
      requires Valid() && sendKey == null && recvKey == null
      requires send != recv && {send, recv} !! retired && prevRecvKey !in {send, recv}
      modifies this`sendKey, this`recvKey, this`epoch, this`prevEpoch, this`prefix, this`counter, this`chain
      ensures Valid() && sendKey == send && recvKey == recv
      ensures epoch == epochId && prevEpoch == old(epoch) && prefix == newPrefix && counter == 0 && chain == HmacOf(i2r)
    {
      prevEpoch := epoch;
      epoch, sendKey, recvKey := epochId, send, recv;
      prefix, counter, chain := newPrefix, 0, HmacOf(i2r);
    }

    /**
     * The old send buffer and the old previous-receive buffer are erased and
     * retired; the old receive buffer lives on, untouched, as the previous one.
     */
    method ActivateEpoch(epochId: nat, send: array<Octet>, recv: array<Octet>, i2r: Key, newPrefix: seq<Byte>)
      requires Valid()
      requires send != recv && {send, recv} !! retired
      requires sendKey !in {send, recv} && recvKey !in {send, recv} && prevRecvKey !in {send, recv}
      modifies this, sendKey, prevRecvKey
      ensures Valid() && View() == Activate(old(View()), epochId, send[..], recv[..], i2r, newPrefix)
      ensures sendKey == send && recvKey == recv && prevRecvKey == old(recvKey)
      ensures retired == old(retired) + Held(old(sendKey)) + Held(old(prevRecvKey))
    {
      RetireKeys();
      InstallKeys(epochId, send, recv, i2r, newPrefix);
    }

    method DeriveBuffers(local: PrivateKey, remote: PublicKey, epochId: nat) returns (i2r: array<Octet>, r2i: array<Octet>)
      ensures fresh(i2r) && fresh(r2i) && i2r != r2i
      ensures i2r[..] == I2RKey(local, remote, epochId) && r2i[..] == R2IKey(local, remote, epochId)
    {
      var secret := Exchange(local, remote);
      i2r := new Octet[KEY_LEN](i => KeyOctet(Derived(secret, epochId, I2R), i));
      r2i := new Octet[KEY_LEN](i => KeyOctet(Derived(secret, epochId, R2I), i));
    }

    /** The epoch id strictly increases on success, and nothing changes on an error. */
    method HandleEpochRotate(f: RotateFrame, sk: PrivateKey, newPrefix: seq<Byte>) returns (r: Result<AckFrame, EpochError>)
      requires Valid()
      modifies this, sendKey, prevRecvKey
      ensures Valid() && old(retired) <= retired
      ensures match HandleRotate(old(View()), f, sk, newPrefix)
              case Ok((m, ack)) => View() == m && r == Ok(ack) && epoch > old(epoch)
              case Err(e) => View() == old(View()) && r == Err(e) && retired == old(retired)
      ensures r.Ok? ==> retired == old(retired) + Held(old(sendKey)) + Held(old(prevRecvKey))
    {
      if peer.None? {
        return Err(NoPeerIdentity);
      }
      if f.sig != Signature(peer.value, RotateContent(f.epochId, f.duration, f.pub, f.prevHash)) {
        return Err(BadSignature);
      }
      if f.epochId <= epoch {
        return Err(EpochRegression);
      }
      if f.prevHash != chain {
        return Err(ChainMismatch);
      }
      var i2r, r2i := DeriveBuffers(sk, f.pub, f.epochId);
      ActivateEpoch(f.epochId, r2i, i2r, i2r[..], newPrefix);
      r := Ok(AckFrame(f.epochId, Pub(sk), chain, Signature(me, AckContent(f.epochId, Pub(sk), chain))));
    }

    method HandleEpochRotateAck(f: AckFrame, newPrefix: seq<Byte>) returns (r: Result<(), EpochError>)
      requires Valid()
      modifies this, sendKey, prevRecvKey
      ensures Valid() && old(retired) <= retired
      ensures match HandleAck(old(View()), f, newPrefix)
              case Ok(m) => View() == m && r.Ok?
              case Err(e) => View() == old(View()) && r == Err(e) && retired == old(retired)
      ensures r.Ok? ==> retired == old(retired) + Held(old(sendKey)) + Held(old(prevRecvKey))
    {
      if peer.None? {
        return Err(NoPeerIdentity);
      }
      if f.sig != Signature(peer.value, AckContent(f.epochId, f.pub, f.chain)) {
        return Err(BadSignature);
      }
      if pending.None? {
        return Err(NoPendingExchange);
      }
      var i2r, r2i := DeriveBuffers(pending.value, f.pub, f.epochId);
      ActivateEpoch(f.epochId, i2r, r2i, i2r[..], newPrefix);
      pending := None;
      r := Ok(());
    }

    method EncryptFrame(p: Plaintext) returns (r: Result<DataFrame, EpochError>)
      requires Valid()
      modifies this`counter
      ensures Valid()
      ensures match Encrypt(old(View()), p)
              case Ok((m, f)) => View() == m && r == Ok(f)
              case Err(e) => View() == old(View()) && r == Err(e)
    {
      if sendKey == null || recvKey == null {
        return Err(NoActiveEpoch);
      }
      if counter >= NONCE_OVERFLOW {
        return Err(NonceOverflow);
      }
      var nonce := BuildNonce(prefix, counter);
      counter := counter + 1;
      r := Ok(DataFrame(epoch, nonce, Sealed(sendKey[..], nonce, p, epoch)));
    }

    /** The first success under the current key erases and retires the previous buffer. */
    method DecryptFrame(f: DataFrame) returns (r: Result<Plaintext, EpochError>)
      requires Valid()
      modifies this`prevRecvKey, this`retired, prevRecvKey
      ensures Valid()
      ensures match Decrypt(old(View()), f)
              case Ok((m, p)) => View() == m && r == Ok(p)
              case Err(e) => View() == old(View()) && r == Err(e)
      ensures if r.Ok? && f.epochId == epoch && recvKey != null
              then prevRecvKey == null && retired == old(retired) + Held(old(prevRecvKey))
              else prevRecvKey == old(prevRecvKey) && retired == old(retired)
    {
      if f.epochId == epoch && recvKey != null {
        match Open(recvKey[..], f.nonce, f.ciphertext, f.epochId)
        case None => r := Err(DecryptFailed);
        case Some(p) =>
          if prevRecvKey != null {
            SecureErase(prevRecvKey);
            retired := retired + {prevRecvKey};
            prevRecvKey := null;
          }
          r := Ok(p);
      } else if f.epochId == prevEpoch && prevRecvKey != null {
        match Open(prevRecvKey[..], f.nonce, f.ciphertext, f.epochId)
        case Some(p) => r := Ok(p);
        case None => r := Err(DecryptFailed);
      } else {
        r := Err(NoKeyForEpoch);
      }
    }

    method LoadKeys(send: Option<Key>, recv: Option<Key>, u: Unwrapped)
      requires Valid()
      modifies this`sendKey, this`recvKey
      ensures Valid()
      ensures var m := old(View());
              View() == m.(send := LoadedKey(m.send, send, u.send), recv := LoadedKey(m.recv, recv, u.recv))
      ensures if send.Some? then sendKey == null || fresh(sendKey) else sendKey == old(sendKey)
      ensures if recv.Some? then recvKey == null || fresh(recvKey) else recvKey == old(recvKey)
    {
      if send.Some? {
        if u.send {
          sendKey := CopyKey(send.value);
        } else {
          sendKey := null;
        }
      }
      if recv.Some? {
        if u.recv {
          recvKey := CopyKey(recv.value);
        } else {
          recvKey := null;
        }
      }
    }

    /** New buffers, or none, replace the old ones; the old ones are dropped without being erased. */
    method LoadState(row: Snapshot, u: Unwrapped)
      requires Valid()
      modifies this`sendKey, this`recvKey, this`epoch, this`duration, this`prefix, this`counter, this`chain
      ensures Valid() && View() == Load(old(View()), row, u) && retired == old(retired)
      ensures row.send.Some? ==> sendKey == null || fresh(sendKey)
      ensures row.recv.Some? ==> recvKey == null || fresh(recvKey)
    {
      LoadFields(row);
      LoadKeys(row.send, row.recv, u);
    }

    method LoadFields(row: Snapshot)
      modifies this`epoch, this`duration, this`prefix, this`counter, this`chain
      ensures View() == old(View()).(epoch := row.epoch, duration := row.duration,
                                     prefix := row.prefix, counter := row.counter, chain := row.chain)
    {
      epoch, duration := row.epoch, row.duration;
      prefix, counter, chain := row.prefix, row.counter, row.chain;
    }

    /** Zeroes every buffer still held. */
    method EraseHeld()
      modifies sendKey, recvKey, prevRecvKey
      ensures forall b :: b in Held(sendKey) + Held(recvKey) + Held(prevRecvKey) ==> Erased(b)
    {
      EraseAll([sendKey, recvKey, prevRecvKey]);
    }

    /** Lets go of buffers that have been zeroed. */
    method ReleaseKeys()
      requires Valid() && forall b :: b in Held(sendKey) + Held(recvKey) + Held(prevRecvKey) ==> Erased(b)
      modifies this`sendKey, this`recvKey, this`prevRecvKey, this`retired
      ensures Valid() && sendKey == null && recvKey == null && prevRecvKey == null
      ensures retired == old(retired) + Held(old(sendKey)) + Held(old(recvKey)) + Held(old(prevRecvKey))
    {
      retired := retired + Held(sendKey) + Held(recvKey) + Held(prevRecvKey);
      sendKey, recvKey, prevRecvKey := null, null, null;
    }

    /** Afterwards every buffer this manager still held is zeroed. */
    method TearDown()
      requires Valid()
      modifies this`sendKey, this`recvKey, this`prevRecvKey, this`pending, this`retired, sendKey, recvKey, prevRecvKey
      ensures Valid() && View() == Teardown(old(View()))
      ensures retired == old(retired) + Held(old(sendKey)) + Held(old(recvKey)) + Held(old(prevRecvKey))
    {
      EraseHeld();
      assert Valid();
      ReleaseKeys();
      pending := None;
    }
  }
}
