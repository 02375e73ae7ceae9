/**
 * The two managers on a network where anyone may send anything, short of
 * forging: a signature of either end is on something that end has signed, and
 * a ciphertext under a key of theirs is one they have sealed.
 */
module EpochForgery {
  import opened Common
  import opened EpochCrypto
  import opened EpochManager
  import opened EpochAgreement

  datatype Hostile =
    | Honest(e: Event)
    | RotateToR(rotate: RotateFrame, sk: PrivateKey, prefix: seq<Byte>)
    | AckToI(ack: AckFrame, prefix: seq<Byte>)
    | DataToR(data: DataFrame)
    | DataToI(data: DataFrame)

  // ---- What cannot be made ----

  ghost predicate RotateUnforged(s: Pair, f: RotateFrame) {
    f.sig.signer == s.i.me && f.sig.content.RotateContent? ==> exists g :: g in s.rotates && g.sig == f.sig
  }

  ghost predicate AckUnforged(s: Pair, f: AckFrame) {
    f.sig.signer == s.r.me && f.sig.content.AckContent? ==> exists a :: a in s.answers && a.ack.sig == f.sig
  }

  ghost predicate DataUnforged(m: Manager, sent: set<DataFrame>, d: DataFrame) {
    (m.recv == Some(d.ciphertext.key) || m.prevRecv == Some(d.ciphertext.key)) ==>
      exists g :: g in sent && g.ciphertext == d.ciphertext
  }

  ghost predicate Allowed(s: Pair, h: Hostile) {
    match h
    case Honest(e) => Enabled(s, e)
    case RotateToR(f, sk, _) => RotateUnforged(s, f) && sk !in s.used
    case AckToI(f, _) => AckUnforged(s, f) && forall a :: a in s.answers && a.ack == f ==> AnswersLatest(s, a)
    case DataToR(d) => DataUnforged(s.r, s.fromI, d)
    case DataToI(d) => DataUnforged(s.i, s.fromR, d)
  }

  /** What the receiving end does with the frame, whoever sent it. */
  function Struck(s: Pair, h: Hostile): Pair {
    match h
    case Honest(e) => Step(s, e)
    case RotateToR(f, sk, prefix) => Step(s, RHandle(f, sk, prefix))
    case AckToI(f, prefix) =>
      (match HandleAck(s.i, f, prefix)
       case Ok(i) => s.(i := i)
       case Err(_) => s)
    case DataToR(d) => Step(s, RDecrypt(d))
    case DataToI(d) => Step(s, IDecrypt(d))
  }

  ghost predicate IsHostileRun(s: Pair, hs: seq<Hostile>)
    decreases |hs|
  {
    hs == [] || (Allowed(s, hs[0]) && IsHostileRun(Struck(s, hs[0]), hs[1..]))
  }

  function HostileRun(s: Pair, hs: seq<Hostile>): Pair
    decreases |hs|
  {
    if hs == [] then s else HostileRun(Struck(s, hs[0]), hs[1..])
  }

  // ---- What is accepted was sent ----

  /** A data frame repeats its nonce and epoch inside the ciphertext. */
  ghost predicate Bound(sent: set<DataFrame>) {
    forall d :: d in sent ==> d.ciphertext.nonce == d.nonce && d.ciphertext.aad == d.epochId
  }

  ghost predicate HostileInv(s: Pair) {
    Inv(s) && Bound(s.fromI) && Bound(s.fromR)
  }

  /** The responder accepts a rotate only if the initiator sent exactly that frame. */
  lemma RotateAuthentic(s: Pair, f: RotateFrame, sk: PrivateKey, prefix: seq<Byte>)
    requires Inv(s) && RotateUnforged(s, f) && HandleRotate(s.r, f, sk, prefix).Ok?
    ensures f in s.rotates
  {
    var g :| g in s.rotates && g.sig == f.sig;
    assert g == f;
  }

  /** The initiator accepts an ack only if the responder sent exactly that frame. */
  lemma AckAuthentic(s: Pair, f: AckFrame, prefix: seq<Byte>) returns (a: Answer)
    requires Inv(s) && AckUnforged(s, f) && HandleAck(s.i, f, prefix).Ok?
    ensures a in s.answers && a.ack == f
  {
    a :| a in s.answers && a.ack.sig == f.sig;
  }

  /** What either end reads, the other end has sent. */
  lemma DataAuthentic(m: Manager, sent: set<DataFrame>, d: DataFrame)
    requires Bound(sent) && DataUnforged(m, sent, d) && Decrypt(m, d).Ok?
    ensures d in sent && Decrypt(m, d).value.1 == d.ciphertext.plaintext
  {
    var g :| g in sent && g.ciphertext == d.ciphertext;
    assert g == d;
  }

  lemma HonestKeepsInv(s: Pair, e: Event)
    requires HostileInv(s) && Enabled(s, e)
    ensures HostileInv(Step(s, e))
  {
    StepKeepsInv(s, e);
  }

  /** A frame that was not sent changes nothing; one that was is an honest step. */
  lemma StruckKeepsInv(s: Pair, h: Hostile)
    requires HostileInv(s) && Allowed(s, h)
    ensures HostileInv(Struck(s, h))
  {
    match h
    case Honest(e) => HonestKeepsInv(s, e);
    case RotateToR(f, sk, prefix) =>
      if HandleRotate(s.r, f, sk, prefix).Ok? {
        RotateAuthentic(s, f, sk, prefix);
        HonestKeepsInv(s, RHandle(f, sk, prefix));
      }
    case AckToI(f, prefix) =>
      if HandleAck(s.i, f, prefix).Ok? {
        var a := AckAuthentic(s, f, prefix);
        HonestKeepsInv(s, IAck(a, prefix));
      }
    case DataToR(d) =>
      if Decrypt(s.r, d).Ok? {
        DataAuthentic(s.r, s.fromI, d);
        HonestKeepsInv(s, RDecrypt(d));
      }
    case DataToI(d) =>
      if Decrypt(s.i, d).Ok? {
        DataAuthentic(s.i, s.fromR, d);
        HonestKeepsInv(s, IDecrypt(d));
      }
  }

  lemma {:induction false} HostileRunKeepsInv(s: Pair, hs: seq<Hostile>)
    requires HostileInv(s) && IsHostileRun(s, hs)
    ensures HostileInv(HostileRun(s, hs))
    decreases |hs|
  {
    if hs != [] {
      StruckKeepsInv(s, hs[0]);
      HostileRunKeepsInv(Struck(s, hs[0]), hs[1..]);
    }
  }

  /**
   * Agreement on a hostile network, and authenticity with it: whatever else was
   * sent to either end, they are in step, and a frame that the responder reads
   * is one the initiator encrypted.
   */
  lemma AgreementUnderAttack(a: Identity, b: Identity, di: nat, dr: nat, hs: seq<Hostile>, d: DataFrame)
    requires IsHostileRun(Start(a, b, di, dr), hs)
    ensures var s := HostileRun(Start(a, b, di, dr), hs);
            && InStep(s)
            && (DataUnforged(s.r, s.fromI, d) && Decrypt(s.r, d).Ok? ==> d in s.fromI)
  {
    HostileRunKeepsInv(Start(a, b, di, dr), hs);
    var s := HostileRun(Start(a, b, di, dr), hs);
    if DataUnforged(s.r, s.fromI, d) && Decrypt(s.r, d).Ok? {
      DataAuthentic(s.r, s.fromI, d);
    }
  }
}
