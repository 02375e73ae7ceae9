/**
 * The same two managers over a link that keeps order in each direction but may
 * lose any frame. What is proved is about the data: which frames decrypt.
 */
module EpochDelivery {
  import opened Common
  import opened EpochCrypto
  import opened EpochManager
  import Net = EpochAgreement

  /** A data frame in flight remembers the plaintext its sender encrypted. */
  datatype Frame = RotateF(rotate: RotateFrame) | AckF(answer: Net.Answer) | DataF(data: DataFrame, plain: Plaintext)

  datatype Link = Link(s: Net.Pair, toR: seq<Frame>, toI: seq<Frame>, ackLost: bool)

  datatype Event =
    | SendRotate(sk: PrivateKey)
    | SendFromI(p: Plaintext)
    | SendFromR(p: Plaintext)
    | DeliverToR(sk: PrivateKey, prefix: seq<Byte>)
    | DeliverToI(prefix: seq<Byte>)
    | DropToR(k: nat)
    | DropToI(k: nat)

  predicate CanHappen(l: Link, e: Event) {
    match e
    case SendRotate(sk) => sk !in l.s.used
    case SendFromI(_) => true
    case SendFromR(_) => true
    case DeliverToR(sk, _) => l.toR != [] && sk !in l.s.used
    case DeliverToI(_) => l.toI != []
    case DropToR(k) => k < |l.toR|
    case DropToI(k) => k < |l.toI|
  }

  /** The same under the ack hypothesis. */
  predicate Enabled(l: Link, e: Event) {
    CanHappen(l, e) && (e.DeliverToI? && l.toI[0].AckF? ==> Net.AnswersLatest(l.s, l.toI[0].answer))
  }

  function Remove(q: seq<Frame>, k: nat): seq<Frame>
    requires k < |q|
  {
    q[..k] + q[k + 1..]
  }

  lemma RemoveAt(q: seq<Frame>, k: nat)
    requires k < |q|
    ensures forall j :: 0 <= j < |q| - 1 ==> Remove(q, k)[j] == q[if j < k then j else j + 1]
  {
  }

  function Step(l: Link, e: Event): Link
    requires CanHappen(l, e)
  {
    match e
    case SendRotate(sk) =>
      l.(s := Net.Step(l.s, Net.IRotate(sk)), toR := l.toR + [RotateF(RotateOf(l.s.i, sk))])
    case SendFromI(p) =>
      (match Encrypt(l.s.i, p)
       case Ok((_, d)) => l.(s := Net.Step(l.s, Net.IEncrypt(p)), toR := l.toR + [DataF(d, p)])
       case Err(_) => l)
    case SendFromR(p) =>
      (match Encrypt(l.s.r, p)
       case Ok((_, d)) => l.(s := Net.Step(l.s, Net.REncrypt(p)), toI := l.toI + [DataF(d, p)])
       case Err(_) => l)
    case DeliverToR(sk, prefix) =>
      (match l.toR[0]
       case RotateF(f) =>
         l.(s := Net.Step(l.s, Net.RHandle(f, sk, prefix)), toR := l.toR[1..],
            toI := match HandleRotate(l.s.r, f, sk, prefix)
                   case Ok((_, ack)) => l.toI + [AckF(Net.Answer(ack, f))]
                   case Err(_) => l.toI)
       case DataF(d, _) => l.(s := Net.Step(l.s, Net.RDecrypt(d)), toR := l.toR[1..])
       case AckF(_) => l.(toR := l.toR[1..]))
    case DeliverToI(prefix) =>
      (match l.toI[0]
       case AckF(a) => l.(s := Net.Step(l.s, Net.IAck(a, prefix)), toI := l.toI[1..])
       case DataF(d, _) => l.(s := Net.Step(l.s, Net.IDecrypt(d)), toI := l.toI[1..])
       case RotateF(_) => l.(toI := l.toI[1..]))
    case DropToR(k) => l.(toR := Remove(l.toR, k))
    case DropToI(k) => l.(toI := Remove(l.toI, k), ackLost := l.ackLost || l.toI[k].AckF?)
  }

  function Start(a: Identity, b: Identity, di: nat, dr: nat): Link {
    Link(Net.Start(a, b, di, dr), [], [], false)
  }

  ghost predicate IsRun(l: Link, es: seq<Event>)
    decreases |es|
  {
    es == [] || (Enabled(l, es[0]) && IsRun(Step(l, es[0]), es[1..]))
  }

  ghost function RunOf(l: Link, es: seq<Event>): Link
    requires IsRun(l, es)
    decreases |es|
  {
    if es == [] then l else RunOf(Step(l, es[0]), es[1..])
  }

  /** A run in which every ack that arrives is processed, whatever it answers. */
  ghost predicate IsFreeRun(l: Link, es: seq<Event>)
    decreases |es|
  {
    es == [] || (CanHappen(l, es[0]) && IsFreeRun(Step(l, es[0]), es[1..]))
  }

  ghost function FreeRunOf(l: Link, es: seq<Event>): Link
    requires IsFreeRun(l, es)
    decreases |es|
  {
    if es == [] then l else FreeRunOf(Step(l, es[0]), es[1..])
  }

  // ---- Every link step is a network step ----

  predicate KnownToR(s: Net.Pair, f: Frame) {
    match f
    case RotateF(r) => r in s.rotates
    case DataF(d, _) => d in s.fromI
    case AckF(_) => false
  }

  predicate KnownToI(s: Net.Pair, f: Frame) {
    match f
    case AckF(a) => a in s.answers
    case DataF(d, _) => d in s.fromR
    case RotateF(_) => false
  }

  ghost predicate FramesKnown(l: Link) {
    && (forall k :: 0 <= k < |l.toR| ==> KnownToR(l.s, l.toR[k]))
    && (forall k :: 0 <= k < |l.toI| ==> KnownToI(l.s, l.toI[k]))
  }

  ghost predicate Base(l: Link) {
    Net.Inv(l.s) && FramesKnown(l)
  }

  /** The network never forgets a frame. */
  lemma KnownGrows(s: Net.Pair, e: Net.Event)
    ensures var s' := Net.Step(s, e);
            s.rotates <= s'.rotates && s.answers <= s'.answers && s.fromI <= s'.fromI && s.fromR <= s'.fromR
  {
  }

  lemma StepKeepsFrames(l: Link, e: Event)
    requires FramesKnown(l) && CanHappen(l, e)
    ensures FramesKnown(Step(l, e))
  {
    match e
    case SendRotate(sk) => FramesAppend(l, Step(l, e), Net.IRotate(sk));
    case SendFromI(p) => FramesAppend(l, Step(l, e), Net.IEncrypt(p));
    case SendFromR(p) => FramesAppend(l, Step(l, e), Net.REncrypt(p));
    case DeliverToR(sk, prefix) => FramesAtR(l, sk, prefix);
    case DeliverToI(prefix) =>
    case DropToR(k) => RemoveAt(l.toR, k);
    case DropToI(k) => RemoveAt(l.toI, k);
  }

  lemma FramesAppend(l: Link, l': Link, n: Net.Event)
    requires FramesKnown(l) && (l'.s == Net.Step(l.s, n) || l'.s == l.s)
    requires l'.toR == l.toR || (|l'.toR| == |l.toR| + 1 && l'.toR[..|l.toR|] == l.toR && KnownToR(l'.s, l'.toR[|l.toR|]))
    requires l'.toI == l.toI || (|l'.toI| == |l.toI| + 1 && l'.toI[..|l.toI|] == l.toI && KnownToI(l'.s, l'.toI[|l.toI|]))
    ensures FramesKnown(l')
  {
    KnownGrows(l.s, n);
    forall k | 0 <= k < |l'.toR|
      ensures KnownToR(l'.s, l'.toR[k])
    {
      assert k < |l.toR| ==> l'.toR[k] == l.toR[k] && KnownToR(l.s, l.toR[k]);
    }
    forall k | 0 <= k < |l'.toI|
      ensures KnownToI(l'.s, l'.toI[k])
    {
      assert k < |l.toI| ==> l'.toI[k] == l.toI[k] && KnownToI(l.s, l.toI[k]);
    }
  }

  lemma FramesAtR(l: Link, sk: PrivateKey, prefix: seq<Byte>)
    requires FramesKnown(l) && CanHappen(l, DeliverToR(sk, prefix))
    ensures FramesKnown(Step(l, DeliverToR(sk, prefix)))
  {
  }

  lemma StepKeepsBase(l: Link, e: Event)
    requires Base(l) && Enabled(l, e)
    ensures Base(Step(l, e))
  {
    StepKeepsFrames(l, e);
    match e
    case SendRotate(sk) => Net.StepKeepsInv(l.s, Net.IRotate(sk));
    case SendFromI(p) => Net.StepKeepsInv(l.s, Net.IEncrypt(p));
    case SendFromR(p) => Net.StepKeepsInv(l.s, Net.REncrypt(p));
    case DeliverToR(sk, prefix) =>
      match l.toR[0] {
        case RotateF(f) => Net.StepKeepsInv(l.s, Net.RHandle(f, sk, prefix));
        case DataF(d, _) => Net.StepKeepsInv(l.s, Net.RDecrypt(d));
      }
    case DeliverToI(prefix) =>
      match l.toI[0] {
        case AckF(a) => Net.StepKeepsInv(l.s, Net.IAck(a, prefix));
        case DataF(d, _) => Net.StepKeepsInv(l.s, Net.IDecrypt(d));
      }
    case DropToR(_) =>
    case DropToI(_) =>
  }

  // ---- Queues whose frames carry non-decreasing stamps ----

  ghost predicate Ordered(q: seq<Frame>, stamp: Frame -> int, top: int) {
    && (forall j, k :: 0 <= j < k < |q| ==> stamp(q[j]) <= stamp(q[k]))
    && (forall k :: 0 <= k < |q| ==> stamp(q[k]) <= top)
  }

  lemma OrderedAppend(q: seq<Frame>, stamp: Frame -> int, top: int, f: Frame, top': int)
    requires Ordered(q, stamp, top) && top <= stamp(f) <= top'
    ensures Ordered(q + [f], stamp, top')
  {
  }

  lemma OrderedRemove(q: seq<Frame>, stamp: Frame -> int, top: int, k: nat)
    requires Ordered(q, stamp, top) && k < |q|
    ensures Ordered(Remove(q, k), stamp, top)
  {
    RemoveAt(q, k);
  }

  /** Removing the head leaves only frames stamped at or above it. */
  lemma OrderedTail(q: seq<Frame>, stamp: Frame -> int, top: int)
    requires Ordered(q, stamp, top) && q != []
    ensures Ordered(q[1..], stamp, top)
    ensures forall k :: 0 <= k < |q| - 1 ==> stamp(q[0]) <= stamp(q[1..][k])
  {
  }

  // ---- Initiator to responder ----

  /** The initiator's epoch when the frame was sent. */
  function StampR(f: Frame): int {
    match f
    case RotateF(r) => r.epochId - 1
    case DataF(d, _) => d.epochId
    case AckF(_) => 0
  }

  predicate Intact(d: DataFrame, p: Plaintext, k: Option<Key>) {
    k.Some? && d.ciphertext == Sealed(k.value, d.nonce, p, d.epochId)
  }

  /** The responder holds the frame's key in the slot it will look in. */
  predicate HeldByR(r: Manager, f: Frame) {
    f.DataF? ==>
      if f.data.epochId == r.epoch then Intact(f.data, f.plain, r.recv)
      else f.data.epochId == r.prevEpoch && Intact(f.data, f.plain, r.prevRecv)
  }

  ghost predicate Forward(l: Link) {
    Ordered(l.toR, StampR, l.s.i.epoch) && forall k :: 0 <= k < |l.toR| ==> HeldByR(l.s.r, l.toR[k])
  }

  lemma ForwardAppend(l: Link, l': Link, f: Frame)
    requires Forward(l) && l'.toR == l.toR + [f] && l'.s.r == l.s.r && l'.s.i.epoch == l.s.i.epoch
    requires StampR(f) == l.s.i.epoch && HeldByR(l.s.r, f)
    ensures Forward(l')
  {
    OrderedAppend(l.toR, StampR, l.s.i.epoch, f, l.s.i.epoch);
  }

  /** The responder can read what the initiator encrypts now. */
  lemma SealedIsHeld(s: Net.Pair, p: Plaintext)
    requires Net.InStep(s) && Encrypt(s.i, p).Ok?
    ensures HeldByR(s.r, DataF(Encrypt(s.i, p).value.1, p))
  {
  }

  lemma ForwardSend(l: Link, e: Event)
    requires Net.InStep(l.s) && Forward(l) && Enabled(l, e) && (e.SendRotate? || e.SendFromI?)
    ensures Forward(Step(l, e))
  {
    match e
    case SendRotate(sk) => ForwardAppend(l, Step(l, e), RotateF(RotateOf(l.s.i, sk)));
    case SendFromI(p) =>
      if Encrypt(l.s.i, p).Ok? {
        SealedIsHeld(l.s, p);
        ForwardAppend(l, Step(l, e), DataF(Encrypt(l.s.i, p).value.1, p));
      }
  }

  /** After a rotate the frames behind it, all of the epoch it ends, are found under the previous key. */
  lemma HeldAcrossRotate(r: Manager, r': Manager, q: seq<Frame>, epoch: nat)
    requires r.epoch == epoch && r'.epoch == epoch + 1 && r'.prevEpoch == epoch && r'.prevRecv == r.recv
    requires forall k :: 0 <= k < |q| ==> HeldByR(r, q[k]) && epoch <= StampR(q[k]) <= epoch
    ensures forall k :: 0 <= k < |q| ==> HeldByR(r', q[k])
  {
  }

  /** A frame under the current key leaves none behind it that needs the previous one. */
  lemma HeldAcrossData(r: Manager, r': Manager, q: seq<Frame>, epoch: nat)
    requires r'.epoch == r.epoch && r'.recv == r.recv && r'.prevEpoch == r.prevEpoch
    requires r'.prevRecv == r.prevRecv || r.prevEpoch <= r.epoch == epoch
    requires forall k :: 0 <= k < |q| ==> HeldByR(r, q[k]) && epoch <= StampR(q[k])
    ensures forall k :: 0 <= k < |q| ==> HeldByR(r', q[k])
  {
  }

  lemma ForwardRotate(l: Link, f: RotateFrame, sk: PrivateKey, prefix: seq<Byte>)
    requires Forward(l) && l.toR != [] && l.toR[0] == RotateF(f) && sk !in l.s.used
    requires HandleRotate(l.s.r, f, sk, prefix).Ok? ==> l.s.r.epoch == l.s.i.epoch && f.epochId == l.s.i.epoch + 1
    ensures Forward(Step(l, DeliverToR(sk, prefix)))
  {
    var l' := Step(l, DeliverToR(sk, prefix));
    OrderedTail(l.toR, StampR, l.s.i.epoch);
    if HandleRotate(l.s.r, f, sk, prefix).Ok? {
      HeldAcrossRotate(l.s.r, l'.s.r, l.toR[1..], l.s.i.epoch);
    }
  }

  lemma ForwardData(l: Link, sk: PrivateKey, prefix: seq<Byte>)
    requires Forward(l) && l.toR != [] && l.toR[0].DataF? && sk !in l.s.used && l.s.r.prevEpoch <= l.s.r.epoch
    ensures Forward(Step(l, DeliverToR(sk, prefix)))
  {
    var l' := Step(l, DeliverToR(sk, prefix));
    OrderedTail(l.toR, StampR, l.s.i.epoch);
    HeldAcrossData(l.s.r, l'.s.r, l.toR[1..], l.toR[0].data.epochId);
  }

  lemma ForwardDeliver(l: Link, sk: PrivateKey, prefix: seq<Byte>)
    requires Base(l) && Forward(l) && Enabled(l, DeliverToR(sk, prefix))
    ensures Forward(Step(l, DeliverToR(sk, prefix)))
  {
    assert KnownToR(l.s, l.toR[0]);
    match l.toR[0]
    case RotateF(f) =>
      if HandleRotate(l.s.r, f, sk, prefix).Ok? {
        Net.AcceptedRotate(l.s, f, sk, prefix);
      }
      ForwardRotate(l, f, sk, prefix);
    case DataF(_, _) => ForwardData(l, sk, prefix);
  }

  /** Only these fields of the two managers matter to the frames in flight. */
  lemma ForwardFrame(l: Link, l': Link)
    requires Forward(l) && l'.toR == l.toR && l.s.i.epoch <= l'.s.i.epoch
    requires l'.s.r.epoch == l.s.r.epoch && l'.s.r.recv == l.s.r.recv
    requires l'.s.r.prevEpoch == l.s.r.prevEpoch && l'.s.r.prevRecv == l.s.r.prevRecv
    ensures Forward(l')
  {
  }

  lemma StepKeepsForward(l: Link, e: Event)
    requires Base(l) && Forward(l) && Enabled(l, e)
    ensures Forward(Step(l, e))
  {
    match e
    case SendRotate(_) => ForwardSend(l, e);
    case SendFromI(_) => ForwardSend(l, e);
    case DeliverToR(sk, prefix) => ForwardDeliver(l, sk, prefix);
    case DeliverToI(prefix) => ForwardAtI(l, prefix);
    case DropToR(k) =>
      OrderedRemove(l.toR, StampR, l.s.i.epoch, k);
      RemoveAt(l.toR, k);
    case SendFromR(_) => ForwardFrame(l, Step(l, e));
    case DropToI(_) => ForwardFrame(l, Step(l, e));
  }

  lemma ForwardAtI(l: Link, prefix: seq<Byte>)
    requires Net.Inv(l.s) && FramesKnown(l) && Forward(l) && Enabled(l, DeliverToI(prefix))
    ensures Forward(Step(l, DeliverToI(prefix)))
  {
    if l.toI[0].AckF? {
      assert KnownToI(l.s, l.toI[0]);
      Net.AckMirrors(l.s, l.toI[0].answer, prefix);
    }
    ForwardFrame(l, Step(l, DeliverToI(prefix)));
  }

  // ---- Responder to initiator, as long as no ack is lost ----

  /** Acks sort between the data of the epoch they end and the data of the epoch they begin. */
  function StampI(f: Frame): int {
    match f
    case AckF(a) => 2 * a.ack.epochId - 1
    case DataF(d, _) => 2 * d.epochId
    case RotateF(_) => 0
  }

  /** The initiator holds the frame's key, or will once the ack ahead of the frame arrives. */
  predicate HeldByI(s: Net.Pair, f: Frame) {
    match f
    case AckF(a) => s.r.epoch == s.i.epoch + 1 && s.last == Some(a) && a.ack.epochId == s.r.epoch
    case DataF(d, p) =>
      if d.epochId == s.i.epoch then Intact(d, p, s.i.recv)
      else d.epochId == s.i.epoch + 1 == s.r.epoch && Intact(d, p, s.r.send)
    case RotateF(_) => false
  }

  /** How many acks are in flight. */
  function Acks(q: seq<Frame>): nat {
    if q == [] then 0 else (if q[0].AckF? then 1 else 0) + Acks(q[1..])
  }

  lemma {:induction false} AcksAppend(q: seq<Frame>, f: Frame)
    ensures Acks(q + [f]) == Acks(q) + if f.AckF? then 1 else 0
  {
    if q == [] {
      assert (q + [f])[1..] == [];
    } else {
      AcksAppend(q[1..], f);
      assert (q + [f])[1..] == q[1..] + [f];
    }
  }

  lemma {:induction false} AcksRemove(q: seq<Frame>, k: nat)
    requires k < |q|
    ensures Acks(Remove(q, k)) == Acks(q) - if q[k].AckF? then 1 else 0
  {
    if k == 0 {
      assert Remove(q, 0) == q[1..];
    } else {
      AcksRemove(q[1..], k - 1);
      assert Remove(q, k)[1..] == Remove(q[1..], k - 1) && Remove(q, k)[0] == q[0];
    }
  }

  lemma {:induction false} NoAcks(q: seq<Frame>, k: nat)
    requires Acks(q) == 0 && k < |q|
    ensures !q[k].AckF?
  {
    if k > 0 {
      NoAcks(q[1..], k - 1);
    }
  }

  lemma {:induction false} SomeAck(q: seq<Frame>) returns (k: nat)
    requires Acks(q) > 0
    ensures k < |q| && q[k].AckF?
  {
    if q[0].AckF? {
      k := 0;
    } else {
      k := SomeAck(q[1..]);
      k := k + 1;
    }
  }

  /** While the responder is ahead exactly its last ack is in flight; otherwise none is. */
  ghost predicate Backward(l: Link) {
    && Ordered(l.toI, StampI, 2 * l.s.r.epoch)
    && (forall k :: 0 <= k < |l.toI| ==> HeldByI(l.s, l.toI[k]))
    && Acks(l.toI) == (if l.s.r.epoch == l.s.i.epoch + 1 then 1 else 0)
  }

  /** And only these in the other direction. */
  lemma BackwardFrame(l: Link, l': Link)
    requires Backward(l) && l'.toI == l.toI && l'.s.last == l.s.last
    requires l'.s.r.epoch == l.s.r.epoch && l'.s.r.send == l.s.r.send
    requires l'.s.i.epoch == l.s.i.epoch && l'.s.i.recv == l.s.i.recv
    ensures Backward(l')
  {
  }

  lemma BackwardSend(l: Link, p: Plaintext)
    requires Net.InStep(l.s) && Backward(l)
    ensures Backward(Step(l, SendFromR(p)))
  {
    if Encrypt(l.s.r, p).Ok? {
      var f := DataF(Encrypt(l.s.r, p).value.1, p);
      OrderedAppend(l.toI, StampI, 2 * l.s.r.epoch, f, 2 * l.s.r.epoch);
      AcksAppend(l.toI, f);
      BackwardFrame(l, Step(l, SendFromR(p)).(toI := l.toI));
    }
  }

  /** While the ends share the epoch, what the responder does next does not concern the data in flight. */
  lemma HeldAcrossAnswer(s: Net.Pair, s': Net.Pair, q: seq<Frame>)
    requires s.r.epoch == s.i.epoch && s'.i.epoch == s.i.epoch && s'.i.recv == s.i.recv
    requires forall k :: 0 <= k < |q| ==> HeldByI(s, q[k]) && !q[k].AckF?
    ensures forall k :: 0 <= k < |q| ==> HeldByI(s', q[k])
  {
  }

  lemma BackwardAnswer(l: Link, sk: PrivateKey, prefix: seq<Byte>)
    requires Base(l) && Backward(l) && Enabled(l, DeliverToR(sk, prefix))
    requires l.toR[0].RotateF? && HandleRotate(l.s.r, l.toR[0].rotate, sk, prefix).Ok?
    ensures Backward(Step(l, DeliverToR(sk, prefix)))
  {
    var f := l.toR[0].rotate;
    Net.AcceptedRotate(l.s, f, sk, prefix);
    AnswerQueued(l, f, sk, prefix);
  }

  lemma AnswerQueued(l: Link, f: RotateFrame, sk: PrivateKey, prefix: seq<Byte>)
    requires Backward(l) && l.toR != [] && l.toR[0] == RotateF(f) && HandleRotate(l.s.r, f, sk, prefix).Ok?
    requires l.s.r.epoch == l.s.i.epoch && f.epochId == l.s.i.epoch + 1 && sk !in l.s.used
    ensures Backward(Step(l, DeliverToR(sk, prefix)))
  {
    forall k | 0 <= k < |l.toI|
      ensures !l.toI[k].AckF?
    {
      NoAcks(l.toI, k);
    }
    var (r, ack) := HandleRotate(l.s.r, f, sk, prefix).value;
    var a := AckF(Net.Answer(ack, f));
    HeldAcrossAnswer(l.s, Step(l, DeliverToR(sk, prefix)).s, l.toI);
    OrderedAppend(l.toI, StampI, 2 * l.s.r.epoch, a, 2 * r.epoch);
    AcksAppend(l.toI, a);
  }

  lemma BackwardAck(l: Link, prefix: seq<Byte>)
    requires Base(l) && Backward(l) && Enabled(l, DeliverToI(prefix)) && l.toI[0].AckF?
    ensures Backward(Step(l, DeliverToI(prefix)))
  {
    Net.AckMirrors(l.s, l.toI[0].answer, prefix);
    OrderedTail(l.toI, StampI, 2 * l.s.r.epoch);
    forall k | 0 <= k < |l.toI| - 1
      ensures !l.toI[1..][k].AckF?
    {
      NoAcks(l.toI[1..], k);
    }
  }

  lemma BackwardData(l: Link, prefix: seq<Byte>)
    requires Backward(l) && Enabled(l, DeliverToI(prefix)) && l.toI[0].DataF?
    ensures Backward(Step(l, DeliverToI(prefix)))
  {
    OrderedTail(l.toI, StampI, 2 * l.s.r.epoch);
    BackwardFrame(l.(toI := l.toI[1..]), Step(l, DeliverToI(prefix)));
  }

  lemma BackwardDrop(l: Link, k: nat)
    requires Backward(l) && k < |l.toI| && !l.toI[k].AckF?
    ensures Backward(Step(l, DropToI(k)))
  {
    OrderedRemove(l.toI, StampI, 2 * l.s.r.epoch, k);
    AcksRemove(l.toI, k);
    RemoveAt(l.toI, k);
  }

  lemma StepKeepsBackward(l: Link, e: Event)
    requires Base(l) && Backward(l) && Enabled(l, e) && !Step(l, e).ackLost
    ensures Backward(Step(l, e))
  {
    match e
    case SendFromR(p) => BackwardSend(l, p);
    case DeliverToR(sk, prefix) => BackwardAtR(l, sk, prefix);
    case DeliverToI(prefix) => BackwardAtI(l, prefix);
    case DropToI(k) => BackwardDrop(l, k);
    case _ => BackwardFrame(l, Step(l, e));
  }

  lemma BackwardAtR(l: Link, sk: PrivateKey, prefix: seq<Byte>)
    requires Base(l) && Backward(l) && Enabled(l, DeliverToR(sk, prefix))
    ensures Backward(Step(l, DeliverToR(sk, prefix)))
  {
    if l.toR[0].RotateF? && HandleRotate(l.s.r, l.toR[0].rotate, sk, prefix).Ok? {
      BackwardAnswer(l, sk, prefix);
    } else {
      BackwardFrame(l, Step(l, DeliverToR(sk, prefix)));
    }
  }

  lemma BackwardAtI(l: Link, prefix: seq<Byte>)
    requires Base(l) && Backward(l) && Enabled(l, DeliverToI(prefix))
    ensures Backward(Step(l, DeliverToI(prefix)))
  {
    assert KnownToI(l.s, l.toI[0]);
    if l.toI[0].AckF? {
      BackwardAck(l, prefix);
    } else {
      BackwardData(l, prefix);
    }
  }

  /** A frame of the next epoch is never at the head: the ack that begins its epoch is before it. */
  lemma HeadIsCurrent(l: Link)
    requires Backward(l) && l.toI != [] && l.toI[0].DataF?
    ensures l.toI[0].data.epochId == l.s.i.epoch
  {
    if l.s.r.epoch == l.s.i.epoch + 1 {
      var k := SomeAck(l.toI);
      assert HeldByI(l.s, l.toI[k]) && StampI(l.toI[0]) <= StampI(l.toI[k]);
    }
  }

  ghost predicate Inv(l: Link) {
    Base(l) && Forward(l) && (!l.ackLost ==> Backward(l))
  }

  lemma {:induction false} RunKeepsInv(l: Link, es: seq<Event>)
    requires Inv(l) && IsRun(l, es)
    ensures Inv(RunOf(l, es))
    decreases |es|
  {
    if es != [] {
      StepKeepsBase(l, es[0]);
      StepKeepsForward(l, es[0]);
      if !Step(l, es[0]).ackLost {
        StepKeepsBackward(l, es[0]);
      }
      RunKeepsInv(Step(l, es[0]), es[1..]);
    }
  }

  /**
   * Whatever was lost before, acks included, and however many rotations went by:
   * a data frame that reaches the responder decrypts to its plaintext.
   */
  lemma ForwardDelivery(a: Identity, b: Identity, di: nat, dr: nat, es: seq<Event>)
    requires IsRun(Start(a, b, di, dr), es)
    ensures var l := RunOf(Start(a, b, di, dr), es);
            l.toR != [] && l.toR[0].DataF? ==>
              var out := Decrypt(l.s.r, l.toR[0].data);
              out.Ok? && out.value.1 == l.toR[0].plain
  {
    RunKeepsInv(Start(a, b, di, dr), es);
  }

  /** Towards the initiator the same holds in every run that has lost no ack. */
  lemma BackwardDelivery(a: Identity, b: Identity, di: nat, dr: nat, es: seq<Event>)
    requires IsRun(Start(a, b, di, dr), es)
    ensures var l := RunOf(Start(a, b, di, dr), es);
            !l.ackLost && l.toI != [] && l.toI[0].DataF? ==>
              var out := Decrypt(l.s.i, l.toI[0].data);
              out.Ok? && out.value.1 == l.toI[0].plain
  {
    RunKeepsInv(Start(a, b, di, dr), es);
    var l := RunOf(Start(a, b, di, dr), es);
    if !l.ackLost && l.toI != [] && l.toI[0].DataF? {
      HeadIsCurrent(l);
    }
  }

  // ---- Losing an ack ----

  /** The ends are apart and no ack in flight answers the pending exchange. */
  ghost predicate CutOff(l: Link) {
    && Net.Apart(l.s) && FramesKnown(l)
    && forall k :: 0 <= k < |l.toI| && l.toI[k].AckF? ==> !Net.AnswersLatest(l.s, l.toI[k].answer)
  }

  /** The network step behind a step of the link, if there is one. */
  function NetEvent(l: Link, e: Event): Option<Net.Event>
    requires CanHappen(l, e)
  {
    match e
    case SendRotate(sk) => Some(Net.IRotate(sk))
    case SendFromI(p) => Some(Net.IEncrypt(p))
    case SendFromR(p) => Some(Net.REncrypt(p))
    case DeliverToR(sk, prefix) =>
      if l.toR[0].RotateF? then Some(Net.RHandle(l.toR[0].rotate, sk, prefix))
      else if l.toR[0].DataF? then Some(Net.RDecrypt(l.toR[0].data)) else None
    case DeliverToI(prefix) =>
      if l.toI[0].AckF? then Some(Net.IAck(l.toI[0].answer, prefix))
      else if l.toI[0].DataF? then Some(Net.IDecrypt(l.toI[0].data)) else None
    case DropToR(_) => None
    case DropToI(_) => None
  }

  lemma StepIsNetStep(l: Link, e: Event)
    requires FramesKnown(l) && CanHappen(l, e)
    ensures var n := NetEvent(l, e);
            Step(l, e).s == (if n.Some? then Net.Step(l.s, n.value) else l.s) && (n.Some? ==> Net.CanHappen(l.s, n.value))
  {
    assert l.toR != [] ==> KnownToR(l.s, l.toR[0]);
    assert l.toI != [] ==> KnownToI(l.s, l.toI[0]);
  }

  /** While the ends are apart no new ack is sent: what is in flight to the initiator was in flight before, or is data. */
  lemma NoNewAcks(l: Link, e: Event, k: nat)
    requires Net.Apart(l.s) && FramesKnown(l) && CanHappen(l, e) && k < |Step(l, e).toI| && Step(l, e).toI[k].AckF?
    ensures exists j :: 0 <= j < |l.toI| && l.toI[j] == Step(l, e).toI[k]
  {
    var q := Step(l, e).toI;
    match e
    case DropToI(d) =>
      RemoveAt(l.toI, d);
      assert q[k] == l.toI[if k < d then k else k + 1];
    case DeliverToI(_) => assert q[k] == l.toI[k + 1];
    case DeliverToR(_, _) =>
      assert KnownToR(l.s, l.toR[0]);
      assert q[k] == l.toI[k];
    case _ => assert q[k] == l.toI[k];
  }

  lemma CutOffStep(l: Link, e: Event)
    requires CutOff(l) && CanHappen(l, e)
    ensures CutOff(Step(l, e)) && Step(l, e).s.r.epoch == l.s.r.epoch
  {
    var l', n := Step(l, e), NetEvent(l, e);
    StepKeepsFrames(l, e);
    StepIsNetStep(l, e);
    if n.Some? {
      Net.ApartStep(l.s, n.value);
    }
    forall k | 0 <= k < |l'.toI| && l'.toI[k].AckF?
      ensures !Net.AnswersLatest(l'.s, l'.toI[k].answer)
    {
      NoNewAcks(l, e, k);
      var j :| 0 <= j < |l.toI| && l.toI[j] == l'.toI[k];
      assert KnownToI(l.s, l.toI[j]);
      StillUnanswered(l.s, l'.s, n, l.toI[j].answer);
    }
  }

  /** A retry uses a fresh key, which nothing sent before can answer. */
  lemma StillUnanswered(s: Net.Pair, s': Net.Pair, n: Option<Net.Event>, a: Net.Answer)
    requires Net.Apart(s) && a in s.answers && !Net.AnswersLatest(s, a)
    requires s' == (if n.Some? then Net.Step(s, n.value) else s) && (n.Some? ==> Net.CanHappen(s, n.value))
    ensures !Net.AnswersLatest(s', a)
  {
  }

  /** What the responder encrypts while the ends are apart is refused. */
  lemma ApartIsRefused(s: Net.Pair, p: Plaintext)
    requires Net.Apart(s) && Encrypt(s.r, p).Ok?
    ensures Decrypt(s.i, Encrypt(s.r, p).value.1).Err?
  {
  }

  /**
   * Losing the ack that answers the pending exchange is final: whatever is
   * sent, delivered or retried afterwards, late acks included, the responder
   * never changes epoch again, the ends never agree again, and everything the
   * responder encrypts from then on is refused.
   */
  lemma {:induction false} LostAckIsFinal(l: Link, es: seq<Event>, p: Plaintext)
    requires CutOff(l) && IsFreeRun(l, es)
    ensures var l' := FreeRunOf(l, es);
            && l'.s.r.epoch == l.s.r.epoch && !Net.Mirrored(l'.s.i, l'.s.r)
            && (Encrypt(l'.s.r, p).Ok? ==> Decrypt(l'.s.i, Encrypt(l'.s.r, p).value.1).Err?)
    decreases |es|
  {
    if es == [] {
      Net.ApartIsNotMirrored(l.s);
      if Encrypt(l.s.r, p).Ok? {
        ApartIsRefused(l.s, p);
      }
    } else {
      CutOffStep(l, es[0]);
      LostAckIsFinal(Step(l, es[0]), es[1..], p);
    }
  }

  lemma DropCutsOff(l: Link, k: nat)
    requires Inv(l) && !l.ackLost && k < |l.toI| && l.toI[k].AckF?
    ensures CutOff(Step(l, DropToI(k)))
  {
    assert HeldByI(l.s, l.toI[k]);
    Net.AheadIsApart(l.s);
    StepKeepsFrames(l, DropToI(k));
    AcksRemove(l.toI, k);
    forall j | 0 <= j < |l.toI| - 1
      ensures !Remove(l.toI, k)[j].AckF?
    {
      NoAcks(Remove(l.toI, k), j);
    }
  }

  // ---- A run from the start that loses the ack ----

  const ROTATING := [SendRotate(0), DeliverToR(1, [])]

  /** The first rotate arrives, and its ack is in flight. */
  lemma AckInFlight() returns (l: Link)
    ensures IsRun(Start("a", "b", 0, 0), ROTATING) && l == RunOf(Start("a", "b", 0, 0), ROTATING)
    ensures Inv(l) && !l.ackLost && l.toI != [] && l.toI[0].AckF?
  {
    var l0 := Start("a", "b", 0, 0);
    var l1 := RotateSent();
    l := RotateArrives(l1);
    TwoSteps(l0, ROTATING[0], ROTATING[1], l1, l);
    assert [ROTATING[0], ROTATING[1]] == ROTATING;
    ReachedInv("a", "b", 0, 0, ROTATING);
  }

  lemma ReachedInv(a: Identity, b: Identity, di: nat, dr: nat, es: seq<Event>)
    requires IsRun(Start(a, b, di, dr), es)
    ensures Inv(RunOf(Start(a, b, di, dr), es))
  {
    RunKeepsInv(Start(a, b, di, dr), es);
  }

  lemma RotateSent() returns (l1: Link)
    ensures Enabled(Start("a", "b", 0, 0), ROTATING[0]) && l1 == Step(Start("a", "b", 0, 0), ROTATING[0])
    ensures l1.toR == [RotateF(RotateOf(Init("a", Some("b"), 0), 0))] && l1.toI == [] && !l1.ackLost
    ensures l1.s.r == Init("b", Some("a"), 0) && l1.s.used == {0}
  {
    l1 := Step(Start("a", "b", 0, 0), ROTATING[0]);
  }

  lemma RotateArrives(l1: Link) returns (l: Link)
    requires l1.toR == [RotateF(RotateOf(Init("a", Some("b"), 0), 0))] && l1.toI == [] && !l1.ackLost
    requires l1.s.r == Init("b", Some("a"), 0) && l1.s.used == {0}
    ensures Enabled(l1, ROTATING[1]) && l == Step(l1, ROTATING[1]) && !l.ackLost && l.toI != [] && l.toI[0].AckF?
  {
    assert HandleRotate(l1.s.r, RotateOf(Init("a", Some("b"), 0), 0), 1, []).Ok?;
    l := Step(l1, ROTATING[1]);
  }

  lemma TwoSteps(l0: Link, a: Event, b: Event, l1: Link, l2: Link)
    requires Enabled(l0, a) && l1 == Step(l0, a) && Enabled(l1, b) && l2 == Step(l1, b)
    ensures IsRun(l0, [a, b]) && RunOf(l0, [a, b]) == l2
  {
    assert [a, b][1..] == [b] && [b][1..] == [];
    assert IsRun(l2, []) && RunOf(l2, []) == l2;
    assert IsRun(l1, [b]) && RunOf(l1, [b]) == l2;
  }

  /** Dropping it there: whatever follows, the ends never agree and the responder is never read. */
  lemma LossIsReal(es: seq<Event>, p: Plaintext)
    requires IsRun(Start("a", "b", 0, 0), ROTATING) && CanHappen(RunOf(Start("a", "b", 0, 0), ROTATING), DropToI(0))
    requires IsFreeRun(Step(RunOf(Start("a", "b", 0, 0), ROTATING), DropToI(0)), es)
    ensures var l := FreeRunOf(Step(RunOf(Start("a", "b", 0, 0), ROTATING), DropToI(0)), es);
            && !Net.Mirrored(l.s.i, l.s.r)
            && (Encrypt(l.s.r, p).Ok? ==> Decrypt(l.s.i, Encrypt(l.s.r, p).value.1).Err?)
  {
    var l := AckInFlight();
    DropCutsOff(l, 0);
    LostAckIsFinal(Step(l, DropToI(0)), es, p);
  }
}
