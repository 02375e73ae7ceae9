/**
 * An initiator and a responder over a network that may delay, reorder,
 * duplicate and lose frames: every frame ever sent stays deliverable, and
 * nothing has to be delivered. Agreement is for runs in which each ack the
 * initiator processes answers its latest rotate; what happens in all other
 * runs, and that this condition is exact, follows after it.
 */
module EpochAgreement {
  import opened Common
  import opened EpochCrypto
  import opened EpochManager

  /** An ack together with the rotate frame the responder was answering. */
  datatype Answer = Answer(ack: AckFrame, to: RotateFrame)

  datatype Pair = Pair(
    i: Manager, r: Manager,
    rotates: set<RotateFrame>, answers: set<Answer>, last: Option<Answer>,
    fromI: set<DataFrame>, fromR: set<DataFrame>,
    used: set<PrivateKey>)

  datatype Event =
    | IRotate(sk: PrivateKey)
    | RHandle(rotate: RotateFrame, sk: PrivateKey, prefix: seq<Byte>)
    | IAck(answer: Answer, prefix: seq<Byte>)
    | IEncrypt(p: Plaintext)
    | REncrypt(p: Plaintext)
    | IDecrypt(data: DataFrame)
    | RDecrypt(data: DataFrame)

  predicate AnswersLatest(s: Pair, a: Answer) {
    s.i.pending.Some? && a.to.pub == Pub(s.i.pending.value)
  }

  /** Key generation is fresh and frames come from the network; any ack may arrive at any time. */
  predicate CanHappen(s: Pair, e: Event) {
    match e
    case IRotate(sk) => sk !in s.used
    case RHandle(f, sk, _) => f in s.rotates && sk !in s.used
    case IAck(a, _) => a in s.answers
    case IEncrypt(_) => true
    case REncrypt(_) => true
    case IDecrypt(d) => d in s.fromR
    case RDecrypt(d) => d in s.fromI
  }

  /** The same under the ack hypothesis. */
  predicate Enabled(s: Pair, e: Event) {
    CanHappen(s, e) && (e.IAck? ==> AnswersLatest(s, e.answer))
  }

  function Step(s: Pair, e: Event): Pair {
    match e
    case IRotate(sk) =>
      var (i, f) := CreateRotate(s.i, sk);
      s.(i := i, rotates := s.rotates + {f}, used := s.used + {sk})
    case RHandle(f, sk, prefix) =>
      (match HandleRotate(s.r, f, sk, prefix)
       case Ok((r, ack)) =>
         s.(r := r, answers := s.answers + {Answer(ack, f)}, last := Some(Answer(ack, f)), used := s.used + {sk})
       case Err(_) => s)
    case IAck(a, prefix) =>
      (match HandleAck(s.i, a.ack, prefix)
       case Ok(i) => s.(i := i)
       case Err(_) => s)
    case IEncrypt(p) =>
      (match Encrypt(s.i, p)
       case Ok((i, d)) => s.(i := i, fromI := s.fromI + {d})
       case Err(_) => s)
    case REncrypt(p) =>
      (match Encrypt(s.r, p)
       case Ok((r, d)) => s.(r := r, fromR := s.fromR + {d})
       case Err(_) => s)
    case IDecrypt(d) =>
      (match Decrypt(s.i, d)
       case Ok((i, _)) => s.(i := i)
       case Err(_) => s)
    case RDecrypt(d) =>
      (match Decrypt(s.r, d)
       case Ok((r, _)) => s.(r := r)
       case Err(_) => s)
  }

  function Start(a: Identity, b: Identity, durationI: nat, durationR: nat): Pair {
    Pair(Init(a, Some(b), durationI), Init(b, Some(a), durationR), {}, {}, None, {}, {}, {})
  }

  ghost predicate IsRun(s: Pair, es: seq<Event>)
    decreases |es|
  {
    es == [] || (Enabled(s, es[0]) && IsRun(Step(s, es[0]), es[1..]))
  }

  /** A run in which acks of any age are processed. */
  ghost predicate IsFreeRun(s: Pair, es: seq<Event>)
    decreases |es|
  {
    es == [] || (CanHappen(s, es[0]) && IsFreeRun(Step(s, es[0]), es[1..]))
  }

  function RunOf(s: Pair, es: seq<Event>): Pair
    decreases |es|
  {
    if es == [] then s else RunOf(Step(s, es[0]), es[1..])
  }

  /** Same epoch, mirrored directional keys, equal chain hashes. */
  predicate Mirrored(i: Manager, r: Manager) {
    i.epoch == r.epoch && i.send == r.recv && i.recv == r.send && i.chain == r.chain
  }

  /** What the protocol promises about the two ends at every moment. */
  predicate InStep(s: Pair) {
    || Mirrored(s.i, s.r)
    || (s.r.epoch == s.i.epoch + 1 && s.r.prevRecv == s.i.send && s.r.prevEpoch == s.i.epoch)
  }

  // ---- Invariant ----

  ghost predicate RotatesOk(s: Pair) {
    forall f :: f in s.rotates ==>
      && f.sig == Signature(s.i.me, RotateContent(f.epochId, f.duration, f.pub, f.prevHash))
      && f.epochId <= s.i.epoch + 1
      && f.pub.owner in s.used
      && (f.epochId == s.i.epoch + 1 ==> f.prevHash == s.i.chain)
  }

  ghost predicate AnswersOk(s: Pair) {
    && (forall a :: a in s.answers ==>
          && a.ack.sig == Signature(s.r.me, AckContent(a.ack.epochId, a.ack.pub, a.ack.chain))
          && a.ack.pub.owner in s.used && a.to.pub.owner in s.used
          && a.ack.epochId <= s.r.epoch
          && s.i.pending != Some(a.ack.pub.owner)
          && (AnswersLatest(s, a) ==> s.last == Some(a) && s.r.epoch == s.i.epoch + 1))
    && (forall a, b :: a in s.answers && b in s.answers && a.ack.pub == b.ack.pub ==> a == b)
  }

  /** An ack carries the chain hash of the key its two public keys agree on. */
  ghost predicate ChainsOk(s: Pair) {
    forall a :: a in s.answers ==> a.ack.chain == HmacOf(I2RKey(a.ack.pub.owner, a.to.pub, a.ack.epochId))
  }

  /** A chain hash made with private keys that have been used. */
  predicate Traceable(h: ChainHash, used: set<PrivateKey>) {
    h.HmacOf? ==> h.key != [] && h.key[0].KeyOctet? && h.key[0].key.secret.low in used && h.key[0].key.secret.high in used
  }

  /** The initiator's chain hash, and those its rotates carried, are of keys used before; ahead, the responder has a new one. */
  ghost predicate HashesOk(s: Pair) {
    && Traceable(s.i.chain, s.used)
    && (forall f :: f in s.rotates ==> Traceable(f.prevHash, s.used))
    && (s.r.epoch == s.i.epoch + 1 ==> s.i.chain != s.r.chain)
    && (s.last.None? ==> s.answers == {})
  }

  /** The responder's keys are the ones of its last accepted rotate. */
  ghost predicate ResponderKeys(s: Pair) {
    match s.last
    case None => s.r.epoch == 0 && s.r.recv.None? && s.r.send.None? && s.r.chain == NoChain && s.r.prevRecv.None?
    case Some(a) =>
      && a in s.answers && a.ack.epochId == s.r.epoch && s.r.epoch > 0 && s.r.prevEpoch == s.r.epoch - 1
      && s.r.recv == Some(I2RKey(a.ack.pub.owner, a.to.pub, s.r.epoch))
      && s.r.send == Some(R2IKey(a.ack.pub.owner, a.to.pub, s.r.epoch))
      && s.r.chain == HmacOf(s.r.recv.value)
  }

  ghost predicate Inv(s: Pair) {
    && s.i.peer == Some(s.r.me) && s.r.peer == Some(s.i.me)
    && InStep(s)
    && RotatesOk(s) && AnswersOk(s) && ChainsOk(s) && HashesOk(s) && ResponderKeys(s)
    && (s.i.pending.Some? ==> s.i.pending.value in s.used)
    && (s.i.epoch == 0 ==> s.i.send.None? && s.i.recv.None? && s.i.chain == NoChain)
    && s.i.prevEpoch <= s.i.epoch
    && (forall d :: d in s.fromI ==> d.epochId <= s.i.epoch)
  }

  lemma RotateKeepsInv(s: Pair, sk: PrivateKey)
    requires Inv(s) && Enabled(s, IRotate(sk))
    ensures Inv(Step(s, IRotate(sk)))
  {
  }

  lemma HandleKeepsInv(s: Pair, f: RotateFrame, sk: PrivateKey, prefix: seq<Byte>)
    requires Inv(s) && Enabled(s, RHandle(f, sk, prefix))
    ensures Inv(Step(s, RHandle(f, sk, prefix)))
  {
  }

  /** The responder accepts a rotate only from the epoch both ends share. */
  lemma AcceptedRotate(s: Pair, f: RotateFrame, sk: PrivateKey, prefix: seq<Byte>)
    requires Inv(s) && f in s.rotates && HandleRotate(s.r, f, sk, prefix).Ok?
    ensures s.r.epoch == s.i.epoch && f.epochId == s.i.epoch + 1
  {
  }

  lemma AckMirrors(s: Pair, a: Answer, prefix: seq<Byte>)
    requires Inv(s) && Enabled(s, IAck(a, prefix))
    ensures HandleAck(s.i, a.ack, prefix).Ok? && Mirrored(Step(s, IAck(a, prefix)).i, s.r)
    ensures s.last == Some(a) && s.r.epoch == s.i.epoch + 1 && a.ack.epochId == s.r.epoch
  {
    assert s.last == Some(a);
  }

  lemma AckKeepsInv(s: Pair, a: Answer, prefix: seq<Byte>)
    requires Inv(s) && Enabled(s, IAck(a, prefix))
    ensures Inv(Step(s, IAck(a, prefix)))
    ensures HandleAck(s.i, a.ack, prefix).Ok? && Mirrored(Step(s, IAck(a, prefix)).i, s.r)
  {
    AckMirrors(s, a, prefix);
  }

  /** Counters, and the responder's previous key once the ends are mirrored, may change; so may the data frames sent. */
  lemma DataFrameKeepsInv(s: Pair, s': Pair)
    requires Inv(s) && s'.rotates == s.rotates && s'.answers == s.answers && s'.last == s.last && s'.used == s.used
    requires s'.i == s.i.(counter := s'.i.counter, prevRecv := s'.i.prevRecv)
    requires s'.r == s.r.(counter := s'.r.counter, prevRecv := s'.r.prevRecv)
    requires s'.r.prevRecv == s.r.prevRecv || (s'.r.prevRecv.None? && Mirrored(s.i, s.r))
    requires forall d :: d in s'.fromI ==> d.epochId <= s.i.epoch
    ensures Inv(s')
  {
  }

  /** A frame under the responder's current key was sent at its epoch, so the ends are mirrored. */
  lemma ReadsAtSameEpoch(s: Pair, d: DataFrame)
    requires Inv(s) && d in s.fromI && d.epochId == s.r.epoch
    ensures Mirrored(s.i, s.r)
  {
  }

  lemma DataKeepsInv(s: Pair, e: Event)
    requires Inv(s) && Enabled(s, e) && (e.IEncrypt? || e.REncrypt? || e.IDecrypt? || e.RDecrypt?)
    ensures Inv(Step(s, e))
  {
    match e
    case RDecrypt(d) => ReadKeepsInv(s, d);
    case REncrypt(p) => SealAtRKeepsInv(s, p);
    case IEncrypt(p) => SealAtIKeepsInv(s, p);
    case IDecrypt(d) => ReadAtIKeepsInv(s, d);
  }

  lemma SealAtRKeepsInv(s: Pair, p: Plaintext)
    requires Inv(s)
    ensures Inv(Step(s, REncrypt(p)))
  {
    DataFrameKeepsInv(s, Step(s, REncrypt(p)));
  }

  lemma SealAtIKeepsInv(s: Pair, p: Plaintext)
    requires Inv(s)
    ensures Inv(Step(s, IEncrypt(p)))
  {
    DataFrameKeepsInv(s, Step(s, IEncrypt(p)));
  }

  lemma ReadAtIKeepsInv(s: Pair, d: DataFrame)
    requires Inv(s)
    ensures Inv(Step(s, IDecrypt(d)))
  {
    DataFrameKeepsInv(s, Step(s, IDecrypt(d)));
  }

  lemma ReadKeepsInv(s: Pair, d: DataFrame)
    requires Inv(s) && d in s.fromI
    ensures Inv(Step(s, RDecrypt(d)))
  {
    if d.epochId == s.r.epoch {
      ReadsAtSameEpoch(s, d);
    }
    DataFrameKeepsInv(s, Step(s, RDecrypt(d)));
  }

  lemma StepKeepsInv(s: Pair, e: Event)
    requires Inv(s) && Enabled(s, e)
    ensures Inv(Step(s, e))
  {
    match e
    case IRotate(sk) => RotateKeepsInv(s, sk);
    case RHandle(f, sk, prefix) => HandleKeepsInv(s, f, sk, prefix);
    case IAck(a, prefix) => AckKeepsInv(s, a, prefix);
    case _ => DataKeepsInv(s, e);
  }

  lemma {:induction false} RunKeepsInv(s: Pair, es: seq<Event>)
    requires Inv(s) && IsRun(s, es)
    ensures Inv(RunOf(s, es))
    decreases |es|
  {
    if es != [] {
      StepKeepsInv(s, es[0]);
      RunKeepsInv(Step(s, es[0]), es[1..]);
    }
  }

  /**
   * Agreement. After any run the responder is at the initiator's epoch, with
   * mirrored keys and equal chain hashes, or exactly one ahead, still holding
   * the initiator's send key as its live previous receive key.
   */
  lemma Agreement(a: Identity, b: Identity, di: nat, dr: nat, es: seq<Event>)
    requires IsRun(Start(a, b, di, dr), es)
    ensures InStep(RunOf(Start(a, b, di, dr), es))
  {
    RunKeepsInv(Start(a, b, di, dr), es);
  }

  // ---- The hypothesis is exact, and the initiator could check it ----

  /** The test the ack handler leaves out: the ack's chain hash is that of the key about to be derived. */
  predicate ChainMatches(m: Manager, f: AckFrame) {
    m.pending.Some? && f.chain == HmacOf(I2RKey(m.pending.value, f.pub, f.epochId))
  }

  /** With a fresh pending key, two exchanges give one secret only if they are the same exchange. */
  lemma SameExchange(p: PrivateKey, pub: PublicKey, e: nat, own: PrivateKey, to: PublicKey, e': nat, d: Direction)
    requires p != own
    ensures KeyMaterial(Derived(Exchange(p, pub), e, d)) == KeyMaterial(Derived(Exchange(own, to), e', d)) <==>
            e == e' && pub.owner == own && to.owner == p
  {
    KeyMaterialInjective(Derived(Exchange(p, pub), e, d), Derived(Exchange(own, to), e', d));
  }

  lemma ChainMatchesIff(s: Pair, a: Answer)
    requires Inv(s) && a in s.answers
    ensures ChainMatches(s.i, a.ack) <==> AnswersLatest(s, a)
  {
    if s.i.pending.Some? {
      SameExchange(s.i.pending.value, a.ack.pub, a.ack.epochId, a.ack.pub.owner, a.to.pub, a.ack.epochId, I2R);
    }
  }

  /**
   * Take any ack the responder ever sent and let the initiator, with an
   * exchange pending, process it: the two ends agree afterwards if and only if
   * the ack's chain hash is the one the initiator would compute itself.
   */
  lemma AckAgreesIffChainMatches(s: Pair, a: Answer, prefix: seq<Byte>)
    requires Inv(s) && a in s.answers && s.i.pending.Some?
    ensures HandleAck(s.i, a.ack, prefix).Ok?
    ensures Mirrored(HandleAck(s.i, a.ack, prefix).value, s.r) <==> ChainMatches(s.i, a.ack)
  {
    ChainMatchesIff(s, a);
    if AnswersLatest(s, a) {
      AckKeepsInv(s, a, prefix);
    } else if s.last.Some? {
      var l := s.last.value;
      SameExchange(s.i.pending.value, a.ack.pub, a.ack.epochId, l.ack.pub.owner, l.to.pub, s.r.epoch, I2R);
    }
  }

  // ---- A retry that crosses an accepted rotate ends agreement for good ----

  /** Nothing sent so far, and nothing the initiator could send, would be accepted as a rotate. */
  ghost predicate NoRotateFits(s: Pair) {
    && s.i.epoch <= s.r.epoch && (s.i.epoch == s.r.epoch ==> s.i.chain != s.r.chain)
    && (forall f :: f in s.rotates ==> f.epochId <= s.r.epoch || f.prevHash != s.r.chain)
  }

  /** The acks in the network belong to earlier exchanges, with keys of their own. */
  ghost predicate AcksFixed(s: Pair) {
    && s.last.Some? && s.last.value.to.pub.owner in s.used
    && (s.i.pending.Some? ==> s.i.pending.value in s.used)
    && (forall a :: a in s.answers ==>
          && a.ack.epochId <= s.r.epoch && a.ack.pub.owner in s.used && a.to.pub.owner in s.used
          && s.i.pending != Some(a.ack.pub.owner)
          && (a.ack.pub == s.last.value.ack.pub ==> a == s.last.value))
  }

  /** The initiator does not hold the key the responder sends with, in any slot it would look in. */
  predicate Deaf(i: Manager, r: Manager) {
    && r.send.Some?
    && (i.epoch == r.epoch ==> i.recv != r.send)
    && (i.prevEpoch == r.epoch ==> i.prevRecv != r.send)
  }

  ghost predicate Apart(s: Pair) {
    NoRotateFits(s) && AcksFixed(s) && ResponderKeys(s) && Deaf(s.i, s.r)
  }

  /** The ends are apart, and no ack ever sent answers the pending exchange. */
  ghost predicate Wedged(s: Pair) {
    Apart(s) && forall a :: a in s.answers ==> !AnswersLatest(s, a)
  }

  lemma AheadIsApart(s: Pair)
    requires Inv(s) && s.r.epoch == s.i.epoch + 1
    ensures Apart(s)
  {
  }

  /** An ack that does not answer the pending exchange, however late, gives the initiator keys of its own. */
  lemma LateAckStaysApart(s: Pair, a: Answer, prefix: seq<Byte>)
    requires Apart(s) && a in s.answers && !AnswersLatest(s, a)
    ensures Apart(Step(s, IAck(a, prefix)))
  {
    if HandleAck(s.i, a.ack, prefix).Ok? {
      var l := s.last.value;
      SameExchange(s.i.pending.value, a.ack.pub, a.ack.epochId, l.ack.pub.owner, l.to.pub, s.r.epoch, I2R);
      SameExchange(s.i.pending.value, a.ack.pub, a.ack.epochId, l.ack.pub.owner, l.to.pub, s.r.epoch, R2I);
    }
  }

  /** Every step but the answering ack keeps the ends apart and leaves the responder where it is. */
  lemma ApartStep(s: Pair, e: Event)
    requires Apart(s) && CanHappen(s, e) && (e.IAck? ==> !AnswersLatest(s, e.answer))
    ensures Apart(Step(s, e)) && Step(s, e).r.epoch == s.r.epoch && Step(s, e).answers == s.answers
  {
    if e.IAck? {
      LateAckStaysApart(s, e.answer, e.prefix);
    }
  }

  lemma ApartIsNotMirrored(s: Pair)
    requires Apart(s)
    ensures !Mirrored(s.i, s.r)
  {
  }

  lemma RetryWedges(s: Pair, sk: PrivateKey)
    requires Inv(s) && s.r.epoch == s.i.epoch + 1 && CanHappen(s, IRotate(sk))
    ensures Wedged(Step(s, IRotate(sk)))
  {
    AheadIsApart(s);
    ApartStep(s, IRotate(sk));
  }

  /** The late ack of the crossed rotate is accepted all the same, and takes the initiator to the same epoch with other keys. */
  lemma LateAckDiverges(s: Pair, a: Answer, prefix: seq<Byte>)
    requires Inv(s) && Wedged(s) && s.last == Some(a) && s.i.pending.Some?
    ensures var i := HandleAck(s.i, a.ack, prefix);
            i.Ok? && i.value.epoch == s.r.epoch && i.value.send != s.r.recv && i.value.recv != s.r.send && i.value.chain != s.r.chain
  {
    var p := s.i.pending.value;
    SameExchange(p, a.ack.pub, a.ack.epochId, a.ack.pub.owner, a.to.pub, s.r.epoch, I2R);
    SameExchange(p, a.ack.pub, a.ack.epochId, a.ack.pub.owner, a.to.pub, s.r.epoch, R2I);
  }

  lemma WedgedStep(s: Pair, e: Event)
    requires Wedged(s) && CanHappen(s, e)
    ensures Wedged(Step(s, e)) && Step(s, e).r.epoch == s.r.epoch
  {
    ApartStep(s, e);
  }

  /**
   * Once wedged, whatever is retried and whichever acks arrive late: the
   * responder never changes epoch again, and the two ends never agree again.
   */
  lemma {:induction false} WedgedForever(s: Pair, es: seq<Event>)
    requires Wedged(s) && IsFreeRun(s, es)
    ensures Wedged(RunOf(s, es)) && RunOf(s, es).r.epoch == s.r.epoch && !Mirrored(RunOf(s, es).i, RunOf(s, es).r)
    decreases |es|
  {
    if es == [] {
      ApartIsNotMirrored(s);
    } else {
      WedgedStep(s, es[0]);
      WedgedForever(Step(s, es[0]), es[1..]);
    }
  }

  ghost predicate Rejoins(s: Pair, es: seq<Event>) {
    IsFreeRun(s, es) && Mirrored(RunOf(s, es).i, RunOf(s, es).r)
  }

  /** While the responder is ahead, some continuation brings the ends together if and only if the pair is not wedged. */
  lemma RecoversIff(s: Pair)
    requires Inv(s) && s.r.epoch == s.i.epoch + 1
    ensures (exists es :: Rejoins(s, es)) <==> !Wedged(s)
  {
    AheadIsApart(s);
    if Wedged(s) {
      forall es | IsFreeRun(s, es)
        ensures !Rejoins(s, es)
      {
        WedgedForever(s, es);
      }
    } else {
      var a :| a in s.answers && AnswersLatest(s, a);
      var es := [IAck(a, [])];
      var s' := Step(s, es[0]);
      AckKeepsInv(s, a, []);
      assert es[1..] == [] && RunOf(s', []) == s' && IsFreeRun(s', []);
      assert IsFreeRun(s, es) && RunOf(s, es) == s';
      assert Rejoins(s, es);
    }
  }

  // ---- Any ack that fails the chain test ends agreement for good ----

  predicate Fits(r: Manager, f: RotateFrame) {
    f.epochId > r.epoch && f.prevHash == r.chain
  }

  /**
   * The chains have parted: nothing the initiator will send fits, a rotate that
   * still fits is not of the pending exchange, and no ack answers that.
   */
  ghost predicate Parted(s: Pair) {
    && s.i.chain != s.r.chain && Traceable(s.i.chain, s.used)
    && (s.i.pending.Some? ==> s.i.pending.value in s.used)
    && (forall f :: f in s.rotates ==>
          && Traceable(f.prevHash, s.used) && f.pub.owner in s.used
          && (Fits(s.r, f) ==> s.i.pending != Some(f.pub.owner)))
    && PartedAcks(s)
  }

  ghost predicate PartedAcks(s: Pair) {
    && (forall a :: a in s.answers ==>
          && a.ack.pub.owner in s.used && a.to.pub.owner in s.used
          && s.i.pending != Some(a.ack.pub.owner) && !AnswersLatest(s, a))
    && (forall a, b :: a in s.answers && b in s.answers && a.ack.pub == b.ack.pub ==> a == b)
    && (s.last.None? ==> s.r.chain == NoChain)
    && (s.last.Some? ==>
          var l := s.last.value;
          l in s.answers && s.r.chain == HmacOf(I2RKey(l.ack.pub.owner, l.to.pub, s.r.epoch)))
  }

  /** A key derived with a new private key gives a chain hash not seen before. */
  lemma FreshChain(sk: PrivateKey, pub: PublicKey, e: nat, h: ChainHash, used: set<PrivateKey>)
    requires sk !in used && Traceable(h, used)
    ensures h != HmacOf(I2RKey(sk, pub, e))
  {
    var k := I2RKey(sk, pub, e);
    assert k[0] == KeyOctet(Derived(Exchange(sk, pub), e, I2R), 0);
  }

  lemma UsedChain(a: PrivateKey, b: PublicKey, e: nat, used: set<PrivateKey>)
    requires a in used && b.owner in used
    ensures Traceable(HmacOf(I2RKey(a, b, e)), used)
  {
    var k := I2RKey(a, b, e);
    assert k[0] == KeyOctet(Derived(Exchange(a, b), e, I2R), 0);
  }

  /** The initiator derives keys that nobody else has. */
  lemma PartedAck(s: Pair, a: Answer, prefix: seq<Byte>)
    requires Parted(s) && a in s.answers
    ensures Parted(Step(s, IAck(a, prefix)))
  {
    if HandleAck(s.i, a.ack, prefix).Ok? {
      var p := s.i.pending.value;
      UsedChain(p, a.ack.pub, a.ack.epochId, s.used);
      if s.last.Some? {
        var l := s.last.value;
        SameExchange(p, a.ack.pub, a.ack.epochId, l.ack.pub.owner, l.to.pub, s.r.epoch, I2R);
      }
    }
  }

  /** The responder accepts at most a rotate of an exchange the initiator has given up. */
  lemma PartedRotate(s: Pair, f: RotateFrame, sk: PrivateKey, prefix: seq<Byte>)
    requires Parted(s) && f in s.rotates && sk !in s.used
    ensures Parted(Step(s, RHandle(f, sk, prefix)))
  {
    if HandleRotate(s.r, f, sk, prefix).Ok? {
      FreshChain(sk, f.pub, f.epochId, s.i.chain, s.used);
      forall g | g in s.rotates
        ensures g.prevHash != HmacOf(I2RKey(sk, f.pub, f.epochId))
      {
        FreshChain(sk, f.pub, f.epochId, g.prevHash, s.used);
      }
    }
  }

  lemma PartedStep(s: Pair, e: Event)
    requires Parted(s) && CanHappen(s, e)
    ensures Parted(Step(s, e))
  {
    match e
    case IAck(a, prefix) => PartedAck(s, a, prefix);
    case RHandle(f, sk, prefix) => PartedRotate(s, f, sk, prefix);
    case _ =>
  }

  lemma {:induction false} PartedForever(s: Pair, es: seq<Event>)
    requires Parted(s) && IsFreeRun(s, es)
    ensures !Mirrored(RunOf(s, es).i, RunOf(s, es).r)
    decreases |es|
  {
    if es != [] {
      PartedStep(s, es[0]);
      PartedForever(Step(s, es[0]), es[1..]);
    }
  }

  lemma WrongAckParts(s: Pair, a: Answer, prefix: seq<Byte>)
    requires Inv(s) && a in s.answers && s.i.pending.Some? && !ChainMatches(s.i, a.ack)
    ensures Parted(Step(s, IAck(a, prefix)))
  {
    var p, l := s.i.pending.value, s.last.value;
    ChainMatchesIff(s, a);
    UsedChain(p, a.ack.pub, a.ack.epochId, s.used);
    SameExchange(p, a.ack.pub, a.ack.epochId, l.ack.pub.owner, l.to.pub, s.r.epoch, I2R);
  }

  /**
   * What one ack decides, whether the responder is ahead or the ends are in
   * step: if it passes the chain test they agree at once, and if it fails no
   * continuation whatever brings them together again.
   */
  lemma AckDecides(s: Pair, a: Answer, prefix: seq<Byte>)
    requires Inv(s) && a in s.answers && s.i.pending.Some?
    ensures (exists es :: Rejoins(Step(s, IAck(a, prefix)), es)) <==> ChainMatches(s.i, a.ack)
  {
    var s' := Step(s, IAck(a, prefix));
    if ChainMatches(s.i, a.ack) {
      AckAgreesIffChainMatches(s, a, prefix);
      assert RunOf(s', []) == s' && Rejoins(s', []);
    } else {
      WrongAckParts(s, a, prefix);
      forall es | IsFreeRun(s', es)
        ensures !Rejoins(s', es)
      {
        PartedForever(s', es);
      }
    }
  }

  // ---- Restarts from a saved row ----

  /** An initiator that restarts from its row keeps the invariant: agreement survives, only a pending exchange is forgotten. */
  lemma RestartKeepsInv(s: Pair, duration: nat)
    requires Inv(s) && Active(s.i)
    ensures Inv(s.(i := Restarted(s.i, duration)))
    ensures Mirrored(Restarted(s.i, duration), s.r) <==> Mirrored(s.i, s.r)
  {
    PersistLoadRoundTrip(s.i, duration, Unwrapped(true, true));
  }

  /** Its next rotate is accepted exactly when the responder is not ahead, and the ack to it mirrors the keys. */
  lemma RestartedRotateIff(s: Pair, duration: nat, sk: PrivateKey, sk': PrivateKey, prefix: seq<Byte>, prefix': seq<Byte>)
    requires Inv(s) && Active(s.i) && sk !in s.used && sk' !in s.used && sk != sk'
    ensures var (i, f) := CreateRotate(Restarted(s.i, duration), sk);
            var answer := HandleRotate(s.r, f, sk', prefix);
            && (answer.Ok? <==> s.r.epoch == s.i.epoch)
            && (answer.Ok? ==>
                  var i' := HandleAck(i, answer.value.1, prefix');
                  i'.Ok? && Mirrored(i'.value, answer.value.0))
  {
    var s0 := s.(i := Restarted(s.i, duration));
    RestartKeepsInv(s, duration);
    var f := RotateOf(s0.i, sk);
    var s1 := Step(s0, IRotate(sk));
    RotateKeepsInv(s0, sk);
    if HandleRotate(s.r, f, sk', prefix).Ok? {
      AcceptedRotate(s1, f, sk', prefix);
      var a := Answer(HandleRotate(s.r, f, sk', prefix).value.1, f);
      HandleKeepsInv(s1, f, sk', prefix);
      AckMirrors(Step(s1, RHandle(f, sk', prefix)), a, prefix');
    }
  }

  /** A responder that restarts in step with the initiator stays mirrored and accepts its next rotate. */
  lemma RestartedResponder(s: Pair, duration: nat, sk: PrivateKey, sk': PrivateKey, prefix: seq<Byte>)
    requires Inv(s) && Active(s.r) && s.r.epoch == s.i.epoch
    ensures Mirrored(s.i, Restarted(s.r, duration))
    ensures HandleRotate(Restarted(s.r, duration), RotateOf(s.i, sk), sk', prefix).Ok?
  {
    PersistLoadRoundTrip(s.r, duration, Unwrapped(true, true));
  }

  // ---- Runs from the start that end badly ----

  lemma RunCons(s: Pair, e: Event, es: seq<Event>)
    ensures IsRun(s, [e] + es) <==> Enabled(s, e) && IsRun(Step(s, e), es)
    ensures IsFreeRun(s, [e] + es) <==> CanHappen(s, e) && IsFreeRun(Step(s, e), es)
    ensures RunOf(s, [e] + es) == RunOf(Step(s, e), es)
  {
    assert ([e] + es)[1..] == es;
  }

  const FIRST := RotateOf(Init("a", Some("b"), 0), 0)

  /** A rotate is accepted, and the initiator retries before the ack arrives. */
  const WEDGING := [IRotate(0), RHandle(FIRST, 1, []), IRotate(2)]

  lemma ThreeSteps(s0: Pair, a: Event, b: Event, c: Event, s1: Pair, s2: Pair, s3: Pair)
    requires Enabled(s0, a) && s1 == Step(s0, a) && Enabled(s1, b) && s2 == Step(s1, b) && Enabled(s2, c) && s3 == Step(s2, c)
    ensures IsRun(s0, [a, b, c]) && RunOf(s0, [a, b, c]) == s3
  {
    assert IsRun(s3, []) && RunOf(s3, []) == s3;
    RunCons(s2, c, []);
    RunCons(s1, b, [c] + []);
    RunCons(s0, a, [b] + ([c] + []));
    assert [a] + ([b] + ([c] + [])) == [a, b, c];
  }

  /** After the first rotate has been accepted. */
  lemma SwitchReached() returns (s1: Pair, s2: Pair)
    ensures var s0 := Start("a", "b", 0, 0);
            && Enabled(s0, WEDGING[0]) && s1 == Step(s0, WEDGING[0])
            && Enabled(s1, WEDGING[1]) && s2 == Step(s1, WEDGING[1])
            && Inv(s2) && s2.r.epoch == s2.i.epoch + 1 && s2.used == {0, 1} && s2.last.Some?
  {
    var s0 := Start("a", "b", 0, 0);
    s1 := Step(s0, WEDGING[0]);
    assert s1.rotates == {FIRST} && s1.used == {0};
    StepKeepsInv(s0, WEDGING[0]);
    s2 := Step(s1, WEDGING[1]);
    StepKeepsInv(s1, WEDGING[1]);
    assert HandleRotate(s1.r, FIRST, 1, []).Ok?;
  }

  lemma WedgeReached() returns (s: Pair)
    ensures IsRun(Start("a", "b", 0, 0), WEDGING) && s == RunOf(Start("a", "b", 0, 0), WEDGING)
    ensures Inv(s) && Wedged(s) && s.last.Some? && s.last.value in s.answers && s.i.pending.Some?
  {
    var s1, s2 := SwitchReached();
    s := Step(s2, WEDGING[2]);
    StepKeepsInv(s2, WEDGING[2]);
    RetryWedges(s2, 2);
    ThreeSteps(Start("a", "b", 0, 0), WEDGING[0], WEDGING[1], WEDGING[2], s1, s2, s);
    assert [WEDGING[0], WEDGING[1], WEDGING[2]] == WEDGING;
  }

  /** So the late ack is accepted there, fails the chain test, and agreement is gone for good. */
  lemma WedgeIsReal(prefix: seq<Byte>, es: seq<Event>)
    requires IsFreeRun(RunOf(Start("a", "b", 0, 0), WEDGING), es)
    ensures var s := RunOf(Start("a", "b", 0, 0), WEDGING);
            && !Mirrored(RunOf(s, es).i, RunOf(s, es).r)
            && s.last.Some? && HandleAck(s.i, s.last.value.ack, prefix).Ok? && !ChainMatches(s.i, s.last.value.ack)
  {
    var s := WedgeReached();
    WedgedForever(s, es);
    LateAckDiverges(s, s.last.value, prefix);
    ChainMatchesIff(s, s.last.value);
  }
}
