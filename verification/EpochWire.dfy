/**
 * Binary codecs: the three epoch frames, the 2-byte length framing of sync
 * messages, and the first-byte test the link layer uses to tell them apart.
 */
module EpochWire {
  import opened Common

  const EPOCH_ROTATE: Byte := 0x20
  const EPOCH_ROTATE_ACK: Byte := 0x21
  const EPOCH_DATA: Byte := 0x22
  const EPOCH_ROTATE_LEN := 141
  const EPOCH_ROTATE_ACK_LEN := 137
  const EPOCH_DATA_HEADER_LEN := 33
  const MAX_FRAME_SIZE := 65535

  datatype WireError = TooShort | WrongType | TooLarge | LengthMismatch | OutOfRange

  datatype Rotate = Rotate(epochId: nat, duration: nat, pubkey: seq<Byte>, prevHash: seq<Byte>, signature: seq<Byte>)

  datatype Ack = Ack(epochId: nat, pubkey: seq<Byte>, prevHash: seq<Byte>, signature: seq<Byte>)

  datatype Data = Data(epochId: nat, nonce: seq<Byte>, ciphertext: seq<Byte>)

  // ---- Big-endian integers (struct.pack ">Q", ">I", ">H") ----

  function Pow256(w: nat): (p: nat)
    ensures p > 0
  {
    if w == 0 then 1 else 256 * Pow256(w - 1)
  }

  /** `w` bytes, most significant first; the caller keeps `n` below `256^w`. */
  function Pack(n: nat, w: nat): (b: seq<Byte>)
    ensures |b| == w
  {
    if w == 0 then [] else Pack(n / 256, w - 1) + [n % 256]
  }

  function Unpack(b: seq<Byte>): (n: nat)
    ensures n < Pow256(|b|)
  {
    if b == [] then 0 else Unpack(b[..|b| - 1]) * 256 + b[|b| - 1]
  }

  lemma {:induction false} UnpackPack(n: nat, w: nat)
    requires n < Pow256(w)
    ensures Unpack(Pack(n, w)) == n
  {
    if w > 0 {
      UnpackPack(n / 256, w - 1);
      assert Pack(n, w)[..w - 1] == Pack(n / 256, w - 1);
    }
  }

  lemma {:induction false} PackUnpack(b: seq<Byte>)
    ensures Pack(Unpack(b), |b|) == b
  {
    if b != [] {
      PackUnpack(b[..|b| - 1]);
      assert Unpack(b) / 256 == Unpack(b[..|b| - 1]) && Unpack(b) % 256 == b[|b| - 1];
    }
  }

  /** Distinct in-range integers have distinct encodings. */
  lemma PackInjective(m: nat, n: nat, w: nat)
    requires m < Pow256(w) && n < Pow256(w)
    requires Pack(m, w) == Pack(n, w)
    ensures m == n
  {
    UnpackPack(m, w);
    UnpackPack(n, w);
  }

  // ---- Epoch frames ----

  predicate RotateFits(f: Rotate) {
    && f.epochId < Pow256(8) && f.duration < Pow256(4)
    && |f.pubkey| == 32 && |f.prevHash| == 32 && |f.signature| == 64
  }

  predicate AckFits(f: Ack) {
    f.epochId < Pow256(8) && |f.pubkey| == 32 && |f.prevHash| == 32 && |f.signature| == 64
  }

  predicate DataFits(f: Data) {
    f.epochId < Pow256(8) && |f.nonce| == 24
  }

  /** struct.pack raises when an integer field is out of range. */
  function EncodeRotate(f: Rotate): Result<seq<Byte>, WireError> {
    if f.epochId >= Pow256(8) || f.duration >= Pow256(4) then Err(OutOfRange)
    else Ok([EPOCH_ROTATE] + Pack(f.epochId, 8) + Pack(f.duration, 4) + f.pubkey + f.prevHash + f.signature)
  }

  function DecodeRotate(d: seq<Byte>): Result<Rotate, WireError> {
    if |d| < EPOCH_ROTATE_LEN then Err(TooShort)
    else if d[0] != EPOCH_ROTATE then Err(WrongType)
    else Ok(Rotate(Unpack(d[1..9]), Unpack(d[9..13]), d[13..45], d[45..77], d[77..141]))
  }

  function EncodeAck(f: Ack): Result<seq<Byte>, WireError> {
    if f.epochId >= Pow256(8) then Err(OutOfRange)
    else Ok([EPOCH_ROTATE_ACK] + Pack(f.epochId, 8) + f.pubkey + f.prevHash + f.signature)
  }

  function DecodeAck(d: seq<Byte>): Result<Ack, WireError> {
    if |d| < EPOCH_ROTATE_ACK_LEN then Err(TooShort)
    else if d[0] != EPOCH_ROTATE_ACK then Err(WrongType)
    else Ok(Ack(Unpack(d[1..9]), d[9..41], d[41..73], d[73..137]))
  }

  function EncodeData(f: Data): Result<seq<Byte>, WireError> {
    if f.epochId >= Pow256(8) then Err(OutOfRange)
    else Ok([EPOCH_DATA] + Pack(f.epochId, 8) + f.nonce + f.ciphertext)
  }

  function DecodeData(d: seq<Byte>): Result<Data, WireError> {
    if |d| < EPOCH_DATA_HEADER_LEN then Err(TooShort)
    else if d[0] != EPOCH_DATA then Err(WrongType)
    else Ok(Data(Unpack(d[1..9]), d[9..33], d[33..]))
  }

  lemma RotateRoundTrip(f: Rotate)
    requires RotateFits(f)
    ensures EncodeRotate(f).Ok? && |EncodeRotate(f).value| == EPOCH_ROTATE_LEN
    ensures DecodeRotate(EncodeRotate(f).value) == Ok(f)
  {
    UnpackPack(f.epochId, 8);
    UnpackPack(f.duration, 4);
    var d := EncodeRotate(f).value;
    assert d[1..9] == Pack(f.epochId, 8);
    assert d[9..13] == Pack(f.duration, 4);
    assert d[13..45] == f.pubkey && d[45..77] == f.prevHash && d[77..141] == f.signature;
  }

  /** Every frame of the exact length that decodes is the encoding of what it decodes to. */
  lemma RotateCanonical(d: seq<Byte>)
    requires |d| == EPOCH_ROTATE_LEN && DecodeRotate(d).Ok?
    ensures RotateFits(DecodeRotate(d).value)
    ensures EncodeRotate(DecodeRotate(d).value) == Ok(d)
  {
    PackUnpack(d[1..9]);
    PackUnpack(d[9..13]);
    assert d == [d[0]] + d[1..9] + d[9..13] + d[13..45] + d[45..77] + d[77..141];
  }

  lemma AckRoundTrip(f: Ack)
    requires AckFits(f)
    ensures EncodeAck(f).Ok? && |EncodeAck(f).value| == EPOCH_ROTATE_ACK_LEN
    ensures DecodeAck(EncodeAck(f).value) == Ok(f)
  {
    UnpackPack(f.epochId, 8);
    var d := EncodeAck(f).value;
    assert d[1..9] == Pack(f.epochId, 8);
    assert d[9..41] == f.pubkey && d[41..73] == f.prevHash && d[73..137] == f.signature;
  }

  lemma AckCanonical(d: seq<Byte>)
    requires |d| == EPOCH_ROTATE_ACK_LEN && DecodeAck(d).Ok?
    ensures AckFits(DecodeAck(d).value)
    ensures EncodeAck(DecodeAck(d).value) == Ok(d)
  {
    PackUnpack(d[1..9]);
    assert d == [d[0]] + d[1..9] + d[9..41] + d[41..73] + d[73..137];
  }

  lemma DataRoundTrip(f: Data)
    requires DataFits(f)
    ensures EncodeData(f).Ok? && DecodeData(EncodeData(f).value) == Ok(f)
  {
    UnpackPack(f.epochId, 8);
    var d := EncodeData(f).value;
    assert d[1..9] == Pack(f.epochId, 8);
    assert d[9..33] == f.nonce && d[33..] == f.ciphertext;
  }

  /** A data frame has no fixed length, so every one that decodes is canonical. */
  lemma DataCanonical(d: seq<Byte>)
    requires DecodeData(d).Ok?
    ensures DataFits(DecodeData(d).value)
    ensures EncodeData(DecodeData(d).value) == Ok(d)
  {
    PackUnpack(d[1..9]);
    assert d == [d[0]] + d[1..9] + d[9..33] + d[33..];
  }

  // ---- Length framing of sync messages ----

  function AddLengthHeader(payload: seq<Byte>): Result<seq<Byte>, WireError> {
    if |payload| > MAX_FRAME_SIZE then Err(TooLarge) else Ok(Pack(|payload|, 2) + payload)
  }

  function StripLengthHeader(d: seq<Byte>): Result<seq<Byte>, WireError> {
    if |d| < 2 then Err(TooShort)
    else if |d| - 2 != Unpack(d[..2]) then Err(LengthMismatch)
    else Ok(d[2..])
  }

  /** Framing succeeds exactly up to 65535 bytes, and stripping undoes it. */
  lemma FramingRoundTrip(payload: seq<Byte>)
    ensures AddLengthHeader(payload).Ok? <==> |payload| <= 65535
    ensures |payload| <= 65535 ==> StripLengthHeader(AddLengthHeader(payload).value) == Ok(payload)
  {
    if |payload| <= 65535 {
      assert Pow256(2) == 65536;
      UnpackPack(|payload|, 2);
      var d := AddLengthHeader(payload).value;
      assert d[..2] == Pack(|payload|, 2) && d[2..] == payload;
    }
  }

  /** Conversely, whatever strips is exactly one framed payload: no two frames share a payload. */
  lemma FramingCanonical(d: seq<Byte>)
    requires StripLengthHeader(d).Ok?
    ensures AddLengthHeader(StripLengthHeader(d).value) == Ok(d)
  {
    assert Pow256(2) == 65536;
    PackUnpack(d[..2]);
    assert d == d[..2] + d[2..];
  }

  predicate IsEpochFrame(d: seq<Byte>) {
    d != [] && d[0] in [EPOCH_ROTATE, EPOCH_ROTATE_ACK, EPOCH_DATA]
  }

  /**
   * The link layer tests the first byte before it strips the length header.
   * For a framed sync message that byte is the high half of the payload length,
   * so the test errs exactly on payloads of 8192 to 8959 bytes.
   */
  lemma FramedPayloadMisread(payload: seq<Byte>)
    requires |payload| <= MAX_FRAME_SIZE
    ensures IsEpochFrame(AddLengthHeader(payload).value) <==> 8192 <= |payload| < 8960
  {
    var n := |payload|;
    assert Pack(n, 2) == Pack(n / 256, 1) + [n % 256];
    assert Pack(n / 256, 1) == Pack(n / 256 / 256, 0) + [n / 256 % 256];
    assert AddLengthHeader(payload).value[0] == n / 256;
  }
}
