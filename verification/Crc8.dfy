/**
 * The invite checksum: the loop as written (most significant bit first,
 * polynomial 0x31, initial value 0) and the errors it is certain to catch.
 */
module Crc8 {
  /** A byte, as its bits from the most significant down. */
  datatype Octet = Octet(b7: bool, b6: bool, b5: bool, b4: bool, b3: bool, b2: bool, b1: bool, b0: bool)

  const ZERO := Octet(false, false, false, false, false, false, false, false)
  const POLY := Octet(false, false, true, true, false, false, false, true)

  function XorByte(x: Octet, y: Octet): Octet {
    Octet(x.b7 != y.b7, x.b6 != y.b6, x.b5 != y.b5, x.b4 != y.b4, x.b3 != y.b3, x.b2 != y.b2, x.b1 != y.b1, x.b0 != y.b0)
  }

  /** `x << 1`, masked to eight bits. */
  function Double(x: Octet): Octet {
    Octet(x.b6, x.b5, x.b4, x.b3, x.b2, x.b1, x.b0, false)
  }

  /** One turn of the inner loop. */
  function Shift(crc: Octet): Octet {
    if crc.b7 then XorByte(Double(crc), POLY) else Double(crc)
  }

  function Shifts(crc: Octet, n: nat): Octet {
    if n == 0 then crc else Shift(Shifts(crc, n - 1))
  }

  function CrcFrom(crc: Octet, data: seq<Octet>): Octet
    decreases |data|
  {
    if data == [] then crc else CrcFrom(Shifts(XorByte(crc, data[0]), 8), data[1..])
  }

  function Crc(data: seq<Octet>): Octet {
    CrcFrom(ZERO, data)
  }

  method ComputeCrc(data: seq<Octet>) returns (crc: Octet)
    ensures crc == Crc(data)
  {
    crc := ZERO;
    for k := 0 to |data|
      invariant CrcFrom(crc, data[k..]) == Crc(data)
    {
      crc := XorByte(crc, data[k]);
      ghost var start := crc;
      for j := 0 to 8
        invariant crc == Shifts(start, j)
      {
        if crc.b7 {
          crc := XorByte(Double(crc), POLY);
        } else {
          crc := Double(crc);
        }
      }
      assert data[k..][1..] == data[k + 1..];
    }
  }

  // ---- Linearity ----

  /** The turn without its branch: the top bit is fed back at the polynomial's places. */
  function Feedback(x: Octet): Octet {
    Octet(x.b6, x.b5, x.b4 != x.b7, x.b3 != x.b7, x.b2, x.b1, x.b0, x.b7)
  }

  lemma ShiftIsFeedback(x: Octet)
    ensures Shift(x) == Feedback(x)
  {
  }

  lemma FeedbackXor(a: Octet, b: Octet)
    ensures Feedback(XorByte(a, b)) == XorByte(Feedback(a), Feedback(b))
  {
  }

  lemma ShiftXor(a: Octet, b: Octet)
    ensures Shift(XorByte(a, b)) == XorByte(Shift(a), Shift(b))
  {
    ShiftIsFeedback(a);
    ShiftIsFeedback(b);
    ShiftIsFeedback(XorByte(a, b));
    FeedbackXor(a, b);
  }

  lemma {:induction false} ShiftsXor(a: Octet, b: Octet, n: nat)
    ensures Shifts(XorByte(a, b), n) == XorByte(Shifts(a, n), Shifts(b, n))
  {
    if n > 0 {
      ShiftsXor(a, b, n - 1);
      ShiftXor(Shifts(a, n - 1), Shifts(b, n - 1));
    }
  }

  function Xor(a: seq<Octet>, b: seq<Octet>): (r: seq<Octet>)
    requires |a| == |b|
    ensures |r| == |a| && forall i :: 0 <= i < |a| ==> r[i] == XorByte(a[i], b[i])
  {
    seq(|a|, i requires 0 <= i < |a| => XorByte(a[i], b[i]))
  }

  lemma XorSwap(a: Octet, b: Octet, c: Octet, d: Octet)
    ensures XorByte(XorByte(a, b), XorByte(c, d)) == XorByte(XorByte(a, c), XorByte(b, d))
  {
  }

  lemma XorZero(a: Octet, b: Octet)
    ensures XorByte(a, b) == ZERO <==> a == b
    ensures XorByte(a, ZERO) == a && XorByte(ZERO, a) == a
  {
  }

  /** The checksum of a difference is the difference of the checksums. */
  lemma {:induction false} CrcXor(c: Octet, d: Octet, a: seq<Octet>, b: seq<Octet>)
    requires |a| == |b|
    ensures CrcFrom(XorByte(c, d), Xor(a, b)) == XorByte(CrcFrom(c, a), CrcFrom(d, b))
    decreases |a|
  {
    if a != [] {
      var x, y := XorByte(c, a[0]), XorByte(d, b[0]);
      XorSwap(c, d, a[0], b[0]);
      ShiftsXor(x, y, 8);
      assert Xor(a, b)[1..] == Xor(a[1..], b[1..]);
      CrcXor(Shifts(x, 8), Shifts(y, 8), a[1..], b[1..]);
    }
  }

  // ---- Codewords ----

  lemma {:induction false} CrcAppend(c: Octet, a: seq<Octet>, b: seq<Octet>)
    ensures CrcFrom(c, a + b) == CrcFrom(CrcFrom(c, a), b)
    decreases |a|
  {
    if a == [] {
      assert a + b == b;
    } else {
      assert (a + b)[1..] == a[1..] + b;
      CrcAppend(Shifts(XorByte(c, a[0]), 8), a[1..], b);
    }
  }

  /** The step is invertible: only zero is taken to zero. */
  lemma {:induction false} ShiftsZero(x: Octet, n: nat)
    ensures Shifts(x, n) == ZERO <==> x == ZERO
  {
    if n > 0 {
      ShiftsZero(x, n - 1);
    }
  }

  /** Data followed by one byte is a codeword exactly when that byte is the data's checksum. */
  lemma CodewordIff(raw: seq<Octet>, check: Octet)
    ensures Crc(raw + [check]) == ZERO <==> check == Crc(raw)
  {
    CrcAppend(ZERO, raw, [check]);
    var x := XorByte(Crc(raw), check);
    ShiftsZero(x, 8);
    XorZero(Crc(raw), check);
    assert CrcFrom(Crc(raw), [check]) == CrcFrom(Shifts(x, 8), []);
  }

  // ---- Burst errors ----

  predicate AllZero(e: seq<Octet>) {
    forall i :: 0 <= i < |e| ==> e[i] == ZERO
  }

  lemma {:induction false} CrcOfZeros(c: Octet, e: seq<Octet>)
    requires AllZero(e)
    ensures CrcFrom(c, e) == ZERO <==> c == ZERO
    decreases |e|
  {
    if e != [] {
      XorZero(c, ZERO);
      ShiftsZero(c, 8);
      CrcOfZeros(Shifts(c, 8), e[1..]);
    }
  }

  /** Bit `i`, counted from the most significant. */
  function Bit(x: Octet, i: nat): bool
    requires i < 8
  {
    if i == 0 then x.b7 else if i == 1 then x.b6 else if i == 2 then x.b5 else if i == 3 then x.b4
    else if i == 4 then x.b3 else if i == 5 then x.b2 else if i == 6 then x.b1 else x.b0
  }

  function BitsOf(x: Octet): (r: seq<bool>)
    ensures |r| == 8 && forall i :: 0 <= i < 8 ==> r[i] == Bit(x, i)
  {
    seq(8, i requires 0 <= i < 8 => Bit(x, i))
  }

  predicate From(s: nat, a: Octet) {
    forall i :: 0 <= i < 8 && Bit(a, i) ==> i >= s
  }

  predicate Below(s: nat, b: Octet) {
    forall i :: 0 <= i < 8 && Bit(b, i) ==> i < s
  }

  /** Two neighbouring bytes whose set bits all lie within eight consecutive ones, `s` bits into the first. */
  predicate InWindow(s: nat, a: Octet, b: Octet) {
    From(s, a) && Below(s, b)
  }

  lemma HeadBits(s: nat, a: Octet)
    requires From(s, a)
    ensures (a.b7 ==> s <= 0) && (a.b6 ==> s <= 1) && (a.b5 ==> s <= 2) && (a.b4 ==> s <= 3)
    ensures (a.b3 ==> s <= 4) && (a.b2 ==> s <= 5) && (a.b1 ==> s <= 6) && (a.b0 ==> s <= 7)
  {
    assert Bit(a, 0) == a.b7 && Bit(a, 1) == a.b6 && Bit(a, 2) == a.b5 && Bit(a, 3) == a.b4;
    assert Bit(a, 4) == a.b3 && Bit(a, 5) == a.b2 && Bit(a, 6) == a.b1 && Bit(a, 7) == a.b0;
  }

  lemma TailBits(s: nat, b: Octet)
    requires Below(s, b)
    ensures (b.b7 ==> 0 < s) && (b.b6 ==> 1 < s) && (b.b5 ==> 2 < s) && (b.b4 ==> 3 < s)
    ensures (b.b3 ==> 4 < s) && (b.b2 ==> 5 < s) && (b.b1 ==> 6 < s) && (b.b0 ==> 7 < s)
  {
    assert Bit(b, 0) == b.b7 && Bit(b, 1) == b.b6 && Bit(b, 2) == b.b5 && Bit(b, 3) == b.b4;
    assert Bit(b, 4) == b.b3 && Bit(b, 5) == b.b2 && Bit(b, 6) == b.b1 && Bit(b, 7) == b.b0;
  }

  /** Two, four and eight turns at once. */
  function Two(x: Octet): Octet {
    Octet(x.b5, x.b4 != x.b7, x.b3 != (x.b6 != x.b7), x.b2 != x.b6, x.b1, x.b0, x.b7, x.b6)
  }

  function Eight(x: Octet): Octet {
    Octet(x.b5 != (x.b3 != x.b2),
          x.b7 != (x.b4 != (x.b2 != x.b1)),
          x.b7 != (x.b6 != (x.b3 != (x.b1 != x.b0))),
          x.b7 != (x.b6 != (x.b3 != x.b0)),
          x.b7 != (x.b6 != x.b3),
          x.b6 != (x.b5 != x.b2),
          x.b7 != (x.b5 != (x.b4 != x.b1)),
          x.b6 != (x.b4 != (x.b3 != x.b0)))
  }

  lemma TwoShifts(x: Octet, n: nat)
    ensures Shifts(x, n + 2) == Two(Shifts(x, n))
  {
    var y := Shifts(x, n);
    ShiftIsFeedback(y);
    ShiftIsFeedback(Feedback(y));
    assert Shifts(x, n + 1) == Shift(y);
  }

  function Four(x: Octet): Octet {
    Octet(x.b7 != (x.b6 != x.b3),
          x.b6 != (x.b5 != x.b2),
          x.b7 != (x.b5 != (x.b4 != x.b1)),
          x.b7 != (x.b4 != x.b0),
          x.b7, x.b6, x.b5,
          x.b7 != x.b4)
  }

  lemma TwoTwice(x: Octet)
    ensures Two(Two(x)) == Four(x)
  {
  }

  lemma FourTwice(x: Octet)
    ensures Four(Four(x)) == Eight(x)
  {
  }

  lemma FourShifts(x: Octet, n: nat, y: Octet)
    requires y == Shifts(x, n)
    ensures Shifts(x, n + 4) == Four(y)
  {
    TwoShifts(x, n);
    TwoShifts(x, n + 2);
    TwoTwice(y);
  }

  lemma EightShifts(x: Octet, n: nat)
    requires n == 8
    ensures Shifts(x, n) == Eight(x)
  {
    FourShifts(x, n - 8, x);
    FourShifts(x, n - 4, Four(x));
    FourTwice(x);
  }

  lemma EightInWindow(s: nat, a: Octet)
    requires s < 8
    requires (a.b7 ==> s <= 0) && (a.b6 ==> s <= 1) && (a.b5 ==> s <= 2) && (a.b4 ==> s <= 3)
    requires (a.b3 ==> s <= 4) && (a.b2 ==> s <= 5) && (a.b1 ==> s <= 6) && (a.b0 ==> s <= 7)
    requires var b := Eight(a); (b.b7 ==> 0 < s) && (b.b6 ==> 1 < s) && (b.b5 ==> 2 < s) && (b.b4 ==> 3 < s)
    requires var b := Eight(a); (b.b3 ==> 4 < s) && (b.b2 ==> 5 < s) && (b.b1 ==> 6 < s) && !b.b0
    ensures a == ZERO
  {
  }

  /** No non-zero pattern within eight consecutive bits is divisible by the polynomial. */
  lemma WindowNotDivisible(s: nat, a: Octet, b: Octet)
    requires s < 8 && InWindow(s, a, b) && Shifts(a, 8) == b
    ensures a == ZERO && b == ZERO
  {
    HeadBits(s, a);
    TailBits(s, b);
    EightShifts(a, 8);
    EightInWindow(s, a);
  }

  // ---- Whole words ----

  function Flatten(w: seq<Octet>): (bits: seq<bool>)
    ensures |bits| == 8 * |w|
  {
    if w == [] then [] else BitsOf(w[0]) + Flatten(w[1..])
  }

  lemma {:induction false} FlattenAt(w: seq<Octet>, k: nat, i: nat)
    requires k < |w| && i < 8
    ensures Flatten(w)[8 * k + i] == Bit(w[k], i)
  {
    if k > 0 {
      FlattenAt(w[1..], k - 1, i);
    }
  }

  /** The two words agree outside eight consecutive bits. */
  ghost predicate AgreeOutside(w: seq<Octet>, w': seq<Octet>, p: nat) {
    |w| == |w'| && forall n :: 0 <= n < 8 * |w| && !(p <= n < p + 8) ==> Flatten(w)[n] == Flatten(w')[n]
  }

  lemma HighBitsDiffer(x: Octet, y: Octet, i: nat)
    requires i < 4
    ensures Bit(XorByte(x, y), i) == (Bit(x, i) != Bit(y, i))
  {
    var z := XorByte(x, y);
    match i
    case 0 => assert Bit(z, 0) == z.b7;
    case 1 => assert Bit(z, 1) == z.b6;
    case 2 => assert Bit(z, 2) == z.b5;
    case _ => assert Bit(z, 3) == z.b4;
  }

  lemma LowBitsDiffer(x: Octet, y: Octet, i: nat)
    requires 4 <= i < 8
    ensures Bit(XorByte(x, y), i) == (Bit(x, i) != Bit(y, i))
  {
    var z := XorByte(x, y);
    match i
    case 4 => assert Bit(z, 4) == z.b3;
    case 5 => assert Bit(z, 5) == z.b2;
    case 6 => assert Bit(z, 6) == z.b1;
    case _ => assert Bit(z, 7) == z.b0;
  }

  lemma BitsDiffer(x: Octet, y: Octet, i: nat)
    requires i < 8
    ensures Bit(XorByte(x, y), i) == (Bit(x, i) != Bit(y, i))
  {
    if i < 4 {
      HighBitsDiffer(x, y, i);
    } else {
      LowBitsDiffer(x, y, i);
    }
  }

  lemma AgreeAt(w: seq<Octet>, w': seq<Octet>, p: nat, k: nat, i: nat)
    requires AgreeOutside(w, w', p) && k < |w| && i < 8 && !(p <= 8 * k + i < p + 8)
    ensures !Bit(XorByte(w[k], w'[k]), i)
  {
    FlattenAt(w, k, i);
    FlattenAt(w', k, i);
    BitsDiffer(w[k], w'[k], i);
  }

  lemma NoBitsIsZero(x: Octet)
    requires From(8, x)
    ensures x == ZERO
  {
    HeadBits(8, x);
  }

  /** The difference is zero but for the byte the window starts in and the next one, which it splits. */
  lemma DifferenceShape(w: seq<Octet>, w': seq<Octet>, p: nat)
    requires AgreeOutside(w, w', p)
    ensures var e, k := Xor(w, w'), p / 8;
            && (forall j :: 0 <= j < |w| && j != k && j != k + 1 ==> e[j] == ZERO)
            && (k < |w| ==> From(p % 8, e[k]))
            && (k + 1 < |w| ==> Below(p % 8, e[k + 1]))
  {
    var e, k, s := Xor(w, w'), p / 8, p % 8;
    forall j, i | 0 <= j < |w| && 0 <= i < 8 && !(p <= 8 * j + i < p + 8)
      ensures !Bit(e[j], i)
    {
      AgreeAt(w, w', p, j, i);
    }
    forall j | 0 <= j < |w| && j != k && j != k + 1
      ensures e[j] == ZERO
    {
      assert From(8, e[j]);
      NoBitsIsZero(e[j]);
    }
  }

  /** A codeword that is zero but for two neighbouring bytes in one window is zero. */
  lemma ZeroDifference(e: seq<Octet>, k: nat, s: nat)
    requires k < |e| && s < 8 && Crc(e) == ZERO
    requires forall j :: 0 <= j < |e| && j != k && j != k + 1 ==> e[j] == ZERO
    requires InWindow(s, e[k], if k + 1 < |e| then e[k + 1] else ZERO)
    ensures AllZero(e)
  {
    assert e == e[..k] + e[k..];
    CrcAppend(ZERO, e[..k], e[k..]);
    CrcOfZeros(ZERO, e[..k]);
    XorZero(e[k], ZERO);
    var x := Shifts(e[k], 8);
    assert CrcFrom(ZERO, e[k..]) == CrcFrom(x, e[k + 1..]) by {
      assert e[k..][1..] == e[k + 1..] && e[k..][0] == e[k];
    }
    ShiftsZero(e[k], 8);
    if k + 1 < |e| {
      var y := XorByte(x, e[k + 1]);
      assert e[k + 1..][1..] == e[k + 2..];
      CrcOfZeros(Shifts(y, 8), e[k + 2..]);
      ShiftsZero(y, 8);
      XorZero(x, e[k + 1]);
      WindowNotDivisible(s, e[k], e[k + 1]);
    }
  }

  /** Two codewords that agree outside eight consecutive bits are the same codeword. */
  lemma BurstDetected(w: seq<Octet>, w': seq<Octet>, p: nat)
    requires AgreeOutside(w, w', p) && Crc(w) == ZERO && Crc(w') == ZERO
    ensures w == w'
  {
    var e, k := Xor(w, w'), p / 8;
    CrcXor(ZERO, ZERO, w, w');
    XorZero(ZERO, ZERO);
    DifferenceShape(w, w', p);
    if k < |w| {
      ZeroDifference(e, k, p % 8);
    }
    forall j | 0 <= j < |w|
      ensures w[j] == w'[j]
    {
      XorZero(w[j], w'[j]);
    }
  }
}
