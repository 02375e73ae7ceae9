/**
 * Invite codes: Base32 (section 6 of RFC 4648) over the token, the destination
 * hash and a checksum byte, grouped by fives behind the brand prefix.
 */
module InviteCode {
  import opened Common
  import opened Crc8

  const PREFIX := "HOK-"

  datatype Error = BadPrefix | BadEncoding | TooShort | BadChecksum | DataTooShort

  // ---- Five bits and characters ----

  function CharOf(v: nat): char
    requires v < 32
  {
    if v < 26 then ('A' as int + v) as char else ('2' as int + (v - 26)) as char
  }

  function Digit(c: char): (v: Option<nat>)
    ensures v.Some? ==> v.value < 32
  {
    if 'A' <= c <= 'Z' then Some(c as int - 'A' as int)
    else if '2' <= c <= '7' then Some(c as int - '2' as int + 26)
    else None
  }

  lemma DigitOfChar(v: nat)
    requires v < 32
    ensures Digit(CharOf(v)) == Some(v) && CharOf(v) != '-' && CharOf(v) != '='
  {
  }

  function Weight(b: bool, w: nat): nat {
    if b then w else 0
  }

  function Value5(b: seq<bool>): (v: nat)
    requires |b| == 5
    ensures v < 32
  {
    Weight(b[0], 16) + Weight(b[1], 8) + Weight(b[2], 4) + Weight(b[3], 2) + Weight(b[4], 1)
  }

  /** What is left of `v` once its bit of weight `w` is taken away. */
  function Rest(v: nat, w: nat): nat {
    v - Weight(v >= w, w)
  }

  function Bits5(v: nat): (b: seq<bool>)
    requires v < 32
    ensures |b| == 5
  {
    var v1 := Rest(v, 16);
    var v2 := Rest(v1, 8);
    var v3 := Rest(v2, 4);
    [v >= 16, v1 >= 8, v2 >= 4, v3 >= 2, Rest(v3, 2) >= 1]
  }

  lemma Bits5OfValue(b: seq<bool>)
    requires |b| == 5
    ensures Bits5(Value5(b)) == b
  {
    var v := Value5(b);
    var v1 := Rest(v, 16);
    assert v1 == Weight(b[1], 8) + Weight(b[2], 4) + Weight(b[3], 2) + Weight(b[4], 1);
    var v2 := Rest(v1, 8);
    assert v2 == Weight(b[2], 4) + Weight(b[3], 2) + Weight(b[4], 1);
    var v3 := Rest(v2, 4);
    assert v3 == Weight(b[3], 2) + Weight(b[4], 1);
  }

  // ---- Bit strings, characters and bytes ----

  function Chars(bits: seq<bool>): (s: string)
    requires |bits| % 5 == 0
    ensures |s| == |bits| / 5
    ensures forall i :: 0 <= i < |s| ==> Digit(s[i]).Some? && s[i] != '-' && s[i] != '='
    decreases |bits|
  {
    if bits == [] then ""
    else
      DigitOfChar(Value5(bits[..5]));
      [CharOf(Value5(bits[..5]))] + Chars(bits[5..])
  }

  predicate AllDigits(s: string) {
    forall i :: 0 <= i < |s| ==> Digit(s[i]).Some?
  }

  function BitsOfChars(s: string): (bits: seq<bool>)
    requires AllDigits(s)
    ensures |bits| == 5 * |s|
  {
    if s == "" then [] else Bits5(Digit(s[0]).value) + BitsOfChars(s[1..])
  }

  lemma {:induction false} BitsOfCharsInverse(bits: seq<bool>)
    requires |bits| % 5 == 0
    ensures BitsOfChars(Chars(bits)) == bits
    decreases |bits|
  {
    if bits != [] {
      DigitOfChar(Value5(bits[..5]));
      Bits5OfValue(bits[..5]);
      BitsOfCharsInverse(bits[5..]);
      assert Chars(bits)[1..] == Chars(bits[5..]);
      assert bits == bits[..5] + bits[5..];
    }
  }

  function OctetOf(b: seq<bool>): Octet
    requires |b| == 8
  {
    Octet(b[0], b[1], b[2], b[3], b[4], b[5], b[6], b[7])
  }

  function Pack(bits: seq<bool>): (w: seq<Octet>)
    requires |bits| % 8 == 0
    ensures |w| == |bits| / 8
    decreases |bits|
  {
    if bits == [] then [] else [OctetOf(bits[..8])] + Pack(bits[8..])
  }

  lemma {:induction false} PackFlatten(w: seq<Octet>)
    ensures Pack(Flatten(w)) == w
  {
    if w != [] {
      PackFlatten(w[1..]);
      assert Flatten(w)[..8] == BitsOf(w[0]) && Flatten(w)[8..] == Flatten(w[1..]);
      assert OctetOf(BitsOf(w[0])) == w[0];
    }
  }

  lemma BitsOfOctet(b: seq<bool>)
    requires |b| == 8
    ensures BitsOf(OctetOf(b)) == b
  {
    forall i | 0 <= i < 8
      ensures BitsOf(OctetOf(b))[i] == b[i]
    {
      OctetBit(b, i);
    }
  }

  lemma OctetBit(b: seq<bool>, i: nat)
    requires |b| == 8 && i < 8
    ensures Bit(OctetOf(b), i) == b[i]
  {
  }

  lemma {:induction false} FlattenPack(bits: seq<bool>)
    requires |bits| % 8 == 0
    ensures Flatten(Pack(bits)) == bits
    decreases |bits|
  {
    if bits != [] {
      var b, rest := bits[..8], bits[8..];
      FlattenPack(rest);
      BitsOfOctet(b);
      assert Pack(bits) == [OctetOf(b)] + Pack(rest);
      assert Pack(bits)[1..] == Pack(rest);
      assert bits == b + rest;
    }
  }

  // ---- Base32 without padding characters ----

  function Padding(n: nat): (p: nat)
    ensures p < 5 && (n + p) % 5 == 0
  {
    if n % 5 == 0 then 0
    else
      assert n + (5 - n % 5) == 5 * (n / 5 + 1);
      5 - n % 5
  }

  function PadBits(bits: seq<bool>): (r: seq<bool>)
    ensures |r| % 5 == 0 && |r| == |bits| + Padding(|bits|) && r[..|bits|] == bits
  {
    bits + seq(Padding(|bits|), i => false)
  }

  function Encode32(w: seq<Octet>): string {
    Chars(PadBits(Flatten(w)))
  }

  function StripPad(s: string): (r: string)
    ensures |r| <= |s| && r == s[..|r|]
  {
    if s != "" && s[|s| - 1] == '=' then StripPad(s[..|s| - 1]) else s
  }

  function Filling(n: nat): nat {
    if n % 8 == 0 then 0 else 8 - n % 8
  }

  /** The bits of `n` characters that make whole bytes. */
  function WholeBits(n: nat): (m: nat)
    ensures m % 8 == 0 && m <= 5 * n
  {
    5 * n / 8 * 8
  }

  /** The input filled up with `=` to a multiple of eight; leftover bits are dropped without a check. */
  function Decode32(clean: string): Result<seq<Octet>, Error> {
    var s := StripPad(clean);
    if !AllDigits(s) || |clean| + Filling(|clean|) - |s| !in {0, 1, 3, 4, 6} then Err(BadEncoding)
    else Ok(Pack(BitsOfChars(s)[..WholeBits(|s|)]))
  }

  /** The number of characters `n` bytes take. */
  function CharCount(n: nat): nat {
    (8 * n + Padding(8 * n)) / 5
  }

  lemma CharCountIs(n: nat, q: nat, r: nat)
    requires n == 5 * q + r && r < 5
    ensures CharCount(n) == 8 * q + if r == 0 then 0 else if r == 1 then 2 else if r == 2 then 4 else r + 2 + r / 4
  {
    var m := 8 * r;
    assert 8 * n == 5 * (8 * q) + m;
    assert Padding(8 * n) == Padding(m);
  }

  /** The lengths Base32 produces are the ones it accepts, and they hold exactly the bytes encoded. */
  lemma EncodedLength(n: nat)
    ensures Filling(CharCount(n)) in {0, 1, 3, 4, 6} && WholeBits(CharCount(n)) == 8 * n
  {
    var q, r := n / 5, n % 5;
    CharCountIs(n, q, r);
    CountFits(q, r, CharCount(n) - 8 * q);
  }

  lemma CountFits(q: nat, r: nat, c: nat)
    requires (r == 0 && c == 0) || (r == 1 && c == 2) || (r == 2 && c == 4) || (r == 3 && c == 5) || (r == 4 && c == 7)
    ensures Filling(8 * q + c) in {0, 1, 3, 4, 6} && 5 * (8 * q + c) / 8 == 5 * q + r
  {
    assert (8 * q + c) % 8 == c;
    assert 5 * (8 * q + c) == 8 * (5 * q) + 5 * c;
  }

  lemma DecodeLegal(s: string, m: nat)
    requires AllDigits(s) && Filling(|s|) in {0, 1, 3, 4, 6} && m == WholeBits(|s|)
    ensures Decode32(s) == Ok(Pack(BitsOfChars(s)[..m]))
  {
    NoPad(s);
  }

  lemma NoPad(s: string)
    requires AllDigits(s)
    ensures StripPad(s) == s
  {
    assert s != "" ==> Digit(s[|s| - 1]).Some?;
  }

  /** Base32 text of a length an encoding has decodes to the leading bits. */
  lemma DecodeDigits(s: string, n: nat)
    requires AllDigits(s) && |s| == CharCount(n)
    ensures 8 * n <= 5 * |s| && Decode32(s) == Ok(Pack(BitsOfChars(s)[..8 * n]))
  {
    EncodedLength(n);
    DecodeLegal(s, 8 * n);
  }

  lemma Base32RoundTrip(w: seq<Octet>)
    ensures Decode32(Encode32(w)) == Ok(w)
  {
    BitsOfCharsInverse(PadBits(Flatten(w)));
    DecodeDigits(Encode32(w), |w|);
    PackFlatten(w);
  }

  // ---- One character replaced ----

  lemma {:induction false} BitsOfCharsAt(s: string, s': string, j: nat, n: nat)
    requires AllDigits(s) && AllDigits(s') && |s| == |s'|
    requires forall i :: 0 <= i < |s| && i != j ==> s[i] == s'[i]
    requires n < 5 * |s| && !(5 * j <= n < 5 * j + 5)
    ensures BitsOfChars(s)[n] == BitsOfChars(s')[n]
    decreases |s|
  {
    if n >= 5 {
      if j > 0 {
        BitsOfCharsAt(s[1..], s'[1..], j - 1, n - 5);
      } else {
        assert s[1..] == s'[1..];
      }
    }
  }

  lemma AgreeFromBits(w: seq<Octet>, bits: seq<bool>, p: nat)
    requires |bits| == 8 * |w|
    requires forall n :: 0 <= n < |bits| && !(p <= n < p + 8) ==> Flatten(w)[n] == bits[n]
    ensures AgreeOutside(w, Pack(bits), p)
  {
    PackLength(bits, |w|);
    FlattenPack(bits);
  }

  lemma PackLength(bits: seq<bool>, n: nat)
    requires |bits| == 8 * n
    ensures |bits| % 8 == 0 && |Pack(bits)| == n
  {
  }

  lemma BitsAfterReplace(s: string, j: nat, x: char)
    requires j < |s| && AllDigits(s) && Digit(x).Some?
    ensures AllDigits(s[j := x])
    ensures forall n :: 0 <= n < 5 * |s| && !(5 * j <= n < 5 * j + 8) ==>
              BitsOfChars(s)[n] == BitsOfChars(s[j := x])[n]
  {
    forall n | 0 <= n < 5 * |s| && !(5 * j <= n < 5 * j + 8)
      ensures BitsOfChars(s)[n] == BitsOfChars(s[j := x])[n]
    {
      BitsOfCharsAt(s, s[j := x], j, n);
    }
  }

  /** Replacing one character of an encoding by another Base32 character changes at most five neighbouring bits. */
  lemma ReplacedChar(w: seq<Octet>, j: nat, x: char)
    requires j < |Encode32(w)| && Digit(x).Some?
    ensures var r := Decode32(Encode32(w)[j := x]);
            r.Ok? && AgreeOutside(w, r.value, 5 * j)
  {
    var s, flat := Encode32(w), Flatten(w);
    BitsOfCharsInverse(PadBits(flat));
    BitsAfterReplace(s, j, x);
    DecodeDigits(s[j := x], |w|);
    var bits := BitsOfChars(s[j := x])[..8 * |w|];
    forall n | 0 <= n < |bits| && !(5 * j <= n < 5 * j + 8)
      ensures flat[n] == bits[n]
    {
      assert flat[n] == PadBits(flat)[..|flat|][n];
    }
    AgreeFromBits(w, bits, 5 * j);
  }

  // ---- Groups of five ----

  function Group(s: string): string {
    if |s| <= 5 then s else s[..5] + "-" + Group(s[5..])
  }

  function Kept(c: char): string {
    if c == '-' then "" else [c]
  }

  function RemoveDash(s: string): string {
    if s == "" then "" else Kept(s[0]) + RemoveDash(s[1..])
  }

  lemma {:induction false} RemoveDashAppend(a: string, b: string)
    ensures RemoveDash(a + b) == RemoveDash(a) + RemoveDash(b)
  {
    if a == "" {
      assert a + b == b;
    } else {
      var k, x, y := Kept(a[0]), RemoveDash(a[1..]), RemoveDash(b);
      assert RemoveDash(a[1..] + b) == x + y by {
        RemoveDashAppend(a[1..], b);
      }
      assert (a + b)[1..] == a[1..] + b;
      assert k + (x + y) == k + x + y;
    }
  }

  lemma {:induction false} NothingToRemove(s: string)
    requires AllDigits(s)
    ensures RemoveDash(s) == s
  {
    if s != "" {
      NothingToRemove(s[1..]);
    }
  }

  lemma RemoveDashChunk(a: string, b: string)
    requires AllDigits(a)
    ensures RemoveDash(a + "-" + b) == a + RemoveDash(b)
  {
    var t := "-" + b;
    assert t[0] == '-' && t[1..] == b;
    assert RemoveDash(t) == RemoveDash(b);
    assert a + "-" + b == a + t;
    RemoveDashAppend(a, t);
    NothingToRemove(a);
  }

  lemma {:induction false} UngroupGroup(s: string)
    requires AllDigits(s)
    ensures RemoveDash(Group(s)) == s
  {
    if |s| <= 5 {
      NothingToRemove(s);
    } else {
      UngroupGroup(s[5..]);
      RemoveDashChunk(s[..5], Group(s[5..]));
      assert s == s[..5] + s[5..];
    }
  }

  /** Position `i` of the grouped text holds a hyphen when `i % 6 == 5`, and otherwise character `Place(i)`. */
  function Place(i: nat): nat {
    5 * (i / 6) + i % 6
  }

  lemma PlaceStep(i: nat)
    ensures if i < 6 then Place(i) == i && i % 6 == i else Place(i) == 5 + Place(i - 6) && i % 6 == (i - 6) % 6
  {
  }

  lemma {:induction false} GroupAt(s: string, i: nat)
    requires i < |Group(s)|
    ensures if i % 6 == 5 then Group(s)[i] == '-' else Place(i) < |s| && Group(s)[i] == s[Place(i)]
    decreases |s|
  {
    PlaceStep(i);
    if |s| > 5 {
      var head, rest := s[..5] + "-", Group(s[5..]);
      assert Group(s) == head + rest;
      if i >= 6 {
        GroupAt(s[5..], i - 6);
        assert Group(s)[i] == rest[i - 6];
      } else {
        assert Group(s)[i] == head[i];
      }
    }
  }

  lemma GroupReplace(s: string, i: nat, x: char)
    requires i < |Group(s)| && i % 6 != 5
    ensures Place(i) < |s| && Group(s)[i := x] == Group(s[Place(i) := x])
    decreases |s|
  {
    if |s| <= 5 {
    } else if i < 6 {
      assert s[i := x][5..] == s[5..];
      assert s[i := x][..5] == s[..5][i := x];
    } else {
      var j := Place(i);
      GroupReplace(s[5..], i - 6, x);
      assert s[j := x][5..] == s[5..][j - 5 := x];
      assert s[j := x][..5] == s[..5];
      assert Group(s)[i := x] == s[..5] + "-" + Group(s[5..])[i - 6 := x];
    }
  }

  // ---- Letter case and surrounding space ----

  function UpperChar(c: char): char {
    if 'a' <= c <= 'z' then (c as int - 32) as char else c
  }

  function LowerChar(c: char): char {
    if 'A' <= c <= 'Z' then (c as int + 32) as char else c
  }

  function Upper(s: string): string {
    seq(|s|, i requires 0 <= i < |s| => UpperChar(s[i]))
  }

  function Lower(s: string): string {
    seq(|s|, i requires 0 <= i < |s| => LowerChar(s[i]))
  }

  predicate Space(c: char) {
    c == ' ' || 9 <= c as int <= 13 || 28 <= c as int <= 31
  }

  function Strip(s: string): (r: string)
    ensures r != "" ==> !Space(r[0]) && !Space(r[|r| - 1])
    decreases |s|
  {
    if s == "" then s
    else if Space(s[0]) then Strip(s[1..])
    else if Space(s[|s| - 1]) then Strip(s[..|s| - 1])
    else s
  }

  // ---- The codes ----

  function Codeword(raw: seq<Octet>): seq<Octet> {
    raw + [Crc(raw)]
  }

  function Encode(token: seq<Octet>, dest: seq<Octet>): string {
    PREFIX + Group(Encode32(Codeword(token + dest)))
  }

  function Check(w: seq<Octet>): Result<(seq<Octet>, seq<Octet>), Error> {
    if |w| < 2 then Err(TooShort)
    else if Crc(w[..|w| - 1]) != w[|w| - 1] then Err(BadChecksum)
    else if |w| - 1 < 32 then Err(DataTooShort)
    else Ok((w[..16], w[16..32]))
  }

  function Finish(w: Result<seq<Octet>, Error>): Result<(seq<Octet>, seq<Octet>), Error> {
    if w.Err? then Err(w.error) else Check(w.value)
  }

  function Decode(code: string): Result<(seq<Octet>, seq<Octet>), Error> {
    var upper := Strip(Upper(code));
    if !(PREFIX <= upper) then Err(BadPrefix) else Finish(Decode32(RemoveDash(upper[|PREFIX|..])))
  }

  /** Characters an encoding is made of: case and space handling leave them alone. */
  predicate Plain(s: string) {
    forall i :: 0 <= i < |s| ==> Digit(s[i]).Some? || s[i] == '-'
  }

  lemma PlainUnchanged(s: string)
    requires Plain(s)
    ensures Strip(Upper(s)) == s
  {
    assert Upper(s) == s;
    if s != "" {
      assert !Space(s[0]) && !Space(s[|s| - 1]);
    }
  }

  lemma DecodePlain(s: string)
    requires AllDigits(s)
    ensures Decode(PREFIX + Group(s)) == Finish(Decode32(s))
  {
    var g := Group(s);
    forall i | 0 <= i < |g|
      ensures Digit(g[i]).Some? || g[i] == '-'
    {
      GroupAt(s, i);
    }
    assert Plain(PREFIX + g);
    PlainUnchanged(PREFIX + g);
    UngroupGroup(s);
    assert (PREFIX + g)[|PREFIX|..] == g;
  }

  function Halves(raw: seq<Octet>): Result<(seq<Octet>, seq<Octet>), Error> {
    if raw == [] then Err(TooShort)
    else if |raw| < 32 then Err(DataTooShort)
    else Ok((raw[..16], raw[16..32]))
  }

  lemma CheckCodeword(raw: seq<Octet>, c: Octet)
    requires c == Crc(raw)
    ensures Check(raw + [c]) == Halves(raw)
  {
    var w := raw + [c];
    assert w[..|raw|] == raw && w[|raw|] == c;
    if |raw| >= 32 {
      assert w[..16] == raw[..16] && w[16..32] == raw[16..32];
    }
  }

  /** What becomes of every encoding. */
  lemma DecodeEncode(token: seq<Octet>, dest: seq<Octet>)
    ensures Decode(Encode(token, dest)) == Halves(token + dest)
  {
    var w := Codeword(token + dest);
    DecodePlain(Encode32(w));
    Base32RoundTrip(w);
    CheckCodeword(token + dest, Crc(token + dest));
  }

  /** Decoding undoes encoding exactly for invites made of two sixteen-byte halves. */
  lemma RoundTripIff(token: seq<Octet>, dest: seq<Octet>)
    ensures Decode(Encode(token, dest)) == Ok((token, dest)) <==> |token| == |dest| == 16
  {
    var raw := token + dest;
    DecodeEncode(token, dest);
    if |token| == |dest| == 16 {
      assert raw[..16] == token && raw[16..32] == dest;
    }
  }

  /** A code may be typed in either case. */
  lemma CaseIgnored(code: string)
    ensures Decode(Lower(code)) == Decode(code)
  {
    assert Upper(Lower(code)) == Upper(code);
  }

  /** The blanks of ASCII: space, tab to carriage return, and the four separators. */
  predicate Blank(s: string) {
    forall i :: 0 <= i < |s| ==> s[i] == ' ' || '\t' <= s[i] <= '\r' || '\U{1c}' <= s[i] <= '\U{1f}'
  }

  lemma {:induction false} StripBehind(x: string, c: char)
    requires Space(c)
    ensures Strip(x + [c]) == Strip(x)
    decreases |x|
  {
    if x == "" {
      assert (x + [c])[1..] == "";
    } else if Space(x[0]) {
      assert (x + [c])[1..] == x[1..] + [c];
      StripBehind(x[1..], c);
    } else {
      assert (x + [c])[..|x|] == x;
    }
  }

  lemma {:induction false} StripAround(a: string, x: string, b: string)
    requires Blank(a) && Blank(b)
    ensures Strip(a + x + b) == Strip(x)
    decreases |a| + |b|
  {
    if b != "" {
      var b', c := b[..|b| - 1], b[|b| - 1];
      assert a + x + b == (a + x + b') + [c];
      StripBehind(a + x + b', c);
      StripAround(a, x, b');
    } else if a != "" {
      assert (a + x + b)[0] == a[0] && (a + x + b)[1..] == a[1..] + x + b;
      StripAround(a[1..], x, b);
    } else {
      assert a + x + b == x;
    }
  }

  /** A code may be surrounded by blanks. */
  lemma BlanksIgnored(a: string, code: string, b: string)
    requires Blank(a) && Blank(b)
    ensures Decode(a + code + b) == Decode(code)
  {
    assert Upper(a + code + b) == a + Upper(code) + b;
    StripAround(a, Upper(code), b);
  }

  /** What is accepted: at least thirty-three bytes that the checksum polynomial divides. */
  lemma AcceptedIff(w: seq<Octet>)
    ensures Check(w).Ok? <==> |w| >= 33 && Crc(w) == ZERO
  {
    if |w| >= 33 {
      var raw := w[..|w| - 1];
      assert w == raw + [w[|w| - 1]];
      CodewordIff(raw, w[|w| - 1]);
    }
  }

  // ---- Mistyped characters ----

  /** Two words that agree outside eight consecutive bits, the first with a right checksum. */
  lemma CheckAfterBurst(w: seq<Octet>, w': seq<Octet>, p: nat)
    requires |w| >= 2 && Crc(w) == ZERO && AgreeOutside(w, w', p)
    ensures Check(w') == if w' == w then Check(w) else Err(BadChecksum)
  {
    var raw, last := w'[..|w'| - 1], w'[|w'| - 1];
    assert w' == raw + [last];
    CodewordIff(raw, last);
    if Crc(w') == ZERO {
      BurstDetected(w, w', p);
    }
  }

  lemma SameUpper(s: string, i: nat, x: char)
    requires AllDigits(s) && i < |Group(s)|
    ensures Upper((PREFIX + Group(s))[|PREFIX| + i := x]) == Upper(PREFIX + Group(s)[i := UpperChar(x)])
  {
    assert UpperChar(UpperChar(x)) == UpperChar(x);
  }

  /** Mistyping position `i` behind the prefix is mistyping character `Place(i)` of the Base32 text. */
  lemma MistypedText(s: string, i: nat, x: char)
    requires AllDigits(s) && i < |Group(s)| && i % 6 != 5 && Digit(UpperChar(x)).Some?
    ensures Place(i) < |s|
    ensures Decode((PREFIX + Group(s))[|PREFIX| + i := x]) == Finish(Decode32(s[Place(i) := UpperChar(x)]))
  {
    SameUpper(s, i, x);
    GroupReplace(s, i, UpperChar(x));
    DecodePlain(s[Place(i) := UpperChar(x)]);
  }

  lemma {:induction false} BitsOfCharsIn(s: string, j: nat, k: nat)
    requires AllDigits(s) && j < |s| && k < 5
    ensures BitsOfChars(s)[5 * j + k] == Bits5(Digit(s[j]).value)[k]
    decreases |s|
  {
    if j > 0 {
      BitsOfCharsIn(s[1..], j - 1, k);
    }
  }

  /** Among the first `n` bits of the text, digits `v` and `v'` in place `j` read the same. */
  predicate SamePayload(n: nat, j: nat, v: nat, v': nat)
    requires v < 32 && v' < 32
  {
    SameBelow(n - 5 * j, Bits5(v), Bits5(v'))
  }

  predicate SameBelow(m: int, a: seq<bool>, b: seq<bool>)
    requires |a| == |b|
  {
    forall k :: 0 <= k < |a| && k < m ==> a[k] == b[k]
  }

  /** The bits of `a` stand in `flat` from `p` on, as far as `flat` goes. */
  predicate Holds(flat: seq<bool>, p: nat, a: seq<bool>) {
    forall k :: 0 <= k < |a| && p + k < |flat| ==> flat[p + k] == a[k]
  }

  lemma SamePrefixIff(flat: seq<bool>, bits: seq<bool>, p: nat, a: seq<bool>, b: seq<bool>)
    requires |a| == |b| && |flat| == |bits| && Holds(flat, p, a) && Holds(bits, p, b)
    requires forall n :: 0 <= n < |flat| && !(p <= n < p + |a|) ==> flat[n] == bits[n]
    ensures bits == flat <==> SameBelow(|flat| - p, a, b)
  {
    if SameBelow(|flat| - p, a, b) {
      forall n | 0 <= n < |flat|
        ensures flat[n] == bits[n]
      {
        if p <= n < p + |a| {
          assert a[n - p] == b[n - p];
        }
      }
    } else {
      var k :| 0 <= k < |a| && k < |flat| - p && a[k] != b[k];
      assert flat[p + k] != bits[p + k];
    }
  }

  lemma HoldsDigit(s: string, j: nat, n: nat)
    requires AllDigits(s) && j < |s| && n <= 5 * |s|
    ensures Holds(BitsOfChars(s)[..n], 5 * j, Bits5(Digit(s[j]).value))
  {
    forall k | 0 <= k < 5 && 5 * j + k < n
      ensures BitsOfChars(s)[..n][5 * j + k] == Bits5(Digit(s[j]).value)[k]
    {
      BitsOfCharsIn(s, j, k);
    }
  }

  lemma SameBitsIff(s: string, j: nat, y: char, n: nat)
    requires AllDigits(s) && j < |s| && n <= 5 * |s| && Digit(y).Some? && AllDigits(s[j := y])
    ensures BitsOfChars(s[j := y])[..n] == BitsOfChars(s)[..n]
       <==> SamePayload(n, j, Digit(s[j]).value, Digit(y).value)
  {
    var s' := s[j := y];
    var flat, bits := BitsOfChars(s)[..n], BitsOfChars(s')[..n];
    HoldsDigit(s, j, n);
    HoldsDigit(s', j, n);
    forall m | 0 <= m < n && !(5 * j <= m < 5 * j + 5)
      ensures flat[m] == bits[m]
    {
      BitsOfCharsAt(s, s', j, m);
    }
    SamePrefixIff(flat, bits, 5 * j, Bits5(Digit(s[j]).value), Bits5(Digit(y).value));
  }

  lemma PackIs(w: seq<Octet>, bits: seq<bool>)
    requires |bits| == 8 * |w|
    ensures Pack(bits) == w <==> bits == Flatten(w)
  {
    FlattenPack(bits);
    PackFlatten(w);
  }

  lemma SameWordIff(w: seq<Octet>, j: nat, y: char)
    requires j < |Encode32(w)| && Digit(y).Some?
    ensures Decode32(Encode32(w)[j := y]) == Ok(w)
       <==> SamePayload(8 * |w|, j, Digit(Encode32(w)[j]).value, Digit(y).value)
  {
    var s, n := Encode32(w), 8 * |w|;
    BitsOfCharsInverse(PadBits(Flatten(w)));
    DecodeDigits(s[j := y], |w|);
    PackIs(w, BitsOfChars(s[j := y])[..n]);
    SameBitsIff(s, j, y, n);
  }

  /** One character mistyped as another of the alphabet, in either case: caught, unless only padding changed. */
  lemma Mistyped(token: seq<Octet>, dest: seq<Octet>, i: nat, x: char)
    requires |PREFIX| + i < |Encode(token, dest)| && i % 6 != 5 && token + dest != []
    requires Digit(UpperChar(x)).Some?
    ensures var w, j := Codeword(token + dest), Place(i);
            && j < |Encode32(w)|
            && Decode(Encode(token, dest)[|PREFIX| + i := x]) ==
               if SamePayload(8 * |w|, j, Digit(Encode32(w)[j]).value, Digit(UpperChar(x)).value)
               then Decode(Encode(token, dest)) else Err(BadChecksum)
  {
    var w, j, y := Codeword(token + dest), Place(i), UpperChar(x);
    MistypedText(Encode32(w), i, x);
    MistypedWord(token + dest, w, j, y);
    SameWordIff(w, j, y);
    DecodePlain(Encode32(w));
    Base32RoundTrip(w);
  }

  lemma MistypedWord(raw: seq<Octet>, w: seq<Octet>, j: nat, y: char)
    requires raw != [] && w == Codeword(raw) && j < |Encode32(w)| && Digit(y).Some?
    ensures Finish(Decode32(Encode32(w)[j := y])) ==
            if Decode32(Encode32(w)[j := y]) == Ok(w) then Check(w) else Err(BadChecksum)
  {
    ReplacedChar(w, j, y);
    CodewordIff(raw, Crc(raw));
    CheckAfterBurst(w, Decode32(Encode32(w)[j := y]).value, 5 * j);
  }

  lemma SameHalf(v: nat, v': nat, w: nat)
    requires v / 2 == v' / 2 && w % 2 == 0
    ensures (v >= w <==> v' >= w) && Rest(v, w) / 2 == Rest(v', w) / 2
  {
  }

  lemma SameHighBits(v: nat, v': nat)
    requires v < 32 && v' < 32 && v / 2 == v' / 2
    ensures forall k :: 0 <= k < 4 ==> Bits5(v)[k] == Bits5(v')[k]
  {
    SameHalf(v, v', 16);
    var v1, v1' := Rest(v, 16), Rest(v', 16);
    SameHalf(v1, v1', 8);
    var v2, v2' := Rest(v1, 8), Rest(v1', 8);
    SameHalf(v2, v2', 4);
    SameHalf(Rest(v2, 4), Rest(v2', 4), 2);
  }

  lemma SameDigitIff(m: int, v: nat, v': nat)
    requires v < 32 && v' < 32 && m >= 4
    ensures SameBelow(m, Bits5(v), Bits5(v')) <==> if m >= 5 then v == v' else v / 2 == v' / 2
  {
    var a, b := Bits5(v), Bits5(v');
    if SameBelow(m, a, b) {
      assert a[0] == b[0] && a[1] == b[1] && a[2] == b[2] && a[3] == b[3];
      assert m >= 5 ==> a == b;
      ValueOfBits5(v);
      ValueOfBits5(v');
    } else if v / 2 == v' / 2 {
      SameHighBits(v, v');
    }
  }

  lemma ValueOfBits5(v: nat)
    requires v < 32
    ensures Value5(Bits5(v)) == v
    ensures v / 2 == Weight(Bits5(v)[0], 8) + Weight(Bits5(v)[1], 4) + Weight(Bits5(v)[2], 2) + Weight(Bits5(v)[3], 1)
  {
    var v1 := Rest(v, 16);
    var v2 := Rest(v1, 8);
    var v3 := Rest(v2, 4);
    assert v1 < 16 && v2 < 8 && v3 < 4 && Rest(v3, 2) < 2;
  }

  lemma {:induction false} GroupLength(s: string)
    ensures |Group(s)| == if s == "" then 0 else |s| + (|s| - 1) / 5
    decreases |s|
  {
    if |s| > 5 {
      GroupLength(s[5..]);
    }
  }

  /** Fifty-three characters of Base32 in eleven groups. */
  lemma LastPlace(s: string, i: nat)
    requires |s| == 53 && i < |Group(s)| && i % 6 != 5
    ensures Place(i) < 53 && (Place(i) == 52 <==> i == |Group(s)| - 1)
  {
    GroupLength(s);
    GroupAt(s, i);
  }

  lemma HarmlessIff(s: string, i: nat, v: nat, v': nat)
    requires |s| == 53 && i < |Group(s)| && i % 6 != 5 && v < 32 && v' < 32
    ensures SamePayload(8 * 33, Place(i), v, v') <==> v == v' || (i == |Group(s)| - 1 && v / 2 == v' / 2)
  {
    LastPlace(s, i);
    SameDigitIff(8 * 33 - 5 * Place(i), v, v');
  }

  /**
   * A real invite has fifty-three characters and one padding bit, so a mistyped
   * character is caught unless it is the last one and only its lowest bit is wrong.
   */
  lemma MistypedInvite(token: seq<Octet>, dest: seq<Octet>, i: nat, x: char)
    requires |token| == |dest| == 16 && |PREFIX| + i < |Encode(token, dest)| && i % 6 != 5
    requires Digit(UpperChar(x)).Some?
    ensures var code := Encode(token, dest);
            var v, v' := Digit(code[|PREFIX| + i]), Digit(UpperChar(x)).value;
            && v.Some?
            && Decode(code[|PREFIX| + i := x]) ==
               if v.value == v' || (|PREFIX| + i == |code| - 1 && v.value / 2 == v' / 2) then Ok((token, dest))
               else Err(BadChecksum)
  {
    var w, j, v' := Codeword(token + dest), Place(i), Digit(UpperChar(x)).value;
    var s := Encode32(w);
    GroupAt(s, i);
    assert Encode(token, dest)[|PREFIX| + i] == s[j];
    Mistyped(token, dest, i, x);
    RoundTripIff(token, dest);
    HarmlessIff(s, i, Digit(s[j]).value, v');
  }

  // ---- Any character in any place ----

  /** A text with fewer than fifty-three digits is never an invite. */
  lemma FewDigitsFail(clean: string)
    requires |StripPad(clean)| <= 52
    ensures Finish(Decode32(clean)).Err?
  {
  }

  /** Nor is one that ends in a digit and is not made of fifty-three of them. */
  lemma OddTextFails(clean: string)
    requires clean != "" && Digit(clean[|clean| - 1]).Some? && (!AllDigits(clean) || |clean| == 54)
    ensures Finish(Decode32(clean)).Err?
  {
    assert StripPad(clean) == clean;
  }

  lemma StripPadEnd(a: string, y: char)
    requires AllDigits(a) && Digit(y).None?
    ensures StripPad(a + [y]) == if y == '=' then a else a + [y]
  {
    var c := a + [y];
    assert c[..|c| - 1] == a && c[|c| - 1] == y;
    assert a != "" ==> Digit(a[|a| - 1]).Some?;
  }

  /** A stray character at the end leaves fifty-two digits at most, or is no digit. */
  lemma StrayEndFails(a: string, y: char)
    requires |a| <= 52 && AllDigits(a) && Digit(y).None?
    ensures Finish(Decode32(a + [y])).Err?
  {
    StripPadEnd(a, y);
    if y == '=' {
      FewDigitsFail(a + [y]);
    } else {
      assert Digit((a + [y])[|a|]).None?;
      assert Decode32(a + [y]) == Err(BadEncoding);
    }
  }

  /** Base32 text `a + was + b` with one character, or a hyphen between, turned into `y`. */
  lemma StrayCharFails(a: string, was: string, b: string, y: char)
    requires AllDigits(a) && AllDigits(b) && |a| + |was| + |b| == 53 && |was| <= 1
    requires was == "" ==> b != "" && y != '-'
    requires was != "" ==> Digit(y).None?
    ensures Finish(Decode32(a + Kept(y) + b)).Err?
  {
    var c := a + Kept(y) + b;
    if y == '-' {
      assert c == a + b;
      assert |StripPad(c)| <= 52;
      FewDigitsFail(c);
    } else if b == "" {
      assert c == a + [y];
      StrayEndFails(a, y);
    } else {
      assert c[|c| - 1] == b[|b| - 1] && c[|a|] == y;
      OddTextFails(c);
    }
  }

  /** The hyphens of the grouped text go; the rest falls into what is before, at and after position `i`. */
  lemma SplitAt(s: string, i: nat, y: char) returns (a: string, b: string)
    requires AllDigits(s) && i < |Group(s)|
    ensures AllDigits(a) && AllDigits(b) && s == a + Kept(Group(s)[i]) + b
    ensures RemoveDash(Group(s)[i := y]) == a + Kept(y) + b
    ensures i == |Group(s)| - 1 ==> b == "" && a == RemoveDash(Group(s)[..i])
    ensures i < |Group(s)| - 1 && Group(s)[|Group(s)| - 1] != '-' ==> b != ""
  {
    var g := Group(s);
    a, b := RemoveDash(g[..i]), RemoveDash(g[i + 1..]);
    UngroupGroup(s);
    assert g[i := g[i]] == g;
    SplitText(g, i, g[i]);
    SplitText(g, i, y);
    PartsAreDigits(s, a, Kept(g[i]), b);
    if i < |g| - 1 && g[|g| - 1] != '-' {
      EndIsKept(g[i + 1..]);
    }
  }

  lemma PartsAreDigits(s: string, a: string, k: string, b: string)
    requires AllDigits(s) && s == a + k + b
    ensures AllDigits(a) && AllDigits(b)
  {
    assert forall i :: 0 <= i < |a| ==> a[i] == s[i];
    assert forall i :: 0 <= i < |b| ==> b[i] == s[|a| + |k| + i];
  }

  lemma EndIsKept(t: string)
    requires t != "" && t[|t| - 1] != '-'
    ensures RemoveDash(t) != ""
  {
    var last := t[|t| - 1..];
    assert t == t[..|t| - 1] + last && last[0] == t[|t| - 1];
    RemoveDashAppend(t[..|t| - 1], last);
    assert RemoveDash(last)[0] == last[0];
  }

  lemma SplitText(g: string, i: nat, y: char)
    requires i < |g|
    ensures RemoveDash(g[i := y]) == RemoveDash(g[..i]) + Kept(y) + RemoveDash(g[i + 1..])
  {
    var t := [y] + g[i + 1..];
    assert g[i := y] == g[..i] + t;
    RemoveDashAppend(g[..i], t);
    assert t[0] == y && t[1..] == g[i + 1..];
  }

  /** Surrounding space is all that stripping removes from a code with one character changed. */
  lemma StripReplaced(t: string, i: nat, y: char)
    requires Plain(t) && |t| > 1 && i < |t|
    ensures Strip(t[i := y]) ==
            if !Space(y) || 0 < i < |t| - 1 then t[i := y] else if i == 0 then t[1..] else t[..|t| - 1]
  {
    var u := t[i := y];
    assert !Space(t[0]) && !Space(t[1]) && !Space(t[|t| - 1]) && !Space(t[|t| - 2]);
    if Space(y) && i == 0 {
      assert u[1..] == t[1..];
    } else if Space(y) && i == |t| - 1 {
      assert u[..|t| - 1] == t[..|t| - 1];
    }
  }

  lemma UpperReplaced(t: string, i: nat, x: char)
    requires Plain(t) && i < |t|
    ensures Upper(t[i := x]) == t[i := UpperChar(x)]
  {
  }

  /** A wrong character in the prefix. */
  lemma BadPrefixFails(t: string, i: nat, x: char)
    requires Plain(t) && |t| > 5 && PREFIX <= t && i < |PREFIX| && UpperChar(x) != t[i]
    ensures Decode(t[i := x]) == Err(BadPrefix)
  {
    var y := UpperChar(x);
    UpperReplaced(t, i, x);
    StripReplaced(t, i, y);
    assert t[..4] == PREFIX;
    assert t[0] == PREFIX[0] && t[1] == PREFIX[1] && t[2] == PREFIX[2] && t[3] == PREFIX[3];
    var u := Strip(Upper(t[i := x]));
    if i == 0 && Space(y) {
      assert u[0] == t[1] && u[0] != PREFIX[0];
    } else {
      assert u[i] == y && u[i] != PREFIX[i];
    }
  }

  lemma DecodeBody(t: string, body: string)
    requires Strip(Upper(t)) == PREFIX + body
    ensures Decode(t) == Finish(Decode32(RemoveDash(body)))
  {
    assert (PREFIX + body)[|PREFIX|..] == body;
  }

  /** What is left of a code with one character behind the prefix changed. */
  lemma BodyReplaced(p: string, g: string, i: nat, x: char)
    requires p != "" && Plain(p + g) && i < |g|
    ensures Strip(Upper((p + g)[|p| + i := x])) ==
            if Space(UpperChar(x)) && i == |g| - 1 then p + g[..i] else p + g[i := UpperChar(x)]
  {
    var t, k, y := p + g, |p| + i, UpperChar(x);
    ReplaceBehind(p, g, i, y);
    UpperReplaced(t, k, x);
    StripEnd(t, k, y);
  }

  /** Behind the first character, only a space at the very end is stripped. */
  lemma StripEnd(t: string, k: nat, y: char)
    requires Plain(t) && 0 < k < |t|
    ensures Strip(t[k := y]) == if Space(y) && k == |t| - 1 then t[..|t| - 1] else t[k := y]
  {
    StripReplaced(t, k, y);
  }

  lemma ReplaceBehind(p: string, g: string, i: nat, y: char)
    requires i < |g|
    ensures (p + g)[|p| + i := y] == p + g[i := y]
    ensures (p + g)[..|p + g| - 1] == p + g[..|g| - 1]
  {
  }

  /** A wrong character behind the prefix that is not a digit standing for a digit. */
  lemma StrayFails(s: string, i: nat, x: char)
    requires AllDigits(s) && |s| == 53 && i < |Group(s)| && UpperChar(x) != Group(s)[i]
    requires Group(s)[i] == '-' || Digit(UpperChar(x)).None?
    ensures Decode((PREFIX + Group(s))[|PREFIX| + i := x]).Err?
  {
    var g, y := Group(s), UpperChar(x);
    var t := (PREFIX + g)[|PREFIX| + i := x];
    GroupIsPlain(s);
    BodyReplaced(PREFIX, g, i, x);
    if Space(y) && i == |g| - 1 {
      DecodeBody(t, g[..i]);
    } else {
      DecodeBody(t, g[i := y]);
    }
    StrayText(s, i, y);
  }

  lemma StrayText(s: string, i: nat, y: char)
    requires AllDigits(s) && |s| == 53 && i < |Group(s)| && y != Group(s)[i]
    requires Group(s)[i] == '-' || Digit(y).None?
    ensures Finish(Decode32(RemoveDash(Group(s)[i := y]))).Err?
    ensures i == |Group(s)| - 1 ==> Finish(Decode32(RemoveDash(Group(s)[..i]))).Err?
  {
    var a, b := SplitAt(s, i, y);
    LastIsDigit(s);
    StrayCharFails(a, Kept(Group(s)[i]), b, y);
    if i == |Group(s)| - 1 {
      FewDigitsFail(a);
    }
  }

  lemma GroupIsPlain(s: string)
    requires AllDigits(s)
    ensures Plain(PREFIX + Group(s))
  {
    forall i | 0 <= i < |Group(s)|
      ensures Digit(Group(s)[i]).Some? || Group(s)[i] == '-'
    {
      GroupAt(s, i);
    }
  }

  /** The last character of a full code is not a hyphen. */
  lemma LastIsDigit(s: string)
    requires AllDigits(s) && |s| == 53
    ensures Group(s) != "" && Group(s)[|Group(s)| - 1] != '-'
  {
    GroupLength(s);
    GroupAt(s, |Group(s)| - 1);
  }

  lemma SameLetter(t: string, i: nat, x: char)
    requires Plain(t) && i < |t| && UpperChar(x) == t[i]
    ensures Decode(t[i := x]) == Decode(t)
  {
    UpperReplaced(t, i, x);
    UpperReplaced(t, i, t[i]);
    assert t[i := t[i]] == t && UpperChar(t[i]) == t[i];
  }

  /** Whatever single character of a real invite is replaced, by whatever ASCII character: an error, or the same invite. */
  lemma AnyReplacement(token: seq<Octet>, dest: seq<Octet>, i: nat, x: char)
    requires |token| == |dest| == 16 && i < |Encode(token, dest)| && x as int < 128
    ensures var r := Decode(Encode(token, dest)[i := x]); r.Err? || r == Ok((token, dest))
  {
    var t, s := Encode(token, dest), Encode32(Codeword(token + dest));
    GroupIsPlain(s);
    if UpperChar(x) == t[i] {
      SameLetter(t, i, x);
      RoundTripIff(token, dest);
    } else if i < |PREFIX| {
      BadPrefixFails(t, i, x);
    } else {
      var k := i - |PREFIX|;
      GroupAt(s, k);
      if k % 6 != 5 && Digit(UpperChar(x)).Some? {
        MistypedInvite(token, dest, k, x);
      } else {
        StrayFails(s, k, x);
      }
    }
  }
}
