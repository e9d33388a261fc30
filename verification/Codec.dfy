/** The request codec of the gateway: XOR with a repeating key, Base64 (section 4 of RFC 4648), and the
    stream variant that guesses whether its input is encoded. */
module Codec {
  import opened Basics

  type Byte = b: int | 0 <= b < 256

  type Bytes = seq<Byte>

  datatype Result = Ok(payload: Bytes) | Corrupt

  // ----- XOR with the key -----

  /** Exclusive or of the low width bits. */
  function XorBits(a: nat, b: nat, width: nat): nat {
    if width == 0 then 0 else (a + b) % 2 + 2 * XorBits(a / 2, b / 2, width - 1)
  }

  function Pow2(n: nat): nat {
    if n == 0 then 1 else 2 * Pow2(n - 1)
  }

  lemma {:induction false} XorBitsBound(a: nat, b: nat, width: nat)
    ensures XorBits(a, b, width) < Pow2(width)
  {
    if width > 0 { XorBitsBound(a / 2, b / 2, width - 1); }
  }

  lemma BitUndo(a: nat, b: nat, high: nat)
    ensures ((a + b) % 2 + 2 * high) / 2 == high
    ensures ((a + b) % 2 + 2 * high + b) % 2 + 2 * (a / 2) == a
  {
    assert ((a + b) % 2 + b) % 2 == a % 2;
  }

  lemma {:induction false} XorBitsUndo(a: nat, b: nat, width: nat)
    requires a < Pow2(width)
    ensures XorBits(XorBits(a, b, width), b, width) == a
  {
    if width > 0 {
      var high := XorBits(a / 2, b / 2, width - 1);
      BitUndo(a, b, high);
      XorBitsUndo(a / 2, b / 2, width - 1);
    }
  }

  lemma Pow2Of8()
    ensures Pow2(8) == 256
  {
    assert Pow2(4) == 16;
    assert Pow2(6) == 64;
  }

  function Xor(a: Byte, b: Byte): Byte {
    XorBitsBound(a, b, 8);
    Pow2Of8();
    XorBits(a, b, 8)
  }

  lemma XorUndo(a: Byte, b: Byte)
    ensures Xor(Xor(a, b), b) == a
  {
    Pow2Of8();
    XorBitsUndo(a, b, 8);
  }

  /** Bit i of a byte. */
  function Bit(a: nat, i: nat): nat {
    if i == 0 then a % 2 else Bit(a / 2, i - 1)
  }

  lemma {:induction false} XorBitsBit(a: nat, b: nat, width: nat, i: nat)
    requires i < width
    ensures Bit(XorBits(a, b, width), i) == (Bit(a, i) + Bit(b, i)) % 2
  {
    LowAndHigh((a + b) % 2, XorBits(a / 2, b / 2, width - 1));
    if i == 0 {
      LowBit(a, b);
    } else {
      XorBitsBit(a / 2, b / 2, width - 1, i - 1);
    }
  }

  lemma LowAndHigh(low: nat, high: nat)
    requires low < 2
    ensures (low + 2 * high) % 2 == low && (low + 2 * high) / 2 == high
  {
  }

  lemma LowBit(a: nat, b: nat)
    ensures (a % 2 + b % 2) % 2 == (a + b) % 2
  {
  }

  /** A bit of the result is set exactly when the bits differ. */
  lemma XorBit(a: Byte, b: Byte, i: nat)
    requires i < 8
    ensures Bit(Xor(a, b), i) == (Bit(a, i) + Bit(b, i)) % 2
  {
    XorBitsBit(a, b, 8, i);
  }

  function Crypt(key: Bytes, data: Bytes): (r: Bytes)
    requires key != []
    ensures |r| == |data|
  {
    seq(|data|, i requires 0 <= i < |data| => Xor(data[i], key[i % |key|]))
  }

  /** Encrypting flips exactly the bits of byte i that are set in the key byte at i modulo its length. */
  lemma CryptFlipsKeyBits(key: Bytes, data: Bytes, i: nat, k: nat)
    requires key != [] && i < |data| && k < 8
    ensures Bit(Crypt(key, data)[i], k) != Bit(data[i], k) <==> Bit(key[i % |key|], k) == 1
    ensures Bit(data[i], k) in {0, 1} && Bit(Crypt(key, data)[i], k) in {0, 1}
  {
    XorBit(data[i], key[i % |key|], k);
    BitIsBit(data[i], k);
    BitIsBit(key[i % |key|], k);
  }

  lemma {:induction false} BitIsBit(a: nat, i: nat)
    ensures Bit(a, i) == 0 || Bit(a, i) == 1
  {
    if i > 0 { BitIsBit(a / 2, i - 1); }
  }

  /** Encrypting again gives the data back, for every length. */
  lemma CryptUndo(key: Bytes, data: Bytes)
    requires key != []
    ensures Crypt(key, Crypt(key, data)) == data
  {
    forall i | 0 <= i < |data| ensures Crypt(key, Crypt(key, data))[i] == data[i] {
      XorUndo(data[i], key[i % |key|]);
    }
  }

  // ----- Base64 -----

  const PAD: Byte := '=' as int

  predicate IsNewline(b: Byte) { b == 10 || b == 13 }

  function EncodeChar(v: nat): Byte
    requires v < 64
  {
    if v < 26 then 'A' as int + v
    else if v < 52 then 'a' as int + (v - 26)
    else if v < 62 then '0' as int + (v - 52)
    else if v == 62 then '+' as int
    else '/' as int
  }

  function DecodeChar(b: Byte): (r: Option<nat>)
    ensures r.Some? ==> r.value < 64 && EncodeChar(r.value) == b
  {
    if 'A' as int <= b <= 'Z' as int then Some(b - 'A' as int)
    else if 'a' as int <= b <= 'z' as int then Some(b - 'a' as int + 26)
    else if '0' as int <= b <= '9' as int then Some(b - '0' as int + 52)
    else if b == '+' as int then Some(62)
    else if b == '/' as int then Some(63)
    else None
  }

  predicate InAlphabet(b: Byte) { DecodeChar(b).Some? }

  lemma CharUndo(v: nat)
    requires v < 64
    ensures DecodeChar(EncodeChar(v)) == Some(v)
  {
  }

  function Encode(d: Bytes): Bytes {
    if d == [] then []
    else if |d| == 1 then
      [EncodeChar(d[0] / 4), EncodeChar(d[0] % 4 * 16), PAD, PAD]
    else if |d| == 2 then
      [EncodeChar(d[0] / 4), EncodeChar(d[0] % 4 * 16 + d[1] / 16), EncodeChar(d[1] % 16 * 4), PAD]
    else
      Quad(d[0], d[1], d[2]) + Encode(d[3..])
  }

  function Quad(a: Byte, b: Byte, c: Byte): (r: Bytes)
    ensures |r| == 4
  {
    [EncodeChar(a / 4), EncodeChar(a % 4 * 16 + b / 16), EncodeChar(b % 16 * 4 + c / 64), EncodeChar(c % 64)]
  }

  function Join1(v: nat, w: nat): Byte requires v < 64 && w < 64 { v * 4 + w / 16 }
  function Join2(v: nat, w: nat): Byte requires v < 64 && w < 64 { v % 16 * 16 + w / 4 }
  function Join3(v: nat, w: nat): Byte requires v < 64 && w < 64 { v % 4 * 64 + w }

  /** What follows the first four characters: padding only at the very end, unused bits ignored. */
  function Quanta(s: Bytes): (r: Option<Bytes>) {
    if s == [] then Some([])
    else if |s| < 4 then None
    else
      var v, w, x, y := DecodeChar(s[0]), DecodeChar(s[1]), DecodeChar(s[2]), DecodeChar(s[3]);
      if v.None? || w.None? then None
      else if s[2] == PAD then
        if s[3] == PAD && |s| == 4 then Some([Join1(v.value, w.value)]) else None
        else if x.None? then None
      else if s[3] == PAD then
        if |s| == 4 then Some([Join1(v.value, w.value), Join2(w.value, x.value)]) else None
        else if y.None? then None
      else
        var rest := Quanta(s[4..]);
        if rest.None? then None
        else Some([Join1(v.value, w.value), Join2(w.value, x.value), Join3(x.value, y.value)] + rest.value)
  }

  function NoNewlines(s: Bytes): Bytes {
    if s == [] then [] else (if IsNewline(s[0]) then [] else [s[0]]) + NoNewlines(s[1..])
  }

  /** Line breaks are skipped wherever they stand. */
  function Decode(s: Bytes): Option<Bytes> {
    Quanta(NoNewlines(s))
  }

  // ----- Base64: what the encoder and the decoder promise -----

  lemma QuadUndo(a: Byte, b: Byte, c: Byte)
    ensures var v, w, x, y := a / 4, a % 4 * 16 + b / 16, b % 16 * 4 + c / 64, c % 64;
            Join1(v, w) == a && Join2(w, x) == b && Join3(x, y) == c
  {
  }

  lemma {:induction false} QuantaUndo(d: Bytes)
    ensures Quanta(Encode(d)) == Some(d)
    decreases |d|
  {
    if |d| == 1 {
      OneByteUndo(d);
    } else if |d| == 2 {
      TwoBytesUndo(d);
    } else if |d| >= 3 {
      QuantaUndo(d[3..]);
      QuadQuanta(d[0], d[1], d[2], Encode(d[3..]), d[3..]);
      assert d == [d[0], d[1], d[2]] + d[3..];
    }
  }

  lemma OneByteUndo(d: Bytes)
    requires |d| == 1
    ensures Quanta(Encode(d)) == Some(d)
  {
    var a := d[0];
    CharUndo(a / 4);
    CharUndo(a % 4 * 16);
    assert Join1(a / 4, a % 4 * 16) == a;
    assert d == [a];
  }

  lemma TwoBytesUndo(d: Bytes)
    requires |d| == 2
    ensures Quanta(Encode(d)) == Some(d)
  {
    var v, w, x := Sextets(d[0], d[1]);
    TwoEncoded(d, v, w, x);
    TwoQuanta(v, w, x);
    assert d == [d[0], d[1]];
  }

  lemma Sextets(a: Byte, b: Byte) returns (v: nat, w: nat, x: nat)
    ensures v == a / 4 && w == a % 4 * 16 + b / 16 && x == b % 16 * 4
    ensures v < 64 && w < 64 && x < 64 && Join1(v, w) == a && Join2(w, x) == b
  {
    QuadUndo(a, b, 0);
    v, w, x := a / 4, a % 4 * 16 + b / 16, b % 16 * 4;
  }

  lemma TwoEncoded(d: Bytes, v: nat, w: nat, x: nat)
    requires |d| == 2 && v == d[0] / 4 && w == d[0] % 4 * 16 + d[1] / 16 && x == d[1] % 16 * 4
    requires v < 64 && w < 64 && x < 64
    ensures Encode(d) == [EncodeChar(v), EncodeChar(w), EncodeChar(x), PAD]
  {
  }

  lemma TwoQuanta(v: nat, w: nat, x: nat)
    requires v < 64 && w < 64 && x < 64
    ensures Quanta([EncodeChar(v), EncodeChar(w), EncodeChar(x), PAD]) == Some([Join1(v, w), Join2(w, x)])
  {
    CharUndo(v);
    CharUndo(w);
    CharUndo(x);
    NotPad(x);
  }

  lemma NotPad(v: nat)
    requires v < 64
    ensures EncodeChar(v) != PAD
  {
  }

  lemma QuadQuanta(a: Byte, b: Byte, c: Byte, s: Bytes, rest: Bytes)
    requires Quanta(s) == Some(rest)
    ensures Quanta(Quad(a, b, c) + s) == Some([a, b, c] + rest)
  {
    CharUndo(a / 4);
    CharUndo(a % 4 * 16 + b / 16);
    CharUndo(b % 16 * 4 + c / 64);
    CharUndo(c % 64);
    QuadUndo(a, b, c);
    assert (Quad(a, b, c) + s)[4..] == s;
  }

  predicate Encoded(b: Byte) { InAlphabet(b) || b == PAD }

  predicate AllEncoded(s: Bytes) { forall b :: b in s ==> Encoded(b) }

  lemma QuadAlphabet(a: Byte, b: Byte, c: Byte)
    ensures AllEncoded(Quad(a, b, c)) && InAlphabet(Quad(a, b, c)[0])
  {
    CharUndo(a / 4);
    CharUndo(a % 4 * 16 + b / 16);
    CharUndo(b % 16 * 4 + c / 64);
    CharUndo(c % 64);
  }

  lemma {:induction false} EncodeAlphabet(d: Bytes)
    ensures AllEncoded(Encode(d))
    ensures d != [] ==> |Encode(d)| > 0 && InAlphabet(Encode(d)[0])
    decreases |d|
  {
    if |d| == 1 {
      QuadAlphabet(d[0], 0, 0);
      assert Encode(d) == Quad(d[0], 0, 0)[2 := PAD][3 := PAD];
    } else if |d| == 2 {
      QuadAlphabet(d[0], d[1], 0);
      assert Encode(d) == Quad(d[0], d[1], 0)[3 := PAD];
    } else if |d| >= 3 {
      QuadAlphabet(d[0], d[1], d[2]);
      EncodeAlphabet(d[3..]);
    }
  }

  lemma {:induction false} EncodeLength(d: Bytes)
    ensures |Encode(d)| == (|d| + 2) / 3 * 4
    decreases |d|
  {
    if |d| < 3 {
      ShortLength(d);
    } else {
      EncodeLength(d[3..]);
      LongLength(d);
      Thirds(|d| - 3);
    }
  }

  lemma ShortLength(d: Bytes)
    requires |d| < 3
    ensures |Encode(d)| == if d == [] then 0 else 4
  {
  }

  lemma LongLength(d: Bytes)
    requires |d| >= 3
    ensures |Encode(d)| == 4 + |Encode(d[3..])|
  {
  }

  lemma Thirds(n: nat)
    ensures (n + 3 + 2) / 3 == (n + 2) / 3 + 1
  {
  }

  // ----- Base64: the encoding itself -----

  const UPPER: string := "ABCDEFGHIJKLMNOPQRSTUVWXYZ"
  const LOWER: string := "abcdefghijklmnopqrstuvwxyz"
  const DIGITS: string := "0123456789"

  /** Table 1 of RFC 4648. */
  function Letter(v: nat): (b: int)
    requires v < 64
    ensures 0 <= b < 256
  {
    if v < 26 then UPPER[v] as int
    else if v < 52 then LOWER[v - 26] as int
    else if v < 62 then DIGITS[v - 52] as int
    else "+/"[v - 62] as int
  }

  lemma LetterIsEncodeChar(v: nat)
    requires v < 64
    ensures Letter(v) == EncodeChar(v)
  {
  }

  lemma QuadValue(a: int, b: int, c: int)
    requires 0 <= a < 256 && 0 <= b < 256 && 0 <= c < 256
    ensures var v, w, x, y := a / 4, a % 4 * 16 + b / 16, b % 16 * 4 + c / 64, c % 64;
            262144 * v + 4096 * w + 64 * x + y == 65536 * a + 256 * b + c
  {
  }

  /** The byte at a position, zero behind the end. */
  function ByteAt(d: Bytes, i: nat): int {
    if i < |d| then d[i] else 0
  }

  lemma FirstGroup(d: Bytes) returns (v: nat, w: nat, x: nat, y: nat)
    requires d != []
    ensures v < 64 && w < 64 && x < 64 && y < 64
    ensures 262144 * v + 4096 * w + 64 * x + y == 65536 * ByteAt(d, 0) + 256 * ByteAt(d, 1) + ByteAt(d, 2)
    ensures |Encode(d)| >= 4 && Encode(d)[0] == EncodeChar(v) && Encode(d)[1] == EncodeChar(w)
    ensures Encode(d)[2] == if |d| > 1 then EncodeChar(x) else PAD
    ensures Encode(d)[3] == if |d| > 2 then EncodeChar(y) else PAD
  {
    var a, b, c := ByteAt(d, 0), ByteAt(d, 1), ByteAt(d, 2);
    QuadValue(a, b, c);
    v, w, x, y := a / 4, a % 4 * 16 + b / 16, b % 16 * 4 + c / 64, c % 64;
  }

  /** At group k, the 24 bits of three bytes of d, missing ones counted as zero, are those of four letters of
      the alphabet in s; a letter that stands for missing bytes only is the padding. */
  predicate IsGroup(d: Bytes, s: Bytes, k: nat, v: nat, w: nat, x: nat, y: nat) {
    && v < 64 && w < 64 && x < 64 && y < 64 && |s| >= 4 * k + 4
    && 262144 * v + 4096 * w + 64 * x + y ==
         65536 * ByteAt(d, 3 * k) + 256 * ByteAt(d, 3 * k + 1) + ByteAt(d, 3 * k + 2)
    && s[4 * k] == Letter(v) && s[4 * k + 1] == Letter(w)
    && s[4 * k + 2] == (if |d| > 3 * k + 1 then Letter(x) else '=' as int)
    && s[4 * k + 3] == (if |d| > 3 * k + 2 then Letter(y) else '=' as int)
  }

  lemma {:induction false} EncodeGroup(d: Bytes, k: nat) returns (v: nat, w: nat, x: nat, y: nat)
    requires 3 * k < |d|
    ensures IsGroup(d, Encode(d), k, v, w, x, y)
    decreases k
  {
    if k == 0 {
      v, w, x, y := FirstGroup(d);
      LetterIsEncodeChar(v);
      LetterIsEncodeChar(w);
      LetterIsEncodeChar(x);
      LetterIsEncodeChar(y);
    } else {
      v, w, x, y := EncodeGroup(d[3..], k - 1);
      LongEncode(d);
      GroupBehind(d, Quad(d[0], d[1], d[2]), Encode(d[3..]), k, v, w, x, y);
    }
  }

  lemma LongEncode(d: Bytes)
    requires |d| >= 3
    ensures Encode(d) == Quad(d[0], d[1], d[2]) + Encode(d[3..])
  {
  }

  lemma GroupBehind(d: Bytes, quad: Bytes, s: Bytes, k: nat, v: nat, w: nat, x: nat, y: nat)
    requires |d| >= 3 && |quad| == 4 && k > 0 && IsGroup(d[3..], s, k - 1, v, w, x, y)
    ensures IsGroup(d, quad + s, k, v, w, x, y)
  {
    var i := 3 * (k - 1);
    assert ByteAt(d, 3 * k) == ByteAt(d[3..], i);
    assert ByteAt(d, 3 * k + 1) == ByteAt(d[3..], i + 1);
    assert ByteAt(d, 3 * k + 2) == ByteAt(d[3..], i + 2);
  }

  /** What decodes, line breaks aside: whole groups of letters, with at most two paddings at the very end. */
  predicate WellFormed(s: Bytes) {
    && |s| % 4 == 0
    && forall i :: 0 <= i < |s| ==>
      InAlphabet(s[i]) || (s[i] == '=' as int && i >= |s| - 2 && s[|s| - 1] == '=' as int)
  }

  lemma {:induction false} QuantaIff(s: Bytes)
    ensures Quanta(s).Some? <==> WellFormed(s)
    decreases |s|
  {
    if |s| == 4 {
      OneQuantum(s);
    } else if |s| > 4 {
      QuantaIff(s[4..]);
      QuantaStep(s);
      WellFormedRest(s);
    }
  }

  lemma OneQuantum(s: Bytes)
    requires |s| == 4
    ensures Quanta(s).Some? <==> WellFormed(s)
  {
    assert !InAlphabet(PAD) && s[4..] == [];
    assert Quanta([]) == Some([]);
  }

  lemma QuantaStep(s: Bytes)
    requires |s| > 4
    ensures Quanta(s).Some? <==> Quanta(s[4..]).Some? && forall i :: 0 <= i < 4 ==> InAlphabet(s[i])
  {
    assert !InAlphabet(PAD);
  }

  lemma WellFormedRest(s: Bytes)
    requires |s| > 4
    ensures WellFormed(s) <==> WellFormed(s[4..]) && forall i :: 0 <= i < 4 ==> InAlphabet(s[i])
  {
    var t := s[4..];
    assert forall i :: 0 <= i < |t| ==> t[i] == s[i + 4];
    assert forall i :: 4 <= i < |s| ==> s[i] == t[i - 4];
    assert t[|t| - 1] == s[|s| - 1];
  }

  lemma DecodesIff(s: Bytes)
    ensures Decode(s).Some? <==> WellFormed(NoNewlines(s))
  {
    QuantaIff(NoNewlines(s));
  }

  lemma FirstFour(s: Bytes)
    ensures Quanta(s).Some? && s != [] ==>
              |s| >= 4 && Encoded(s[0]) && Encoded(s[1]) && Encoded(s[2]) && Encoded(s[3])
  {
  }

  lemma RestDecodes(s: Bytes)
    requires Quanta(s).Some? && s != []
    ensures |s| >= 4 && Quanta(s[4..]).Some?
  {
    if s[2] == PAD || s[3] == PAD { assert s[4..] == []; }
  }

  lemma {:induction false} DecodedAlphabet(s: Bytes)
    requires Quanta(s).Some?
    ensures forall i :: 0 <= i < |s| ==> Encoded(s[i])
    decreases |s|
  {
    if s != [] {
      FirstFour(s);
      RestDecodes(s);
      DecodedAlphabet(s[4..]);
      assert forall i :: 4 <= i < |s| ==> s[i] == s[4..][i - 4];
    }
  }

  lemma {:induction false} DecodedShorter(s: Bytes)
    requires Quanta(s).Some?
    ensures 4 * |Quanta(s).value| <= 3 * |s|
    decreases |s|
  {
    if s != [] && s[2] != PAD && s[3] != PAD { DecodedShorter(s[4..]); }
  }

  lemma {:induction false} NoNewlinesKeeps(s: Bytes)
    requires forall b :: b in s ==> !IsNewline(b)
    ensures NoNewlines(s) == s
  {
    if s != [] { NoNewlinesKeeps(s[1..]); }
  }

  lemma {:induction false} NoNewlinesMembers(s: Bytes)
    ensures forall b :: b in NoNewlines(s) <==> b in s && !IsNewline(b)
    ensures |NoNewlines(s)| <= |s|
  {
    if s != [] { NoNewlinesMembers(s[1..]); }
  }

  lemma {:induction false} NoNewlinesConcat(s: Bytes, t: Bytes)
    ensures NoNewlines(s + t) == NoNewlines(s) + NoNewlines(t)
  {
    if s == [] {
      assert s + t == t;
    } else {
      assert (s + t)[1..] == s[1..] + t;
      NoNewlinesConcat(s[1..], t);
    }
  }

  /** Decoding undoes encoding, for every length. */
  lemma DecodeUndoesEncode(d: Bytes)
    ensures Decode(Encode(d)) == Some(d)
  {
    EncodeAlphabet(d);
    NoNewlinesKeeps(Encode(d));
    QuantaUndo(d);
  }

  function CharByte(c: char): Byte
    requires c as int < 256
  {
    c as int
  }

  function Ascii(text: string): Bytes
    requires forall i :: 0 <= i < |text| ==> text[i] as int < 256
  {
    seq(|text|, i requires 0 <= i < |text| => CharByte(text[i]))
  }

  // ----- trimming -----

  /** The ASCII white space. */
  predicate IsSpace(b: Byte) { 9 <= b <= 13 || b == 32 }

  function TrimLeft(s: Bytes): Bytes {
    if s != [] && IsSpace(s[0]) then TrimLeft(s[1..]) else s
  }

  function TrimRight(s: Bytes): Bytes {
    if s != [] && IsSpace(s[|s| - 1]) then TrimRight(s[..|s| - 1]) else s
  }

  function TrimSpace(s: Bytes): Bytes {
    TrimRight(TrimLeft(s))
  }

  lemma NothingToTrim(s: Bytes)
    requires forall b :: b in s ==> !IsSpace(b)
    ensures TrimSpace(s) == s
  {
    if s != [] { assert s[0] in s && s[|s| - 1] in s; }
  }

  predicate AllSpace(s: Bytes) { forall b :: b in s ==> IsSpace(b) }

  lemma {:induction false} TrimLeftSplit(s: Bytes) returns (left: Bytes)
    ensures s == left + TrimLeft(s) && AllSpace(left)
  {
    if s != [] && IsSpace(s[0]) {
      left := TrimLeftSplit(s[1..]);
      left := [s[0]] + left;
    } else {
      left := [];
    }
  }

  lemma {:induction false} TrimRightSplit(s: Bytes) returns (right: Bytes)
    ensures s == TrimRight(s) + right && AllSpace(right)
  {
    if s != [] && IsSpace(s[|s| - 1]) {
      right := TrimRightSplit(s[..|s| - 1]);
      right := right + [s[|s| - 1]];
    } else {
      right := [];
    }
  }

  predicate IsWhite(b: Byte) {
    b == 32 || b == 9 || b == 10 || b == 11 || b == 12 || b == 13
  }

  /** Blanks, tabs, line breaks and feeds go at both ends, and nothing else does. */
  lemma TrimSpaceIs(s: Bytes) returns (left: Bytes, right: Bytes)
    ensures s == left + TrimSpace(s) + right
    ensures forall b :: b in left + right ==> IsWhite(b)
    ensures TrimSpace(s) != [] ==> !IsWhite(TrimSpace(s)[0]) && !IsWhite(TrimSpace(s)[|TrimSpace(s)| - 1])
  {
    left := TrimLeftSplit(s);
    right := TrimRightSplit(TrimLeft(s));
    assert s == left + (TrimSpace(s) + right);
    TrimLeftStart(s);
    TrimRightEnd(TrimLeft(s));
    if TrimSpace(s) != [] { assert TrimSpace(s)[0] == TrimLeft(s)[0]; }
  }

  lemma {:induction false} TrimLeftStart(s: Bytes)
    ensures TrimLeft(s) != [] ==> !IsSpace(TrimLeft(s)[0])
  {
    if s != [] && IsSpace(s[0]) { TrimLeftStart(s[1..]); }
  }

  lemma {:induction false} TrimRightEnd(s: Bytes)
    ensures TrimRight(s) != [] ==> !IsSpace(TrimRight(s)[|TrimRight(s)| - 1])
  {
    if s != [] && IsSpace(s[|s| - 1]) { TrimRightEnd(s[..|s| - 1]); }
  }

  // ----- the marshalers -----

  function CryptoMarshal(key: Bytes, json: Bytes): Bytes
    requires key != []
  {
    Encode(Crypt(key, TrimSpace(json)))
  }

  /** The bytes handed to the JSON decoder. */
  function CryptoUnmarshal(key: Bytes, data: Bytes): Result
    requires key != []
  {
    match Decode(data)
    case None => Corrupt
    case Some(encrypted) => Ok(Crypt(key, encrypted))
  }

  predicate NeedsDecryption(data: Bytes) {
    var s := TrimSpace(data);
    s != [] && s[0] != '{' as int && s[0] != '[' as int && Decode(s).Some?
  }

  function StreamUnmarshal(key: Bytes, data: Bytes): Result
    requires key != []
  {
    if NeedsDecryption(data) then CryptoUnmarshal(key, data) else Ok(data)
  }

  /** What the multi marshaler does with a request, whichever path the shared current request names. */
  function MultiUnmarshal(key: Bytes, isStreaming: bool, data: Bytes): Result
    requires key != []
  {
    if isStreaming then StreamUnmarshal(key, data) else CryptoUnmarshal(key, data)
  }

  class CryptoMarshaler {
    const key: Bytes

    constructor (key: Bytes)
      requires key != []
      ensures this.key == key
    {
      this.key := key;
    }

    method Encrypt(data: Bytes) returns (result: array<Byte>)
      requires key != []
      ensures fresh(result) && result[..] == Crypt(key, data)
    {
      result := new Byte[|data|](i => 0);
      for i := 0 to |data|
        invariant forall k :: 0 <= k < i ==> result[k] == Crypt(key, data)[k]
      {
        result[i] := Xor(data[i], key[i % |key|]);
      }
    }

    method Marshal(json: Bytes) returns (encoded: Bytes)
      requires key != []
      ensures encoded == CryptoMarshal(key, json)
    {
      var encrypted := Encrypt(TrimSpace(json));
      encoded := Encode(encrypted[..]);
    }

    method Unmarshal(data: Bytes) returns (r: Result)
      requires key != []
      ensures r == CryptoUnmarshal(key, data)
    {
      var encryptedData := Decode(data);
      if encryptedData.None? { return Corrupt; }
      var decrypted := Encrypt(encryptedData.value);
      r := Ok(decrypted[..]);
    }
  }

  // ----- main results -----

  /** What the encrypting marshaler writes, it reads back. */
  lemma CryptoRoundTrip(key: Bytes, json: Bytes)
    requires key != []
    ensures CryptoUnmarshal(key, CryptoMarshal(key, json)) == Ok(TrimSpace(json))
  {
    DecodeUndoesEncode(Crypt(key, TrimSpace(json)));
    CryptUndo(key, TrimSpace(json));
  }

  /** And so does the stream marshaler, on either setting of the shared request. */
  lemma EncryptedRequestsAreRead(key: Bytes, json: Bytes, isStreaming: bool)
    requires key != []
    ensures MultiUnmarshal(key, isStreaming, CryptoMarshal(key, json)) == Ok(TrimSpace(json))
  {
    var d := Crypt(key, TrimSpace(json));
    CryptoRoundTrip(key, json);
    EncodedIsRecognized(d);
    if d == [] { assert TrimSpace(json) == []; }
  }

  lemma EncodedIsRecognized(d: Bytes)
    ensures NeedsDecryption(Encode(d)) <==> d != []
  {
    EncodeAlphabet(d);
    NothingToTrim(Encode(d));
    DecodeUndoesEncode(d);
  }

  /** Plain JSON whose first byte is not of the alphabet, an object, an array or a string, passes. */
  lemma PlainJsonPasses(key: Bytes, data: Bytes)
    requires key != []
    requires TrimSpace(data) != [] && !InAlphabet(TrimSpace(data)[0]) && !IsNewline(TrimSpace(data)[0])
    ensures StreamUnmarshal(key, data) == Ok(data)
  {
    var s := TrimSpace(data);
    assert NoNewlines(s)[0] == s[0];
  }

  /** Data passes unchanged exactly when, trimmed, it is empty or no well-formed Base64. */
  lemma PassesUnchangedIff(key: Bytes, data: Bytes)
    requires key != []
    ensures StreamUnmarshal(key, data) == Ok(data) <==>
              TrimSpace(data) == [] || !WellFormed(NoNewlines(TrimSpace(data)))
  {
    DecodesIff(TrimSpace(data));
    var s := TrimSpace(data);
    if s != [] && (s[0] == '{' as int || s[0] == '[' as int) { BracketsDoNotDecode(s); }
    UnchangedIffNotDecrypted(key, data);
  }

  lemma BracketsDoNotDecode(s: Bytes)
    requires s != [] && (s[0] == '{' as int || s[0] == '[' as int)
    ensures Decode(s).None?
  {
    DecodesIff(s);
    assert NoNewlines(s)[0] == s[0];
  }

  lemma UnchangedIffNotDecrypted(key: Bytes, data: Bytes)
    requires key != []
    ensures StreamUnmarshal(key, data) == Ok(data) <==> !NeedsDecryption(data)
  {
    if NeedsDecryption(data) && Decode(data).Some? {
      DecodedShorter(NoNewlines(data));
      NoNewlinesMembers(data);
      assert data != [];
    }
  }

  /** A word of the alphabet whose length is a multiple of four is taken for one, so of plain JSON the
      literals true and null and numbers of such a length are garbled. */
  lemma {:induction false} AlphabetWordDecodes(s: Bytes)
    requires |s| % 4 == 0 && forall b :: b in s ==> InAlphabet(b)
    ensures Quanta(s).Some?
    decreases |s|
  {
    if s != [] {
      assert s[0] in s && s[1] in s && s[2] in s && s[3] in s && !InAlphabet(PAD);
      AlphabetWordDecodes(s[4..]);
    }
  }

  lemma AlphabetWordIsGarbled(key: Bytes, s: Bytes)
    requires key != [] && s != [] && |s| % 4 == 0 && forall b :: b in s ==> InAlphabet(b)
    ensures StreamUnmarshal(key, s) != Ok(s)
  {
    AlphabetWordDecodes(s);
    NoNewlinesKeeps(s);
    NothingToTrim(s);
    assert s[0] in s;
    UnchangedIffNotDecrypted(key, s);
  }

  lemma TrueIsGarbled(key: Bytes)
    requires key != []
    ensures StreamUnmarshal(key, Ascii("true")) != Ok(Ascii("true"))
  {
    AlphabetWordIsGarbled(key, Ascii("true"));
  }

  /** The guess looks at the trimmed bytes but the decoder gets the untrimmed ones: an encoded request
      is refused exactly when it carries white space other than line breaks. */
  lemma RefusedIffSpace(key: Bytes, data: Bytes)
    requires key != [] && NeedsDecryption(data)
    ensures StreamUnmarshal(key, data) == Corrupt <==>
              exists b :: b in data && (b == 32 || b == 9 || b == 11 || b == 12)
  {
    NoNewlinesMembers(data);
    if b :| b in data && IsSpace(b) && !IsNewline(b) {
      assert b in NoNewlines(data) && !Encoded(b);
      if Decode(data).Some? { DecodedAlphabet(NoNewlines(data)); }
    } else {
      NewlinesAroundVanish(data);
    }
  }

  lemma NewlinesAroundVanish(data: Bytes)
    requires forall b :: b in data && IsSpace(b) ==> IsNewline(b)
    ensures NoNewlines(data) == NoNewlines(TrimSpace(data))
  {
    var left := TrimLeftSplit(data);
    var s := TrimLeft(data);
    var right := TrimRightSplit(s);
    NoNewlinesConcat(left, s);
    NoNewlinesConcat(TrimSpace(data), right);
    forall b | b in left ensures IsNewline(b) { assert b in data; }
    forall b | b in right ensures IsNewline(b) { assert b in s && b in data; }
    OnlyNewlinesVanish(left);
    OnlyNewlinesVanish(right);
  }

  lemma {:induction false} OnlyNewlinesVanish(s: Bytes)
    requires forall b :: b in s ==> IsNewline(b)
    ensures NoNewlines(s) == []
  {
    if s != [] { OnlyNewlinesVanish(s[1..]); }
  }
}
