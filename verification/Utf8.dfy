/**
 Reading bytes as UTF-8 text and writing the text back: well-formed sequences (section 4 of RFC
 3629) survive, every broken one becomes U+FFFD.
 */
module Utf8 {

  newtype Byte = b: int | 0 <= b < 256

  type Bytes = seq<Byte>

  const REPLACEMENT := 0xFFFD

  predicate Tail(b: Byte) {
    0x80 <= b <= 0xBF
  }

  /** The length a lead byte announces; 0 for a byte that cannot lead. */
  function Announced(b: Byte): nat {
    if b <= 0x7F then 1
    else if 0xC2 <= b <= 0xDF then 2
    else if 0xE0 <= b <= 0xEF then 3
    else if 0xF0 <= b <= 0xF4 then 4
    else 0
  }

  /** The second byte after a lead: no overlong forms, no surrogates, nothing above U+10FFFF. */
  predicate Second(lead: Byte, b: Byte) {
    if lead == 0xE0 then 0xA0 <= b <= 0xBF
    else if lead == 0xED then 0x80 <= b <= 0x9F
    else if lead == 0xF0 then 0x90 <= b <= 0xBF
    else if lead == 0xF4 then 0x80 <= b <= 0x8F
    else Tail(b)
  }

  /** A whole character of `length` bytes, or `length` bytes that begin none. */
  datatype Head = Whole(length: nat) | Broken(length: nat)

  function HeadOf(bytes: Bytes): (h: Head)
    requires bytes != []
    ensures 1 <= h.length <= |bytes| && h.length <= 4
  {
    var n := Announced(bytes[0]);
    if n == 0 then Broken(1)
    else if n == 1 then Whole(1)
    else if |bytes| < 2 || !Second(bytes[0], bytes[1]) then Broken(1)
    else if n == 2 then Whole(2)
    else if |bytes| < 3 || !Tail(bytes[2]) then Broken(2)
    else if n == 3 then Whole(3)
    else if |bytes| < 4 || !Tail(bytes[3]) then Broken(3)
    else Whole(4)
  }

  function Scalar(bytes: Bytes): nat
    requires bytes != [] && HeadOf(bytes).Whole?
  {
    var a := bytes[0] as int;
    match HeadOf(bytes).length
    case 1 => a
    case 2 => (a - 0xC0) * 64 + (bytes[1] as int - 0x80)
    case 3 => (a - 0xE0) * 4096 + (bytes[1] as int - 0x80) * 64 + (bytes[2] as int - 0x80)
    case _ => (a - 0xF0) * 262144 + (bytes[1] as int - 0x80) * 4096 + (bytes[2] as int - 0x80) * 64 + (bytes[3] as int - 0x80)
  }

  /** toString('utf8'). */
  function Decode(bytes: Bytes): seq<nat> {
    if bytes == [] then []
    else
      var h := HeadOf(bytes);
      [if h.Whole? then Scalar(bytes) else REPLACEMENT] + Decode(bytes[h.length..])
  }

  predicate Encodable(c: nat) {
    c <= 0x10FFFF
  }

  function EncodeOne(c: nat): Bytes
    requires Encodable(c)
  {
    if c < 0x80 then [c as Byte]
    else if c < 0x800 then [(0xC0 + c / 64) as Byte, (0x80 + c % 64) as Byte]
    else if c < 0x10000 then [(0xE0 + c / 4096) as Byte, (0x80 + c / 64 % 64) as Byte, (0x80 + c % 64) as Byte]
    else
      [(0xF0 + c / 262144) as Byte, (0x80 + c / 4096 % 64) as Byte, (0x80 + c / 64 % 64) as Byte, (0x80 + c % 64) as Byte]
  }

  /** writeFile(..., 'utf8'). */
  function Encode(text: seq<nat>): Bytes
    requires forall c | c in text :: Encodable(c)
  {
    if text == [] then [] else EncodeOne(text[0]) + Encode(text[1..])
  }

  /** No broken sequence anywhere. */
  predicate WellFormed(bytes: Bytes) {
    bytes == [] || (HeadOf(bytes).Whole? && WellFormed(bytes[HeadOf(bytes).length..]))
  }

  lemma ThreeParts(a: nat, b: nat, d: nat)
    requires b < 64 && d < 64
    ensures
      var c := a * 4096 + b * 64 + d;
      c % 64 == d && c / 64 % 64 == b && c / 4096 == a
  {
    var c := a * 4096 + b * 64 + d;
    assert c / 64 == a * 64 + b;
  }

  lemma FourParts(a: nat, b: nat, d: nat, e: nat)
    requires b < 64 && d < 64 && e < 64
    ensures
      var c := a * 262144 + b * 4096 + d * 64 + e;
      c % 64 == e && c / 64 % 64 == d && c / 4096 % 64 == b && c / 262144 == a
  {
    var c := a * 262144 + b * 4096 + d * 64 + e;
    assert c / 64 == a * 4096 + b * 64 + d;
    assert c / 4096 == a * 64 + b;
  }

  lemma WholeEncodesBack(bytes: Bytes)
    requires bytes != [] && HeadOf(bytes).Whole?
    ensures Encodable(Scalar(bytes)) && EncodeOne(Scalar(bytes)) == bytes[..HeadOf(bytes).length]
  {
    match HeadOf(bytes).length
    case 1 => assert bytes[..1] == [bytes[0]];
    case 2 => assert bytes[..2] == [bytes[0], bytes[1]];
    case 3 => ThreeEncodeBack(bytes);
    case _ => FourEncodeBack(bytes);
  }

  lemma ThreeEncodeBack(bytes: Bytes)
    requires bytes != [] && HeadOf(bytes) == Whole(3)
    ensures Encodable(Scalar(bytes)) && EncodeOne(Scalar(bytes)) == bytes[..3]
  {
    var a, b, d := bytes[0] as int - 0xE0, bytes[1] as int - 0x80, bytes[2] as int - 0x80;
    ThreeParts(a, b, d);
    assert 0x800 <= Scalar(bytes) < 0x10000;
    assert bytes[..3] == [bytes[0], bytes[1], bytes[2]];
  }

  lemma FourEncodeBack(bytes: Bytes)
    requires bytes != [] && HeadOf(bytes) == Whole(4)
    ensures Encodable(Scalar(bytes)) && EncodeOne(Scalar(bytes)) == bytes[..4]
  {
    var a, b, d, e :=
      bytes[0] as int - 0xF0, bytes[1] as int - 0x80, bytes[2] as int - 0x80, bytes[3] as int - 0x80;
    FourParts(a, b, d, e);
    assert 0x10000 <= Scalar(bytes) <= 0x10FFFF;
    assert bytes[..4] == [bytes[0], bytes[1], bytes[2], bytes[3]];
  }

  lemma {:induction false} DecodedIsEncodable(bytes: Bytes)
    ensures forall c | c in Decode(bytes) :: Encodable(c)
  {
    if bytes != [] {
      var h := HeadOf(bytes);
      DecodedIsEncodable(bytes[h.length..]);
      if h.Whole? {
        WholeEncodesBack(bytes);
      }
    }
  }

  /** The bytes after being read as text and written back. */
  function Recode(bytes: Bytes): Bytes {
    DecodedIsEncodable(bytes);
    Encode(Decode(bytes))
  }

  lemma RecodeStep(bytes: Bytes)
    requires bytes != []
    ensures
      var h := HeadOf(bytes);
      Recode(bytes) == (if h.Whole? then bytes[..h.length] else [0xEF, 0xBF, 0xBD]) + Recode(bytes[h.length..])
  {
    var h := HeadOf(bytes);
    DecodedIsEncodable(bytes);
    DecodedIsEncodable(bytes[h.length..]);
    assert Decode(bytes)[1..] == Decode(bytes[h.length..]);
    if h.Whole? {
      WholeEncodesBack(bytes);
    } else {
      assert EncodeOne(REPLACEMENT) == [0xEF, 0xBF, 0xBD];
    }
  }

  lemma BrokenIsNotReplacement(bytes: Bytes)
    requires bytes != [] && HeadOf(bytes).Broken?
    ensures !(|bytes| >= 3 && bytes[0] == 0xEF && bytes[1] == 0xBF && bytes[2] == 0xBD)
  {
  }

  lemma SameEnds(head: Bytes, a: Bytes, b: Bytes)
    ensures head + a == head + b <==> a == b
  {
    if head + a == head + b {
      assert a == (head + a)[|head|..];
      assert b == (head + b)[|head|..];
    }
  }

  /** Reading and writing back keeps the bytes exactly when they are well-formed UTF-8. */
  lemma {:induction false} RecodeKeepsExactlyWellFormed(bytes: Bytes)
    ensures Recode(bytes) == bytes <==> WellFormed(bytes)
  {
    if bytes != [] {
      var h := HeadOf(bytes);
      var rest := bytes[h.length..];
      RecodeStep(bytes);
      hide Recode, HeadOf;
      if h.Whole? {
        RecodeKeepsExactlyWellFormed(rest);
        assert bytes == bytes[..h.length] + rest;
        SameEnds(bytes[..h.length], Recode(rest), rest);
      } else {
        BrokenIsNotReplacement(bytes);
        var out := [0xEF, 0xBF, 0xBD] + Recode(rest);
        assert out[0] == 0xEF && out[1] == 0xBF && out[2] == 0xBD && |out| >= 3;
      }
    }
  }

  lemma WholeHeadStays(a: Bytes, rest: Bytes)
    requires a != [] && HeadOf(a).Whole?
    ensures HeadOf(a + rest) == HeadOf(a)
  {
    var all := a + rest;
    assert all[0] == a[0];
    assert |a| >= 2 ==> all[1] == a[1];
    assert |a| >= 3 ==> all[2] == a[2];
    assert |a| >= 4 ==> all[3] == a[3];
  }

  /** A well-formed beginning is read and written back as it is, whatever follows. */
  lemma {:induction false} WellFormedPrefixStays(a: Bytes, rest: Bytes)
    requires WellFormed(a)
    ensures Recode(a + rest) == a + Recode(rest)
  {
    hide Recode, HeadOf;
    if a == [] {
      assert a + rest == rest;
    } else {
      var n := HeadOf(a).length;
      WholeHeadStays(a, rest);
      RecodeStep(a + rest);
      WellFormedPrefixStays(a[n..], rest);
      assert (a + rest)[n..] == a[n..] + rest && (a + rest)[..n] == a[..n];
      assert a == a[..n] + a[n..];
    }
  }

  // ---------- Well-formed means encoded scalar values ----------

  /** A Unicode scalar value: any code point but the surrogates. */
  predicate IsScalar(c: nat) {
    c <= 0x10FFFF && !(0xD800 <= c <= 0xDFFF)
  }

  ghost predicate AllScalars(text: seq<nat>) {
    forall c | c in text :: IsScalar(c)
  }

  lemma TwoBytes(c: nat, rest: Bytes)
    requires 0x80 <= c < 0x800
    ensures HeadOf(EncodeOne(c) + rest) == Whole(2) && Scalar(EncodeOne(c) + rest) == c
  {
    var bytes := EncodeOne(c) + rest;
    assert bytes[0] as int == 0xC0 + c / 64 && bytes[1] as int == 0x80 + c % 64;
  }

  lemma ThreeBytes(c: nat, rest: Bytes)
    requires 0x800 <= c < 0x10000 && IsScalar(c)
    ensures HeadOf(EncodeOne(c) + rest) == Whole(3) && Scalar(EncodeOne(c) + rest) == c
  {
    var bytes := EncodeOne(c) + rest;
    var a, b, d := c / 4096, c / 64 % 64, c % 64;
    assert c / 64 == a * 64 + b;
    assert c == a * 4096 + b * 64 + d;
    assert bytes[0] as int == 0xE0 + a && bytes[1] as int == 0x80 + b && bytes[2] as int == 0x80 + d;
  }

  lemma FourBytes(c: nat, rest: Bytes)
    requires 0x10000 <= c <= 0x10FFFF
    ensures HeadOf(EncodeOne(c) + rest) == Whole(4) && Scalar(EncodeOne(c) + rest) == c
  {
    var bytes := EncodeOne(c) + rest;
    var a, b, d, e := c / 262144, c / 4096 % 64, c / 64 % 64, c % 64;
    assert c / 4096 == a * 64 + b;
    assert c / 64 == c / 4096 * 64 + d;
    assert c == a * 262144 + b * 4096 + d * 64 + e;
    assert bytes[0] as int == 0xF0 + a && bytes[1] as int == 0x80 + b;
    assert bytes[2] as int == 0x80 + d && bytes[3] as int == 0x80 + e;
  }

  /** The encoding of a scalar value is read back as that value, whatever follows. */
  lemma ScalarReadsBack(c: nat, rest: Bytes)
    requires IsScalar(c)
    ensures HeadOf(EncodeOne(c) + rest) == Whole(|EncodeOne(c)|) && Scalar(EncodeOne(c) + rest) == c
  {
    if c < 0x80 {
      assert (EncodeOne(c) + rest)[0] as int == c;
    } else if c < 0x800 {
      TwoBytes(c, rest);
    } else if c < 0x10000 {
      ThreeBytes(c, rest);
    } else {
      FourBytes(c, rest);
    }
  }

  lemma WholeIsScalar(bytes: Bytes)
    requires bytes != [] && HeadOf(bytes).Whole?
    ensures IsScalar(Scalar(bytes))
  {
  }

  /** Text of scalar values is encoded as well-formed bytes and read back unchanged. */
  lemma {:induction false} TextReadsBack(text: seq<nat>)
    requires AllScalars(text)
    ensures WellFormed(Encode(text)) && Decode(Encode(text)) == text
  {
    if text != [] {
      assert forall c | c in text[1..] :: c in text;
      var c, rest := text[0], Encode(text[1..]);
      hide HeadOf, Scalar, IsScalar, EncodeOne;
      TextReadsBack(text[1..]);
      ScalarReadsBack(c, rest);
      var bytes := EncodeOne(c) + rest;
      assert bytes[|EncodeOne(c)|..] == rest;
      assert text == [c] + text[1..];
    }
  }

  lemma {:induction false} WellFormedDecodes(bytes: Bytes)
    requires WellFormed(bytes)
    ensures AllScalars(Decode(bytes))
  {
    hide Scalar, HeadOf;
    if bytes != [] {
      WholeIsScalar(bytes);
      WellFormedDecodes(bytes[HeadOf(bytes).length..]);
    }
  }

  /** Well-formed bytes are exactly the encodings of texts of scalar values. */
  lemma WellFormedMeansScalars(bytes: Bytes)
    ensures WellFormed(bytes) <==> exists text :: AllScalars(text) && Encode(text) == bytes
  {
    hide WellFormed, Encode, Decode;
    if WellFormed(bytes) {
      RecodeKeepsExactlyWellFormed(bytes);
      WellFormedDecodes(bytes);
      assert AllScalars(Decode(bytes)) && Encode(Decode(bytes)) == bytes;
    }
    if text :| AllScalars(text) && Encode(text) == bytes {
      TextReadsBack(text);
    }
  }

  /** A byte 0xFF between well-formed parts comes back as U+FFFD. */
  lemma StrayByteIsReplaced(a: Bytes, b: Bytes)
    requires WellFormed(a) && WellFormed(b)
    ensures Recode(a + [0xFF] + b) == a + [0xEF, 0xBF, 0xBD] + b
  {
    var rest: Bytes := [0xFF] + b;
    WellFormedPrefixStays(a, rest);
    assert a + [0xFF] + b == a + rest;
    RecodeStep(rest);
    assert rest[1..] == b;
    RecodeKeepsExactlyWellFormed(b);
    hide Recode;
    assert a + ([0xEF, 0xBF, 0xBD] + b) == a + [0xEF, 0xBF, 0xBD] + b;
  }

  /** The bytes of a plain text; a character beyond ASCII is written as a question mark. */
  function Ascii(text: string): Bytes {
    seq(|text|, i requires 0 <= i < |text| => if text[i] as int < 0x80 then text[i] as int as Byte else 0x3F)
  }

  lemma {:induction false} PlainIsWellFormed(bytes: Bytes)
    requires forall i | 0 <= i < |bytes| :: bytes[i] < 0x80
    ensures WellFormed(bytes)
  {
    if bytes != [] {
      PlainIsWellFormed(bytes[1..]);
    }
  }

  lemma AsciiIsWellFormed(text: string)
    ensures WellFormed(Ascii(text))
  {
    PlainIsWellFormed(Ascii(text));
  }
}
