/**
 Length-prefixed framing of hash input, and the texts that stand for hashed values.
 A `char` of a text here is one UTF-8 byte.
 */
module Framing {
  import opened Common

  // ---------- Decimal numerals ----------

  predicate IsDigit(c: char) {
    '0' <= c <= '9'
  }

  function Digit(d: nat): char
    requires d < 10
  {
    ('0' as int + d) as char
  }

  function Decimal(n: nat): string {
    if n < 10 then [Digit(n)] else Decimal(n / 10) + [Digit(n % 10)]
  }

  function Value(digits: string): nat
    requires forall c | c in digits :: IsDigit(c)
  {
    if digits == [] then 0
    else
      var front := digits[..|digits| - 1];
      var last := digits[|digits| - 1];
      assert last in digits && IsDigit(last);
      Value(front) * 10 + (last as int - '0' as int)
  }

  /** The number of digits a text starts with. */
  function DigitRun(s: string): (n: nat)
    ensures n <= |s|
    ensures forall c | c in s[..n] :: IsDigit(c)
  {
    if s == [] || !IsDigit(s[0]) then 0
    else
      var n := DigitRun(s[1..]);
      assert s[..n + 1] == [s[0]] + s[1..][..n];
      n + 1
  }

  /** A numeral is a non-empty run of digits that reads back as the number. */
  lemma {:induction false} DecimalReadsBack(n: nat)
    ensures Decimal(n) != [] && (forall c | c in Decimal(n) :: IsDigit(c))
    ensures Value(Decimal(n)) == n
  {
    if n >= 10 {
      DecimalReadsBack(n / 10);
      var d := Decimal(n);
      assert d[..|d| - 1] == Decimal(n / 10);
    }
  }

  lemma {:induction false} DigitRunStopsAtColon(digits: string, rest: string)
    requires forall c | c in digits :: IsDigit(c)
    ensures DigitRun(digits + ":" + rest) == |digits|
  {
    if digits != [] {
      assert (digits + ":" + rest)[1..] == digits[1..] + ":" + rest;
      DigitRunStopsAtColon(digits[1..], rest);
    }
  }

  // ---------- Frames ----------

  /** hashFrame: byte length in decimal, a colon, the body. */
  function Frame(body: string): string {
    Decimal(|body|) + ":" + body
  }

  /** What a hash object has absorbed after one hashFrame call per body. */
  function Frames(bodies: seq<string>): string {
    if bodies == [] then "" else Frame(bodies[0]) + Frames(bodies[1..])
  }

  /** A reader for the framed stream; None when the stream is not a sequence of frames. */
  function Unframe(stream: string): Option<seq<string>>
    decreases |stream|
  {
    if stream == "" then Some([])
    else
      var n := DigitRun(stream);
      if n == |stream| || stream[n] != ':' then None
      else
        var size, rest := Value(stream[..n]), stream[n + 1..];
        if |rest| < size then None
        else
          match Unframe(rest[size..])
          case None => None
          case Some(bodies) => Some([rest[..size]] + bodies)
  }

  /** The framed stream determines the frames: reading it back returns exactly them. */
  lemma {:induction false} UnframeInvertsFrames(bodies: seq<string>)
    ensures Unframe(Frames(bodies)) == Some(bodies)
  {
    if bodies != [] {
      var body, more := bodies[0], Frames(bodies[1..]);
      var digits, rest := Decimal(|body|), body + more;
      var stream := Frames(bodies);
      assert stream == digits + ":" + rest;
      DecimalReadsBack(|body|);
      DigitRunStopsAtColon(digits, rest);
      assert stream[..|digits|] == digits && stream[|digits| + 1..] == rest;
      assert rest[..|body|] == body && rest[|body|..] == more;
      UnframeInvertsFrames(bodies[1..]);
      assert [body] + bodies[1..] == bodies;
    }
  }

  /** Two frame sequences with the same byte stream are equal. */
  lemma FramesInjective(a: seq<string>, b: seq<string>)
    requires Frames(a) == Frames(b)
    ensures a == b
  {
    UnframeInvertsFrames(a);
    UnframeInvertsFrames(b);
  }

  /** Absorbing one more frame appends to the stream. */
  lemma {:induction false} FramesAppend(bodies: seq<string>, body: string)
    ensures Frames(bodies + [body]) == Frames(bodies) + Frame(body)
  {
    if bodies == [] {
      assert bodies + [body] == [body];
      assert Frames([body]) == Frame(body) + Frames([]);
    } else {
      assert (bodies + [body])[1..] == bodies[1..] + [body];
      FramesAppend(bodies[1..], body);
    }
  }

  // ---------- Texts of values ----------

  function IntText(i: int): string {
    if i < 0 then "-" + Decimal(-i) else Decimal(i)
  }

  lemma IntTextSign(i: int)
    ensures IntText(i) != [] && (IntText(i)[0] == '-' <==> i < 0)
  {
    DecimalReadsBack(if i < 0 then -i else i);
    if i >= 0 {
      assert Decimal(i)[0] in Decimal(i);
    }
  }

  lemma IntTextInjective(i: int, j: int)
    requires IntText(i) == IntText(j)
    ensures i == j
  {
    IntTextSign(i);
    IntTextSign(j);
    DecimalReadsBack(if i < 0 then -i else i);
    DecimalReadsBack(if j < 0 then -j else j);
    if i < 0 {
      assert IntText(i)[1..] == Decimal(-i) && IntText(j)[1..] == Decimal(-j);
    }
  }

  function OptionText(v: Option<string>): string {
    match v
    case None => "null"
    case Some(text) => "\"" + text
  }

  lemma OptionTextInjective(a: Option<string>, b: Option<string>)
    requires OptionText(a) == OptionText(b)
    ensures a == b
  {
    assert OptionText(a)[0] == (if a.Some? then '"' else 'n');
    assert OptionText(b)[0] == (if b.Some? then '"' else 'n');
    if a.Some? && b.Some? {
      assert OptionText(a)[1..] == a.value && OptionText(b)[1..] == b.value;
    }
  }

  type Hash = string

  /**
   A collision-free stand-in for SHA-256: the proofs use nothing about it but that distinct
   inputs have distinct digests.
   */
  function Sha256(input: string): Hash {
    input
  }
}
