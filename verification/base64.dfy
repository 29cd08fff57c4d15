/** `Convert.ToBase64String`: the base 64 encoding of section 4 of RFC 4648,
    with `=` padding, and its inverse on the encoder's image. */
module Base64 {

  type Byte = b: int | 0 <= b < 256

  /** A 6-bit group value. */
  type Sextet = s: int | 0 <= s < 64

  /** The alphabet character of a 6-bit value: `A`-`Z`, `a`-`z`, `0`-`9`, `+`, `/`. */
  function Digit(v: Sextet): (c: char)
    ensures InAlphabet(c)
  {
    if v < 26 then (v + 'A' as int) as char
    else if v < 52 then (v - 26 + 'a' as int) as char
    else if v < 62 then (v - 52 + '0' as int) as char
    else if v == 62 then '+'
    else '/'
  }

  predicate InAlphabet(c: char) {
    'A' <= c <= 'Z' || 'a' <= c <= 'z' || '0' <= c <= '9' || c == '+' || c == '/'
  }

  /** The value of an alphabet character: the inverse of `Digit`. */
  function DigitValue(c: char): Sextet {
    if 'A' <= c <= 'Z' then c as int - 'A' as int
    else if 'a' <= c <= 'z' then c as int - 'a' as int + 26
    else if '0' <= c <= '9' then c as int - '0' as int + 52
    else if c == '+' then 62
    else 63
  }

  lemma DigitRoundTrip(v: Sextet)
    ensures DigitValue(Digit(v)) == v
  {
  }

  predicate IsBase64Char(c: char) {
    InAlphabet(c) || c == '='
  }

  /** Three bytes as four characters. */
  function Quad(b0: Byte, b1: Byte, b2: Byte): string {
    [Digit(b0 / 4), Digit((b0 % 4) * 16 + b1 / 16), Digit((b1 % 16) * 4 + b2 / 64), Digit(b2 % 64)]
  }

  /** The encoding: four characters per started group of three bytes, the
      last group padded with `=`. */
  function Encode(bs: seq<Byte>): (r: string)
    ensures |r| == 4 * ((|bs| + 2) / 3)
    ensures forall i :: 0 <= i < |r| ==> IsBase64Char(r[i])
  {
    if |bs| == 0 then ""
    else if |bs| == 1 then Quad(bs[0], 0, 0)[..2] + "=="
    else if |bs| == 2 then Quad(bs[0], bs[1], 0)[..3] + "="
    else
      var q, rest := Quad(bs[0], bs[1], bs[2]), Encode(bs[3..]);
      assert (|bs| + 2) / 3 == (|bs[3..]| + 2) / 3 + 1;
      q + rest
  }

  /** The three bytes a group of four characters stands for. */
  function Unquad(q: string): (r: seq<Byte>)
    requires |q| == 4
    ensures |r| == 3
  {
    var c0, c1, c2, c3 := DigitValue(q[0]), DigitValue(q[1]), DigitValue(q[2]), DigitValue(q[3]);
    [c0 * 4 + c1 / 16, (c1 % 16) * 16 + c2 / 4, (c2 % 4) * 64 + c3]
  }

  lemma Split16(x: nat, y: nat)
    requires y < 16
    ensures (x * 16 + y) / 16 == x && (x * 16 + y) % 16 == y
  {
  }

  lemma Split4(x: nat, y: nat)
    requires y < 4
    ensures (x * 4 + y) / 4 == x && (x * 4 + y) % 4 == y
  {
  }

  lemma QuadRoundTrip(b0: Byte, b1: Byte, b2: Byte)
    ensures Unquad(Quad(b0, b1, b2)) == [b0, b1, b2]
  {
    var c0, c1, c2, c3 := b0 / 4, (b0 % 4) * 16 + b1 / 16, (b1 % 16) * 4 + b2 / 64, b2 % 64;
    var q := Quad(b0, b1, b2);
    assert q == [Digit(c0), Digit(c1), Digit(c2), Digit(c3)];
    DigitRoundTrip(c0);
    DigitRoundTrip(c1);
    DigitRoundTrip(c2);
    DigitRoundTrip(c3);
    Split16(b0 % 4, b1 / 16);
    Split4(b1 % 16, b2 / 64);
    assert c0 * 4 + c1 / 16 == b0;
    assert (c1 % 16) * 16 + c2 / 4 == b1;
    assert (c2 % 4) * 64 + c3 == b2;
  }

  /** Decoding of well-padded text. */
  function Decode(s: string): seq<Byte>
    decreases |s|
  {
    if |s| < 4 then []
    else if |s| == 4 && s[2] == '=' then Unquad(s[..2] + "AA")[..1]
    else if |s| == 4 && s[3] == '=' then Unquad(s[..3] + "A")[..2]
    else Unquad(s[..4]) + Decode(s[4..])
  }

  lemma DecodeOne(b0: Byte)
    ensures Decode(Quad(b0, 0, 0)[..2] + "==") == [b0]
  {
    var q := Quad(b0, 0, 0);
    var e := q[..2] + "==";
    assert e[..2] + "AA" == [q[0], q[1], Digit(0), Digit(0)];
    QuadRoundTrip(b0, 0, 0);
  }

  lemma DecodeTwo(b0: Byte, b1: Byte)
    ensures Decode(Quad(b0, b1, 0)[..3] + "=") == [b0, b1]
  {
    var q := Quad(b0, b1, 0);
    var e := q[..3] + "=";
    assert e[2] == Digit((b1 % 16) * 4);
    assert e[..3] + "A" == [q[0], q[1], q[2], Digit(0)];
    QuadRoundTrip(b0, b1, 0);
  }

  /** An unpadded group followed by a non-empty encoding decodes group by group. */
  lemma DecodeStep(b0: Byte, b1: Byte, b2: Byte, rest: string)
    ensures Decode(Quad(b0, b1, b2) + rest) == [b0, b1, b2] + Decode(rest)
  {
    var q := Quad(b0, b1, b2);
    var e := q + rest;
    assert e[2] == q[2] && e[3] == q[3];
    assert e[..4] == q;
    assert e[4..] == rest;
    QuadRoundTrip(b0, b1, b2);
  }

  lemma DecodeEncodeShort(bs: seq<Byte>)
    requires |bs| <= 2
    ensures Decode(Encode(bs)) == bs
  {
    if |bs| == 1 {
      DecodeOne(bs[0]);
    } else if |bs| == 2 {
      DecodeTwo(bs[0], bs[1]);
    }
  }

  /** Decoding undoes encoding. */
  lemma {:induction false} DecodeEncode(bs: seq<Byte>)
    ensures Decode(Encode(bs)) == bs
    decreases |bs|
  {
    if |bs| <= 2 {
      DecodeEncodeShort(bs);
    } else {
      var rest := Encode(bs[3..]);
      assert Encode(bs) == Quad(bs[0], bs[1], bs[2]) + rest;
      DecodeEncode(bs[3..]);
      DecodeStep(bs[0], bs[1], bs[2], rest);
      assert bs == [bs[0], bs[1], bs[2]] + bs[3..];
    }
  }
}
