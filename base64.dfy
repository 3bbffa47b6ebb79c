/**
 * Base64 as defined in section 4 of RFC 4648 (alphabet A-Z a-z 0-9 + /,
 * padding with '='): the encoding `Convert.ToBase64String` produces, and the
 * strict decoder that accepts exactly the encoder's outputs.
 */
module Base64 {
  import opened Wrappers

  /** An octet. */
  type byte = x: int | 0 <= x < 256

  /** The character of a 6-bit value in the base64 alphabet. */
  function Char64(i: int): (c: char)
    requires 0 <= i < 64
    ensures c != '='
  {
    if i < 26 then ('A' as int + i) as char
    else if i < 52 then ('a' as int + i - 26) as char
    else if i < 62 then ('0' as int + i - 52) as char
    else if i == 62 then '+'
    else '/'
  }

  /** The 6-bit value of an alphabet character; `None` for anything else, the pad included. */
  function Index64(c: char): Option<int> {
    if 'A' <= c <= 'Z' then Some(c as int - 'A' as int)
    else if 'a' <= c <= 'z' then Some(c as int - 'a' as int + 26)
    else if '0' <= c <= '9' then Some(c as int - '0' as int + 52)
    else if c == '+' then Some(62)
    else if c == '/' then Some(63)
    else None
  }

  /** The alphabet is a bijection between 0..63 and its 64 characters. */
  lemma AlphabetBijection(i: int, c: char)
    ensures 0 <= i < 64 ==> Index64(Char64(i)) == Some(i)
    ensures Index64(c).Some? ==> 0 <= Index64(c).value < 64 && Char64(Index64(c).value) == c
  {
  }

  /** A full 24-bit group as four characters. */
  function EncodeTriple(a: byte, b: byte, c: byte): string {
    [Char64(a / 4), Char64(a % 4 * 16 + b / 16), Char64(b % 16 * 4 + c / 64), Char64(c % 64)]
  }

  /** A final group of one octet: two characters and two pads. */
  function EncodeSingle(a: byte): string {
    [Char64(a / 4), Char64(a % 4 * 16), '=', '=']
  }

  /** A final group of two octets: three characters and one pad. */
  function EncodePair(a: byte, b: byte): string {
    [Char64(a / 4), Char64(a % 4 * 16 + b / 16), Char64(b % 16 * 4), '=']
  }

  /** RFC 4648 section 4 encoding, with '=' padding of the final quantum. */
  function Encode(b: seq<byte>): (r: string)
    ensures |r| == (|b| + 2) / 3 * 4
    decreases |b|
  {
    if |b| == 0 then ""
    else if |b| == 1 then EncodeSingle(b[0])
    else if |b| == 2 then EncodePair(b[0], b[1])
    else
      assert (|b| + 2) / 3 * 4 == 4 + (|b| - 3 + 2) / 3 * 4;
      EncodeTriple(b[0], b[1], b[2]) + Encode(b[3..])
  }

  /** Four alphabet characters, no padding: three octets. */
  function DecodeQuad(q: string): Option<seq<byte>>
    requires |q| == 4
  {
    match (Index64(q[0]), Index64(q[1]), Index64(q[2]), Index64(q[3]))
    case (Some(i0), Some(i1), Some(i2), Some(i3)) =>
      if 0 <= i0 < 64 && 0 <= i1 < 64 && 0 <= i2 < 64 && 0 <= i3 < 64 then
        Some([i0 * 4 + i1 / 16, i1 % 16 * 16 + i2 / 4, i2 % 4 * 64 + i3])
      else None
    case _ => None
  }

  /**
   * The last quantum: "xx==" carries one octet and "xxx=" two, and the bits
   * that the encoder sets to zero must be zero.
   */
  function DecodeFinal(q: string): Option<seq<byte>>
    requires |q| == 4
  {
    if q[2] == '=' && q[3] == '=' then
      match (Index64(q[0]), Index64(q[1]))
      case (Some(i0), Some(i1)) =>
        if 0 <= i0 < 64 && 0 <= i1 < 64 && i1 % 16 == 0 then Some([i0 * 4 + i1 / 16]) else None
      case _ => None
    else if q[3] == '=' then
      match (Index64(q[0]), Index64(q[1]), Index64(q[2]))
      case (Some(i0), Some(i1), Some(i2)) =>
        if 0 <= i0 < 64 && 0 <= i1 < 64 && 0 <= i2 < 64 && i2 % 4 == 0 then
          Some([i0 * 4 + i1 / 16, i1 % 16 * 16 + i2 / 4])
        else None
      case _ => None
    else DecodeQuad(q)
  }

  /** Strict decoding: `None` for any string the encoder cannot produce. */
  function Decode(s: string): Option<seq<byte>>
    decreases |s|
  {
    if |s| == 0 then Some([])
    else if |s| < 4 then None
    else if |s| == 4 then DecodeFinal(s)
    else
      match (DecodeQuad(s[..4]), Decode(s[4..]))
      case (Some(head), Some(tail)) => Some(head + tail)
      case _ => None
  }

  lemma QuadRoundTrip(a: byte, b: byte, c: byte)
    ensures DecodeQuad(EncodeTriple(a, b, c)) == Some([a, b, c])
  {
    var i0, i1, i2, i3 := a / 4, a % 4 * 16 + b / 16, b % 16 * 4 + c / 64, c % 64;
    assert i1 / 16 == a % 4 && i1 % 16 == b / 16;
    assert i2 / 4 == b % 16 && i2 % 4 == c / 64;
    AlphabetBijection(i0, 'A');
    AlphabetBijection(i1, 'A');
    AlphabetBijection(i2, 'A');
    AlphabetBijection(i3, 'A');
    assert EncodeTriple(a, b, c) == [Char64(i0), Char64(i1), Char64(i2), Char64(i3)];
  }

  /** A full group carries no pad, so it decodes the same as a last group. */
  lemma TripleIsNotFinal(a: byte, b: byte, c: byte)
    ensures DecodeFinal(EncodeTriple(a, b, c)) == DecodeQuad(EncodeTriple(a, b, c))
  {
    var q := EncodeTriple(a, b, c);
    assert q[2] != '=' && q[3] != '=';
  }

  lemma SingleRoundTrip(a: byte)
    ensures DecodeFinal(EncodeSingle(a)) == Some([a])
  {
    AlphabetBijection(a / 4, 'A');
    AlphabetBijection(a % 4 * 16, 'A');
  }

  lemma PairRoundTrip(a: byte, b: byte)
    ensures DecodeFinal(EncodePair(a, b)) == Some([a, b])
  {
    var i1 := a % 4 * 16 + b / 16;
    AlphabetBijection(a / 4, 'A');
    AlphabetBijection(i1, 'A');
    AlphabetBijection(b % 16 * 4, 'A');
    assert i1 / 16 == a % 4 && i1 % 16 == b / 16;
  }

  /** Decoding undoes encoding. */
  lemma {:induction false} DecodeEncode(b: seq<byte>)
    ensures Decode(Encode(b)) == Some(b)
    decreases |b|
  {
    if |b| == 1 {
      SingleRoundTrip(b[0]);
      assert b == [b[0]];
    } else if |b| == 2 {
      PairRoundTrip(b[0], b[1]);
      assert b == [b[0], b[1]];
    } else if |b| >= 3 {
      DecodeEncode(b[3..]);
      DecodeBlocks(b);
    }
  }

  /** One full group in front of a tail that round-trips. */
  lemma DecodeBlocks(b: seq<byte>)
    requires |b| >= 3 && Decode(Encode(b[3..])) == Some(b[3..])
    ensures Decode(Encode(b)) == Some(b)
  {
    var q := EncodeTriple(b[0], b[1], b[2]);
    var t := Encode(b[3..]);
    assert Encode(b) == q + t;
    DecodeCons(q, t);
    QuadRoundTrip(b[0], b[1], b[2]);
    TripleIsNotFinal(b[0], b[1], b[2]);
    SplitThree(b);
    if t == [] {
      assert Decode(t) == Some([]);
      assert b[3..] == [];
      assert [b[0], b[1], b[2]] + b[3..] == [b[0], b[1], b[2]];
      assert Decode(q + t) == DecodeFinal(q);
    } else {
      assert DecodeQuad(q) == Some([b[0], b[1], b[2]]);
      assert Decode(t) == Some(b[3..]);
      assert Decode(q + t) == Some([b[0], b[1], b[2]] + b[3..]);
    }
  }

  lemma SplitThree<T>(b: seq<T>)
    requires |b| >= 3
    ensures b == [b[0], b[1], b[2]] + b[3..]
  {
  }

  /** Decoding a string of four characters followed by more. */
  lemma DecodeCons(q: string, t: string)
    requires |q| == 4
    ensures t == [] ==> Decode(q + t) == DecodeFinal(q)
    ensures t != [] && DecodeQuad(q).Some? && Decode(t).Some? ==> Decode(q + t) == Some(DecodeQuad(q).value + Decode(t).value)
  {
    var e := q + t;
    assert e[..4] == q && e[4..] == t;
  }

  lemma QuadInverse(q: string)
    requires |q| == 4 && DecodeQuad(q).Some?
    ensures var d := DecodeQuad(q).value;
      |d| == 3 && Encode(d) == q
  {
    var i0, i1, i2, i3 := Index64(q[0]).value, Index64(q[1]).value, Index64(q[2]).value, Index64(q[3]).value;
    AlphabetBijection(0, q[0]);
    AlphabetBijection(0, q[1]);
    AlphabetBijection(0, q[2]);
    AlphabetBijection(0, q[3]);
    var d := DecodeQuad(q).value;
    assert d[0] / 4 == i0 && d[0] % 4 * 16 + d[1] / 16 == i1;
    assert d[1] % 16 * 4 + d[2] / 64 == i2 && d[2] % 64 == i3;
    assert d[3..] == [];
  }

  lemma FinalInverse(q: string)
    requires |q| == 4 && DecodeFinal(q).Some?
    ensures var d := DecodeFinal(q).value;
      1 <= |d| <= 3 && Encode(d) == q
  {
    AlphabetBijection(0, q[0]);
    AlphabetBijection(0, q[1]);
    AlphabetBijection(0, q[2]);
    if q[2] == '=' && q[3] == '=' {
      var i0, i1 := Index64(q[0]).value, Index64(q[1]).value;
      var d := DecodeFinal(q).value;
      assert d[0] / 4 == i0 && d[0] % 4 * 16 == i1;
    } else if q[3] == '=' {
      var i0, i1, i2 := Index64(q[0]).value, Index64(q[1]).value, Index64(q[2]).value;
      var d := DecodeFinal(q).value;
      assert d[0] / 4 == i0 && d[0] % 4 * 16 + d[1] / 16 == i1 && d[1] % 16 * 4 == i2;
    } else {
      QuadInverse(q);
    }
  }

  /** Encoding undoes decoding: the strict decoder accepts only canonical encodings. */
  lemma {:induction false} EncodeDecode(s: string)
    requires Decode(s).Some?
    ensures Encode(Decode(s).value) == s
    decreases |s|
  {
    if |s| == 4 {
      FinalInverse(s);
    } else if |s| > 4 {
      QuadInverse(s[..4]);
      EncodeDecode(s[4..]);
      var head := DecodeQuad(s[..4]).value;
      var tail := Decode(s[4..]).value;
      var d := head + tail;
      assert d[3..] == tail;
      assert Encode(d) == Encode(head) + Encode(tail);
      assert s == s[..4] + s[4..];
    }
  }

  /** Decoding and encoding are inverse to each other. */
  lemma DecodeIffEncode(s: string, b: seq<byte>)
    ensures Decode(s) == Some(b) <==> Encode(b) == s
  {
    if Decode(s) == Some(b) {
      EncodeDecode(s);
    }
    if Encode(b) == s {
      DecodeEncode(b);
    }
  }
}
