/**
 * Base64 with the standard alphabet and '=' padding, as in section 4 of
 * RFC 4648 (Kotlin's `Base64.Default`, no line breaks), with a decoder that
 * inverts it.
 */
module Base64 {
  import opened Wrappers
  import opened Models

  /** The character for the 6-bit value `i` (Table 1 of RFC 4648). */
  function CharOf(i: nat): char
    requires i < 64
  {
    if i < 26 then ('A' as int + i) as char
    else if i < 52 then ('a' as int + (i - 26)) as char
    else if i < 62 then ('0' as int + (i - 52)) as char
    else if i == 62 then '+'
    else '/'
  }

  /** The 6-bit value of an alphabet character, -1 for any other character (the pad '=' included). */
  function ValueOf(c: char): (v: int)
    ensures -1 <= v < 64
  {
    if 'A' <= c <= 'Z' then c as int - 'A' as int
    else if 'a' <= c <= 'z' then c as int - 'a' as int + 26
    else if '0' <= c <= '9' then c as int - '0' as int + 52
    else if c == '+' then 62
    else if c == '/' then 63
    else -1
  }

  lemma ValueOfCharOf(i: nat)
    requires i < 64
    ensures ValueOf(CharOf(i)) == i && CharOf(i) != '='
  {
  }

  /** The ends of the four runs of the alphabet. */
  lemma AlphabetIsRfc4648()
    ensures CharOf(0) == 'A' && CharOf(25) == 'Z' && CharOf(26) == 'a' && CharOf(51) == 'z'
    ensures CharOf(52) == '0' && CharOf(61) == '9' && CharOf(62) == '+' && CharOf(63) == '/'
  {
  }

  /** Three bytes as four characters. */
  function EncodeGroup(a: byte, b: byte, c: byte): (s: string)
    ensures |s| == 4
  {
    [CharOf(a / 4), CharOf((a % 4) * 16 + b / 16), CharOf((b % 16) * 4 + c / 64), CharOf(c % 64)]
  }

  /** `Base64.encode(bytes)`: groups of three bytes, the last one or two bytes padded with '='. */
  function Encode(b: seq<byte>): (s: string)
    ensures |s| == 4 * ((|b| + 2) / 3)
    decreases |b|
  {
    if |b| == 0 then ""
    else if |b| == 1 then [CharOf(b[0] / 4), CharOf((b[0] % 4) * 16), '=', '=']
    else if |b| == 2 then [CharOf(b[0] / 4), CharOf((b[0] % 4) * 16 + b[1] / 16), CharOf((b[1] % 16) * 4), '=']
    else EncodeGroup(b[0], b[1], b[2]) + Encode(b[3..])
  }

  /** Four alphabet characters as three bytes. */
  function DecodeFull(q: string): (r: Option<seq<byte>>)
    requires |q| == 4
    ensures r.Some? ==> |r.value| == 3
  {
    var v0, v1, v2, v3 := ValueOf(q[0]), ValueOf(q[1]), ValueOf(q[2]), ValueOf(q[3]);
    if v0 < 0 || v1 < 0 || v2 < 0 || v3 < 0 then None
    else Some([v0 * 4 + v1 / 16, (v1 % 16) * 16 + v2 / 4, (v2 % 4) * 64 + v3])
  }

  /** The last group, which may carry one or two pad characters. */
  function DecodeLast(q: string): Option<seq<byte>>
    requires |q| == 4
  {
    var v0, v1, v2 := ValueOf(q[0]), ValueOf(q[1]), ValueOf(q[2]);
    if q[2] == '=' && q[3] == '=' then
      if v0 < 0 || v1 < 0 then None else Some([v0 * 4 + v1 / 16])
    else if q[3] == '=' then
      if v0 < 0 || v1 < 0 || v2 < 0 then None else Some([v0 * 4 + v1 / 16, (v1 % 16) * 16 + v2 / 4])
    else DecodeFull(q)
  }

  function Decode(s: string): Option<seq<byte>>
    decreases |s|
  {
    if |s| == 0 then Some([])
    else if |s| < 4 then None
    else if |s| == 4 then DecodeLast(s)
    else
      match DecodeFull(s[..4])
      case None => None
      case Some(g) =>
        match Decode(s[4..])
        case None => None
        case Some(rest) => Some(g + rest)
  }

  lemma GroupRoundTrip(a: byte, b: byte, c: byte)
    ensures DecodeFull(EncodeGroup(a, b, c)) == Some([a, b, c])
  {
    var i0, i1, i2, i3 := a / 4, (a % 4) * 16 + b / 16, (b % 16) * 4 + c / 64, c % 64;
    ValueOfCharOf(i0); ValueOfCharOf(i1); ValueOfCharOf(i2); ValueOfCharOf(i3);
    assert i1 / 16 == a % 4 && i1 % 16 == b / 16;
    assert i2 / 4 == b % 16 && i2 % 4 == c / 64;
  }

  lemma OneByteRoundTrip(b: seq<byte>)
    requires |b| == 1
    ensures Decode(Encode(b)) == Some(b)
  {
    var i0, i1 := b[0] / 4, (b[0] % 4) * 16;
    ValueOfCharOf(i0); ValueOfCharOf(i1);
    assert i1 / 16 == b[0] % 4;
    assert [i0 * 4 + i1 / 16] == b;
  }

  lemma SplitArith(x: int, y: int)
    requires 0 <= x < 256 && 0 <= y < 256
    ensures ((x % 4) * 16 + y / 16) / 16 == x % 4 && ((x % 4) * 16 + y / 16) % 16 == y / 16
    ensures (x / 4) * 4 + x % 4 == x && (y / 16) * 16 + y % 16 == y
    ensures ((y % 16) * 4) / 4 == y % 16
  {
  }

  lemma DecodeLastTwo(q: string)
    requires |q| == 4 && q[2] != '=' && q[3] == '='
    requires ValueOf(q[0]) >= 0 && ValueOf(q[1]) >= 0 && ValueOf(q[2]) >= 0
    ensures DecodeLast(q) == Some([ValueOf(q[0]) * 4 + ValueOf(q[1]) / 16,
                                   (ValueOf(q[1]) % 16) * 16 + ValueOf(q[2]) / 4])
  {
  }

  lemma EncodeTwo(b: seq<byte>)
    requires |b| == 2
    ensures Encode(b) == [CharOf(b[0] / 4), CharOf((b[0] % 4) * 16 + b[1] / 16), CharOf((b[1] % 16) * 4), '=']
  {
  }

  /** A group of four standing alone decodes as the last group. */
  lemma DecodeFour(b: seq<byte>, s: string)
    requires Encode(b) == s && |s| == 4 && DecodeLast(s) == Some(b)
    ensures Decode(Encode(b)) == Some(b)
  {
  }

  /** The padded group of two bytes decodes back to them. */
  lemma TwoBytesGroup(x: byte, y: byte)
    ensures DecodeLast([CharOf(x / 4), CharOf((x % 4) * 16 + y / 16), CharOf((y % 16) * 4), '=']) == Some([x, y])
  {
    var i0, i1, i2 := x / 4, (x % 4) * 16 + y / 16, (y % 16) * 4;
    SplitArith(x, y);
    ValueOfCharOf(i0); ValueOfCharOf(i1); ValueOfCharOf(i2);
    var s := [CharOf(i0), CharOf(i1), CharOf(i2), '='];
    assert ValueOf(s[0]) == i0 && ValueOf(s[1]) == i1 && ValueOf(s[2]) == i2;
    assert i0 * 4 + i1 / 16 == x;
    assert (i1 % 16) * 16 + i2 / 4 == y;
    DecodeLastTwo(s);
  }

  lemma TwoBytesRoundTrip(b: seq<byte>)
    requires |b| == 2
    ensures Decode(Encode(b)) == Some(b)
  {
    EncodeTwo(b);
    TwoBytesGroup(b[0], b[1]);
    assert [b[0], b[1]] == b;
    DecodeFour(b, Encode(b));
  }

  /** Three bytes or more: the first group, then the rest. */
  lemma EncodeLonger(b: seq<byte>)
    requires |b| >= 3
    ensures Encode(b) == EncodeGroup(b[0], b[1], b[2]) + Encode(b[3..])
  {
  }

  lemma DecodeLonger(g: string, rest: string)
    requires |g| == 4 && |rest| > 0
    ensures Decode(g + rest) ==
              match DecodeFull(g)
              case None => None
              case Some(x) =>
                match Decode(rest)
                case None => None
                case Some(y) => Some(x + y)
  {
    assert (g + rest)[..4] == g && (g + rest)[4..] == rest;
  }

  lemma ThreeBytesRoundTrip(b: seq<byte>)
    requires |b| == 3
    ensures Decode(Encode(b)) == Some(b)
  {
    var g := EncodeGroup(b[0], b[1], b[2]);
    GroupRoundTrip(b[0], b[1], b[2]);
    EncodeLonger(b);
    assert Encode(b[3..]) == "";
    assert Encode(b) == g;
    ValueOfCharOf(b[2] % 64);
    assert g[3] != '=';
    assert DecodeLast(g) == DecodeFull(g);
    assert [b[0], b[1], b[2]] == b;
    DecodeFour(b, g);
  }

  lemma GroupPrefix(b: seq<byte>)
    requires |b| >= 3
    ensures DecodeFull(EncodeGroup(b[0], b[1], b[2])) == Some(b[..3])
  {
    GroupRoundTrip(b[0], b[1], b[2]);
    assert b[..3] == [b[0], b[1], b[2]];
  }

  /** The first group round-trips, so the whole does when the rest does. */
  lemma LongerRoundTrip(b: seq<byte>)
    requires |b| > 3 && Decode(Encode(b[3..])) == Some(b[3..])
    ensures Decode(Encode(b)) == Some(b)
  {
    EncodeLonger(b);
    GroupPrefix(b);
    DecodeLonger(EncodeGroup(b[0], b[1], b[2]), Encode(b[3..]));
    SplitThree(b);
  }

  lemma SplitThree(b: seq<byte>)
    requires |b| >= 3
    ensures b[..3] + b[3..] == b
  {
  }

  /** Decoding an encoding gives the bytes back. */
  lemma {:induction false} DecodeEncode(b: seq<byte>)
    ensures Decode(Encode(b)) == Some(b)
    decreases |b|
  {
    if |b| == 1 {
      OneByteRoundTrip(b);
    } else if |b| == 2 {
      TwoBytesRoundTrip(b);
    } else if |b| == 3 {
      ThreeBytesRoundTrip(b);
    } else if |b| > 3 {
      DecodeEncode(b[3..]);
      LongerRoundTrip(b);
    }
  }
}
