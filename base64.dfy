/**
 * Standard base64 (section 4 of RFC 4648) with `=` padding, as produced by
 * Node.js `Buffer.prototype.toString('base64')`, and its inverse.
 */
module Base64 {
  import opened Common

  /** The 64-letter alphabet: A-Z, a-z, 0-9, '+', '/'. */
  function Letter(i: int): (c: char)
    requires 0 <= i < 64
    ensures IndexOf(c) == Some(i)
  {
    if i < 26 then ('A' as int + i) as char
    else if i < 52 then ('a' as int + (i - 26)) as char
    else if i < 62 then ('0' as int + (i - 52)) as char
    else if i == 62 then '+'
    else '/'
  }

  /** The position of a letter in the alphabet; None for every other character (including '='). */
  function IndexOf(c: char): (r: Option<int>)
    ensures r.Some? ==> 0 <= r.value < 64
    ensures c == '=' ==> r.None?
  {
    if 'A' <= c <= 'Z' then Some(c as int - 'A' as int)
    else if 'a' <= c <= 'z' then Some(c as int - 'a' as int + 26)
    else if '0' <= c <= '9' then Some(c as int - '0' as int + 52)
    else if c == '+' then Some(62)
    else if c == '/' then Some(63)
    else None
  }

  /** A character that may appear in an encoding: a letter or the pad. */
  predicate IsBase64Char(c: char) {
    IndexOf(c).Some? || c == '='
  }

  /** One group of one to three bytes as four characters, padded with '='. */
  function EncodeGroup(g: seq<byte>): (s: string)
    requires 1 <= |g| <= 3
    ensures |s| == 4
    ensures forall i :: 0 <= i < 4 ==> IsBase64Char(s[i])
    ensures s[3] == '=' <==> |g| < 3
    ensures s[2] == '=' <==> |g| == 1
  {
    var b0 := g[0];
    var b1 := if |g| > 1 then g[1] else 0;
    var b2 := if |g| > 2 then g[2] else 0;
    [ Letter(b0 / 4),
      Letter(b0 % 4 * 16 + b1 / 16),
      if |g| > 1 then Letter(b1 % 16 * 4 + b2 / 64) else '=',
      if |g| > 2 then Letter(b2 % 64) else '=' ]
  }

  /** Base64 encoding of a byte sequence. */
  function Encode(b: seq<byte>): (s: string)
    ensures |s| == 4 * ((|b| + 2) / 3)
    ensures forall i :: 0 <= i < |s| ==> IsBase64Char(s[i])
    decreases |b|
  {
    if |b| == 0 then []
    else if |b| <= 3 then EncodeGroup(b)
    else EncodeGroup(b[..3]) + Encode(b[3..])
  }

  /** The bytes of one four-character group; None if it is malformed. */
  function DecodeGroup(s: string): (r: Option<seq<byte>>)
    requires |s| == 4
    ensures r.Some? ==> 1 <= |r.value| <= 3
  {
    var i0, i1, i2, i3 := IndexOf(s[0]), IndexOf(s[1]), IndexOf(s[2]), IndexOf(s[3]);
    if i0.None? || i1.None? then None
    else if s[2] == '=' && s[3] == '=' then
      Some([i0.value * 4 + i1.value / 16])
    else if i2.None? then None
    else if s[3] == '=' then
      Some([i0.value * 4 + i1.value / 16, i1.value % 16 * 16 + i2.value / 4])
    else if i3.None? then None
    else
      Some([i0.value * 4 + i1.value / 16, i1.value % 16 * 16 + i2.value / 4, i2.value % 4 * 64 + i3.value])
  }

  /** The inverse of Encode: padding is accepted only in the final group. */
  function Decode(s: string): (r: Option<seq<byte>>)
    decreases |s|
  {
    if |s| == 0 then Some([])
    else if |s| < 4 then None
    else match DecodeGroup(s[..4])
      case None => None
      case Some(g) =>
        if |g| < 3 && |s| > 4 then None
        else match Decode(s[4..])
          case None => None
          case Some(rest) => Some(g + rest)
  }

  // The bytes of a group come back from its 6-bit letters.

  lemma FirstByteSplit(b0: int, b1: int)
    requires 0 <= b0 < 256 && 0 <= b1 < 256
    ensures (b0 / 4) * 4 + (b0 % 4 * 16 + b1 / 16) / 16 == b0
  {
  }

  lemma SecondByteSplit(b0: int, b1: int, b2: int)
    requires 0 <= b0 < 256 && 0 <= b1 < 256 && 0 <= b2 < 256
    ensures (b0 % 4 * 16 + b1 / 16) % 16 * 16 + (b1 % 16 * 4 + b2 / 64) / 4 == b1
  {
  }

  lemma ThirdByteSplit(b1: int, b2: int)
    requires 0 <= b1 < 256 && 0 <= b2 < 256
    ensures (b1 % 16 * 4 + b2 / 64) % 4 * 64 + b2 % 64 == b2
  {
  }

  lemma DecodeEncodeGroup(g: seq<byte>)
    requires 1 <= |g| <= 3
    ensures DecodeGroup(EncodeGroup(g)) == Some(g)
  {
    if |g| == 1 {
      DecodeEncodeOne(g[0]);
      assert g == [g[0]];
    } else if |g| == 2 {
      DecodeEncodeTwo(g[0], g[1]);
      assert g == [g[0], g[1]];
    } else {
      DecodeEncodeThree(g[0], g[1], g[2]);
      assert g == [g[0], g[1], g[2]];
    }
  }

  lemma DecodeEncodeOne(b0: byte)
    ensures DecodeGroup(EncodeGroup([b0])) == Some([b0])
  {
    var s := EncodeGroup([b0]);
    var i0, i1 := b0 / 4, b0 % 4 * 16;
    assert IndexOf(s[0]) == Some(i0);
    assert IndexOf(s[1]) == Some(i1);
    FirstByteSplit(b0, 0);
  }

  lemma DecodeEncodeTwo(b0: byte, b1: byte)
    ensures DecodeGroup(EncodeGroup([b0, b1])) == Some([b0, b1])
  {
    var s := EncodeGroup([b0, b1]);
    var i0, i1, i2 := b0 / 4, b0 % 4 * 16 + b1 / 16, b1 % 16 * 4;
    assert IndexOf(s[0]) == Some(i0);
    assert IndexOf(s[1]) == Some(i1);
    assert IndexOf(s[2]) == Some(i2);
    FirstByteSplit(b0, b1);
    SecondByteSplit(b0, b1, 0);
  }

  lemma DecodeEncodeThree(b0: byte, b1: byte, b2: byte)
    ensures DecodeGroup(EncodeGroup([b0, b1, b2])) == Some([b0, b1, b2])
  {
    var s := EncodeGroup([b0, b1, b2]);
    var i0, i1, i2, i3 := b0 / 4, b0 % 4 * 16 + b1 / 16, b1 % 16 * 4 + b2 / 64, b2 % 64;
    assert IndexOf(s[0]) == Some(i0);
    assert IndexOf(s[1]) == Some(i1);
    assert IndexOf(s[2]) == Some(i2);
    assert IndexOf(s[3]) == Some(i3);
    FirstByteSplit(b0, b1);
    SecondByteSplit(b0, b1, b2);
    ThirdByteSplit(b1, b2);
  }

  /** Decoding an encoding gives back the bytes: Encode loses nothing. */
  lemma {:induction false} DecodeEncode(b: seq<byte>)
    ensures Decode(Encode(b)) == Some(b)
    decreases |b|
  {
    if |b| == 0 {
    } else if |b| <= 3 {
      DecodeEncodeGroup(b);
      var s := Encode(b);
      assert s[..4] == EncodeGroup(b);
      assert s[4..] == [];
      assert Decode(s[4..]) == Some([]);
      assert b + [] == b;
    } else {
      var s := Encode(b);
      DecodeEncodeGroup(b[..3]);
      DecodeEncode(b[3..]);
      assert s[..4] == EncodeGroup(b[..3]);
      assert s[4..] == Encode(b[3..]);
      assert b[..3] + b[3..] == b;
    }
  }

  /** Two byte sequences with the same encoding are equal. */
  lemma EncodeInjective(a: seq<byte>, b: seq<byte>)
    requires Encode(a) == Encode(b)
    ensures a == b
  {
    DecodeEncode(a);
    DecodeEncode(b);
  }

  /** The encoding is never shorter than the bytes it encodes. */
  lemma EncodeNotShorter(b: seq<byte>)
    ensures |Encode(b)| >= |b|
  {
  }
}
