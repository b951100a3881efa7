/** UTF-8 as section 3 and the syntax of section 4 of RFC 3629 define it, and the
    character boundaries of `str::is_char_boundary`. */
module Utf8 {
  import opened RustStr

  newtype byte = x: int | 0 <= x < 256

  predicate IsTail(b: byte) {
    0x80 <= b <= 0xBF
  }

  /** Length of the well-formed character a byte string starts with, 0 if it starts with none. */
  function CharLen(b: seq<byte>): (n: nat)
    ensures n <= |b| && n <= 4
    ensures forall i :: 1 <= i < n ==> IsTail(b[i])
    ensures n > 0 ==> !IsTail(b[0])
  {
    if b == [] then 0
    else if b[0] <= 0x7F then 1
    else if |b| >= 2 && 0xC2 <= b[0] <= 0xDF && IsTail(b[1]) then 2
    else if |b| >= 3 && 0xE0 <= b[0] <= 0xEF && IsTail(b[1]) && IsTail(b[2])
            && (b[0] == 0xE0 ==> 0xA0 <= b[1]) && (b[0] == 0xED ==> b[1] <= 0x9F) then 3
    else if |b| >= 4 && 0xF0 <= b[0] <= 0xF4 && IsTail(b[1]) && IsTail(b[2]) && IsTail(b[3])
            && (b[0] == 0xF0 ==> 0x90 <= b[1]) && (b[0] == 0xF4 ==> b[1] <= 0x8F) then 4
    else 0
  }

  predicate WellFormed(b: seq<byte>)
    decreases |b|
  {
    b == [] || (CharLen(b) > 0 && WellFormed(b[CharLen(b)..]))
  }

  /** The bits of a scalar value in groups of six, least significant first. */
  function Lo(n: nat): nat { n % 64 }
  function Hi(n: nat): nat { n / 64 }

  function EncodeChar(c: char): (b: seq<byte>)
    ensures |b| == Utf8Len(c)
  {
    var n := c as int;
    if n < 0x80 then [n as byte]
    else if n < 0x800 then [(0xC0 + Hi(n)) as byte, (0x80 + Lo(n)) as byte]
    else if n < 0x1_0000 then
      [(0xE0 + Hi(Hi(n))) as byte, (0x80 + Lo(Hi(n))) as byte, (0x80 + Lo(n)) as byte]
    else
      [(0xF0 + Hi(Hi(Hi(n)))) as byte, (0x80 + Lo(Hi(Hi(n)))) as byte,
       (0x80 + Lo(Hi(n))) as byte, (0x80 + Lo(n)) as byte]
  }

  function Encode(s: string): (b: seq<byte>)
    ensures |b| == ByteLen(s)
  {
    if s == "" then [] else EncodeChar(s[0]) + Encode(s[1..])
  }

  /** The number the payload bits of the first character spell. */
  function Scalar(b: seq<byte>): int
    requires CharLen(b) > 0
  {
    var n := CharLen(b);
    if n == 1 then b[0] as int
    else if n == 2 then (b[0] as int - 0xC0) * 64 + (b[1] as int - 0x80)
    else if n == 3 then
      ((b[0] as int - 0xE0) * 64 + (b[1] as int - 0x80)) * 64 + (b[2] as int - 0x80)
    else
      (((b[0] as int - 0xF0) * 64 + (b[1] as int - 0x80)) * 64 + (b[2] as int - 0x80)) * 64
      + (b[3] as int - 0x80)
  }

  /** The first character of a byte string that starts with one. */
  function DecodeChar(b: seq<byte>): char
    requires CharLen(b) > 0
  {
    Scalar(b) as char
  }

  function Decode(b: seq<byte>): string
    requires WellFormed(b)
    decreases |b|
  {
    if b == [] then "" else [DecodeChar(b)] + Decode(b[CharLen(b)..])
  }

  lemma EncodedCharParses(c: char, rest: seq<byte>)
    ensures CharLen(EncodeChar(c) + rest) == Utf8Len(c)
    ensures DecodeChar(EncodeChar(c) + rest) == c
  {
    var n := c as int;
    var b := EncodeChar(c) + rest;
    assert forall i :: 0 <= i < |EncodeChar(c)| ==> b[i] == EncodeChar(c)[i];
    if n < 0x80 {
    } else if n < 0x800 {
      assert b[0] as int == 0xC0 + n / 64 && b[1] as int == 0x80 + n % 64;
    } else if n < 0x1_0000 {
      var m := n / 64;
      assert n == 64 * m + n % 64;
      assert b[0] as int == 0xE0 + m / 64 && b[1] as int == 0x80 + m % 64 && b[2] as int == 0x80 + n % 64;
    } else {
      var m := n / 64;
      var k := m / 64;
      assert n == 64 * m + n % 64 && m == 64 * k + m % 64;
      assert b[0] as int == 0xF0 + k / 64 && b[1] as int == 0x80 + k % 64;
      assert b[2] as int == 0x80 + m % 64 && b[3] as int == 0x80 + n % 64;
    }
  }

  lemma SixBitGroups(hi: nat, lo: nat)
    requires lo < 64
    ensures Hi(64 * hi + lo) == hi && Lo(64 * hi + lo) == lo
  {
  }

  lemma EncodeTwo(c: char, x: nat, y: nat)
    requires c as int == 64 * x + y && 2 <= x < 32 && y < 64
    ensures EncodeChar(c) == [(0xC0 + x) as byte, (0x80 + y) as byte]
  {
    SixBitGroups(x, y);
  }

  lemma EncodeThree(c: char, x: nat, y: nat, z: nat)
    requires c as int == 64 * (64 * x + y) + z && 32 <= 64 * x + y && x < 16 && y < 64 && z < 64
    ensures EncodeChar(c) == [(0xE0 + x) as byte, (0x80 + y) as byte, (0x80 + z) as byte]
  {
    SixBitGroups(64 * x + y, z);
    SixBitGroups(x, y);
  }

  lemma EncodeFour(c: char, w: nat, x: nat, y: nat, z: nat)
    requires c as int == 64 * (64 * (64 * w + x) + y) + z && 16 <= 64 * w + x
    requires w < 8 && x < 64 && y < 64 && z < 64
    ensures EncodeChar(c) ==
            [(0xF0 + w) as byte, (0x80 + x) as byte, (0x80 + y) as byte, (0x80 + z) as byte]
  {
    SixBitGroups(64 * (64 * w + x) + y, z);
    SixBitGroups(64 * w + x, y);
    SixBitGroups(w, x);
  }

  lemma DecodedCharEncodes(b: seq<byte>)
    requires CharLen(b) > 0
    ensures EncodeChar(DecodeChar(b)) == b[..CharLen(b)]
  {
    var c := DecodeChar(b);
    if CharLen(b) == 1 {
    } else if CharLen(b) == 2 {
      EncodeTwo(c, b[0] as int - 0xC0, b[1] as int - 0x80);
    } else if CharLen(b) == 3 {
      EncodeThree(c, b[0] as int - 0xE0, b[1] as int - 0x80, b[2] as int - 0x80);
    } else {
      EncodeFour(c, b[0] as int - 0xF0, b[1] as int - 0x80, b[2] as int - 0x80, b[3] as int - 0x80);
    }
  }

  /** Encoding is injective and its image is exactly the well-formed byte strings. */
  lemma {:induction false} EncodeDecode(s: string)
    ensures WellFormed(Encode(s)) && Decode(Encode(s)) == s
  {
    if s != "" {
      var rest := Encode(s[1..]);
      EncodedCharParses(s[0], rest);
      assert (EncodeChar(s[0]) + rest)[Utf8Len(s[0])..] == rest;
      EncodeDecode(s[1..]);
    }
  }

  lemma EncodedHead(b: seq<byte>, rest: string)
    requires CharLen(b) > 0 && Encode(rest) == b[CharLen(b)..]
    ensures Encode([DecodeChar(b)] + rest) == b
  {
    DecodedCharEncodes(b);
    EncodeCons(DecodeChar(b), rest);
    assert b == b[..CharLen(b)] + b[CharLen(b)..];
  }

  lemma {:induction false} DecodeEncode(b: seq<byte>)
    requires WellFormed(b)
    ensures Encode(Decode(b)) == b
    decreases |b|
  {
    if b != [] {
      var rest := b[CharLen(b)..];
      DecodeEncode(rest);
      EncodedHead(b, Decode(rest));
    }
  }

  lemma EncodeCons(c: char, rest: string)
    ensures Encode([c] + rest) == EncodeChar(c) + Encode(rest)
  {
    assert ([c] + rest)[1..] == rest;
  }

  lemma {:induction false} EncodeAppend(s: string, t: string)
    ensures Encode(s + t) == Encode(s) + Encode(t)
  {
    if s == "" {
      assert s + t == t;
    } else {
      assert (s + t)[1..] == s[1..] + t;
      EncodeAppend(s[1..], t);
    }
  }

  /** `str::is_char_boundary`. */
  predicate IsCharBoundary(b: seq<byte>, i: nat) {
    i == 0 || i == |b| || (i < |b| && !IsTail(b[i]))
  }

  /** Cutting a text at a boundary, and nowhere else, leaves two texts. */
  lemma {:induction false} BoundaryCuts(b: seq<byte>, i: nat)
    requires WellFormed(b) && i <= |b|
    ensures IsCharBoundary(b, i) ==> WellFormed(b[..i]) && WellFormed(b[i..])
    ensures WellFormed(b[..i]) ==> IsCharBoundary(b, i)
    decreases |b|
  {
    if i == 0 {
      assert b[0..] == b;
    } else {
      var n := CharLen(b);
      if i < n {
        assert CharLen(b[..i]) != n;
        ShorterPrefixIsNoChar(b, i);
      } else {
        BoundaryCuts(b[n..], i - n);
        assert b[..i][..n] == b[..n];
        assert b[..i][n..] == b[n..][..i - n];
        assert b[i..] == b[n..][i - n..];
        CharLenOfPrefix(b, i);
        assert i < |b| ==> b[i] == b[n..][i - n];
      }
    }
  }

  /** Whether a text starts with a character is decided by that character's bytes alone. */
  lemma CharLenOfPrefix(b: seq<byte>, i: nat)
    requires CharLen(b) > 0 && CharLen(b) <= i <= |b|
    ensures CharLen(b[..i]) == CharLen(b)
  {
  }

  lemma ShorterPrefixIsNoChar(b: seq<byte>, i: nat)
    requires 0 < i < CharLen(b)
    ensures CharLen(b[..i]) == 0
  {
  }
}
