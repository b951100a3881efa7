/** `truncate_utf8` (crates/crony-cli/src/factory.rs): cutting a text to a byte budget
    without splitting a character. */
module Truncation {
  import opened RustStr
  import opened Utf8

  /** The longest prefix whose encoding fits the budget, read character by character. */
  function Truncate(s: string, limit: nat): string {
    if s == "" || Utf8Len(s[0]) > limit then ""
    else [s[0]] + Truncate(s[1..], limit - Utf8Len(s[0]))
  }

  /** `t` is the longest prefix of `s` of at most `limit` bytes. */
  ghost predicate IsLongestPrefix(t: string, s: string, limit: nat) {
    && t <= s
    && ByteLen(t) <= limit
    && (forall u :: u <= s && ByteLen(u) <= limit ==> |u| <= |t|)
  }

  lemma {:induction false} TruncateIsLongest(s: string, limit: nat)
    ensures IsLongestPrefix(Truncate(s, limit), s, limit)
    ensures ByteLen(s) <= limit ==> Truncate(s, limit) == s
  {
    var t := Truncate(s, limit);
    if t != "" {
      TruncateIsLongest(s[1..], limit - Utf8Len(s[0]));
      forall u | u <= s && ByteLen(u) <= limit && u != ""
        ensures |u| <= |t|
      {
        assert u[1..] <= s[1..];
      }
      assert t[1..] == Truncate(s[1..], limit - Utf8Len(s[0]));
    } else {
      assert forall u :: u <= s && u != "" ==> u[0] == s[0];
    }
  }

  lemma LongestPrefixIsUnique(t: string, s: string, limit: nat)
    requires IsLongestPrefix(t, s, limit)
    ensures t == Truncate(s, limit)
  {
    TruncateIsLongest(s, limit);
    assert |Truncate(s, limit)| == |t|;
  }

  lemma ByteLenMonotone(t: string, s: string)
    requires t <= s
    ensures ByteLen(t) <= ByteLen(s)
    ensures |t| < |s| ==> ByteLen(t) < ByteLen(s)
  {
    assert s == t + s[|t|..];
    ByteLenAppend(t, s[|t|..]);
    ByteLenAtLeastLength(s[|t|..]);
  }

  /** Among any four neighbouring positions of a text one is a boundary. */
  lemma {:induction false} BoundaryNearby(b: seq<byte>, i: nat) returns (j: nat)
    requires WellFormed(b) && i <= |b|
    ensures j <= i <= j + 3 && IsCharBoundary(b, j)
    decreases |b|
  {
    if i == 0 || i < CharLen(b) {
      j := 0;
    } else {
      var n := CharLen(b);
      var k := BoundaryNearby(b[n..], i - n);
      j := n + k;
      if j < |b| {
        assert b[j] == b[n..][k];
        CharStartsAtBoundary(b, n);
      }
    }
  }

  lemma CharStartsAtBoundary(b: seq<byte>, n: nat)
    requires WellFormed(b) && b != [] && n == CharLen(b)
    ensures IsCharBoundary(b, n)
  {
    if n < |b| {
      assert b[n] == b[n..][0];
    }
  }

  /** The byte loop: it returns a text, the longest one within the budget, gives up at most
      three bytes to the boundary, and agrees with the character-wise reading. */
  method TruncateUtf8(value: seq<byte>, maxBytes: nat) returns (r: seq<byte>)
    requires WellFormed(value)
    ensures r <= value && |r| <= maxBytes && WellFormed(r)
    ensures forall k :: |r| < k <= |value| && k <= maxBytes ==> !WellFormed(value[..k])
    ensures r == value || maxBytes <= |r| + 3
    ensures r == Encode(Truncate(Decode(value), maxBytes))
  {
    if |value| <= maxBytes {
      DecodeEncode(value);
      EncodeDecode(Decode(value));
      TruncateIsLongest(Decode(value), maxBytes);
      return value;
    }
    var end := maxBytes;
    ghost var near := BoundaryNearby(value, maxBytes);
    while !IsCharBoundary(value, end)
      invariant near <= end <= maxBytes
      invariant forall k :: end < k <= maxBytes ==> !IsCharBoundary(value, k)
      decreases end
    {
      end := end - 1;
    }
    r := value[..end];
    BoundaryCuts(value, end);
    forall k | end < k <= |value| && k <= maxBytes
      ensures !WellFormed(value[..k])
    {
      BoundaryCuts(value, k);
    }
    CutIsTruncation(value, end, maxBytes);
  }

  /** A boundary cut below which no longer cut fits is the character-wise truncation. */
  lemma CutIsTruncation(value: seq<byte>, end: nat, maxBytes: nat)
    requires WellFormed(value) && end <= |value| && end <= maxBytes
    requires WellFormed(value[..end]) && WellFormed(value[end..])
    requires forall k :: end < k <= |value| && k <= maxBytes ==> !WellFormed(value[..k])
    ensures value[..end] == Encode(Truncate(Decode(value), maxBytes))
  {
    var t, u := Decode(value[..end]), Decode(value[end..]);
    DecodeEncode(value[..end]);
    DecodeEncode(value[end..]);
    assert value == value[..end] + value[end..];
    EncodeAppend(t, u);
    EncodeDecode(t + u);
    forall v | v <= t + u && ByteLen(v) <= maxBytes
      ensures |v| <= |t|
    {
      PrefixEncodesPrefix(v, t + u);
      assert ByteLen(v) <= end;
      if |v| > |t| {
        ByteLenMonotone(t, v);
        assert false;
      }
    }
    assert t <= t + u;
    LongestPrefixIsUnique(t, t + u, maxBytes);
  }

  lemma PrefixEncodesPrefix(v: string, s: string)
    requires v <= s
    ensures Encode(v) <= Encode(s) && WellFormed(Encode(s)[..ByteLen(v)])
  {
    assert s == v + s[|v|..];
    EncodeAppend(v, s[|v|..]);
    EncodeDecode(v);
  }
}
