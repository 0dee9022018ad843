/**
 UTF-8 (RFC 3629) as the output accumulator reads it: well-formed sequences,
 and the prefix and suffix of a text that fit a byte budget.
 */
module Utf8 {
  import opened Wrappers

  function ExpectedLength(first: Byte): (n: nat)
    ensures n <= 4
  {
    if first <= 0x7f then 1
    else if 0xc2 <= first <= 0xdf then 2
    else if 0xe0 <= first <= 0xef then 3
    else if 0xf0 <= first <= 0xf4 then 4
    else 0
  }

  predicate IsContinuation(b: Byte) {
    0x80 <= b < 0xc0
  }

  predicate IsValidSequence(s: seq<Byte>) {
    if |s| < 2 then |s| == 1 && s[0] <= 0x7f
    else
      && IsContinuation(s[1])
      && !(s[0] == 0xe0 && s[1] < 0xa0) && !(s[0] == 0xed && s[1] >= 0xa0)
      && !(s[0] == 0xf0 && s[1] < 0x90) && !(s[0] == 0xf4 && s[1] >= 0x90)
      && forall i | 2 <= i < |s| :: IsContinuation(s[i])
  }

  /** The bytes of one character, as the accumulator accepts them. */
  predicate IsPoint(p: seq<Byte>) {
    p != [] && |p| == ExpectedLength(p[0]) && IsValidSequence(p)
  }

  // ------------------------------------------------ what RFC 3629 defines

  /** A Unicode scalar value: a code point that is not a surrogate. */
  predicate IsScalar(v: int) {
    0 <= v < 0xd800 || 0xe000 <= v <= 0x10ffff
  }

  function Tail(v: nat): Byte {
    (0x80 + v % 64) as Byte
  }

  /** Section 3 of RFC 3629. */
  function EncodeScalar(v: int): (p: seq<Byte>)
    requires IsScalar(v)
    ensures 1 <= |p| <= 4
  {
    if v < 0x80 then [v as Byte]
    else if v < 0x800 then [(0xc0 + v / 64) as Byte, Tail(v)]
    else if v < 0x10000 then [(0xe0 + v / 4096) as Byte, Tail(v / 64), Tail(v)]
    else [(0xf0 + v / 262144) as Byte, Tail(v / 4096), Tail(v / 64), Tail(v)]
  }

  function DecodePoint(p: seq<Byte>): int
    requires 1 <= |p| <= 4
  {
    if |p| == 1 then p[0] as int
    else if |p| == 2 then (p[0] as int - 0xc0) * 64 + (p[1] as int - 0x80)
    else if |p| == 3 then (p[0] as int - 0xe0) * 4096 + (p[1] as int - 0x80) * 64 + (p[2] as int - 0x80)
    else (p[0] as int - 0xf0) * 262144 + (p[1] as int - 0x80) * 4096 + (p[2] as int - 0x80) * 64 + (p[3] as int - 0x80)
  }

  lemma Split64(v: nat)
    ensures v == v / 64 * 64 + v % 64 && v / 64 / 64 == v / 4096 && v / 4096 / 64 == v / 262144
  {
  }

  /** Every scalar value's encoding is accepted and decodes to it. */
  lemma EncodingIsPoint(v: int)
    requires IsScalar(v)
    ensures IsPoint(EncodeScalar(v)) && DecodePoint(EncodeScalar(v)) == v
  {
    Split64(v);
    if v >= 0x10000 {
      Split64(v / 64);
      Split64(v / 4096);
      assert v / 262144 == v / 4096 / 64 && v / 4096 % 64 >= 0;
    }
  }

  /** Whatever is accepted is the encoding of a scalar value: no overlong forms, no surrogates, nothing past U+10FFFF. */
  lemma PointIsEncoding(p: seq<Byte>)
    requires IsPoint(p)
    ensures IsScalar(DecodePoint(p)) && EncodeScalar(DecodePoint(p)) == p
  {
    var v := DecodePoint(p);
    if |p| == 2 {
      Quotient(p[0] as int - 0xc0, p[1] as int - 0x80);
    } else if |p| == 3 {
      var high := (p[0] as int - 0xe0) * 64 + (p[1] as int - 0x80);
      Quotient(p[0] as int - 0xe0, p[1] as int - 0x80);
      Quotient(high, p[2] as int - 0x80);
      assert v == high * 64 + (p[2] as int - 0x80);
      Split64(v);
    } else if |p| == 4 {
      var top := (p[0] as int - 0xf0) * 64 + (p[1] as int - 0x80);
      var high := top * 64 + (p[2] as int - 0x80);
      Quotient(p[0] as int - 0xf0, p[1] as int - 0x80);
      Quotient(top, p[2] as int - 0x80);
      Quotient(high, p[3] as int - 0x80);
      assert v == high * 64 + (p[3] as int - 0x80);
      Split64(v);
      Split64(high);
    }
  }

  lemma Quotient(q: nat, r: nat)
    requires r < 64
    ensures (q * 64 + r) / 64 == q && (q * 64 + r) % 64 == r
  {
  }

  // ------------------------------------------------------ valid sequences

  function Flatten(points: seq<seq<Byte>>): seq<Byte> {
    if points == [] then [] else points[0] + Flatten(points[1..])
  }

  ghost predicate AllPoints(points: seq<seq<Byte>>) {
    forall i | 0 <= i < |points| :: IsPoint(points[i])
  }

  /** A concatenation of whole characters (section 4 of RFC 3629). */
  ghost predicate ValidUtf8(s: seq<Byte>) {
    exists points :: AllPoints(points) && Flatten(points) == s
  }

  /** The text starts with a whole character. */
  predicate StartsPoint(s: seq<Byte>) {
    s != [] && 1 <= ExpectedLength(s[0]) <= |s| && IsValidSequence(s[..ExpectedLength(s[0])])
  }

  lemma PointStarts(p: seq<Byte>, rest: seq<Byte>)
    requires IsPoint(p)
    ensures StartsPoint(p + rest) && ExpectedLength((p + rest)[0]) == |p| && (p + rest)[|p|..] == rest
  {
    assert (p + rest)[..|p|] == p;
  }

  /** Validity is decided from the front, one character at a time. */
  lemma ValidStep(s: seq<Byte>)
    ensures s == [] ==> ValidUtf8(s)
    ensures s != [] ==> (ValidUtf8(s) <==> StartsPoint(s) && ValidUtf8(s[ExpectedLength(s[0])..]))
  {
    if s == [] {
      assert AllPoints([]) && Flatten([]) == s;
    } else {
      if ValidUtf8(s) {
        var points :| AllPoints(points) && Flatten(points) == s;
        PointStarts(points[0], Flatten(points[1..]));
        assert AllPoints(points[1..]);
      }
      if StartsPoint(s) && ValidUtf8(s[ExpectedLength(s[0])..]) {
        var n := ExpectedLength(s[0]);
        var points :| AllPoints(points) && Flatten(points) == s[n..];
        assert AllPoints([s[..n]] + points);
        assert ([s[..n]] + points)[1..] == points;
        assert Flatten([s[..n]] + points) == s[..n] + s[n..] == s;
      }
    }
  }

  lemma {:induction false} FlattenAppend(a: seq<seq<Byte>>, b: seq<seq<Byte>>)
    ensures Flatten(a + b) == Flatten(a) + Flatten(b)
  {
    if a == [] {
      assert a + b == b;
    } else {
      assert (a + b)[1..] == a[1..] + b;
      FlattenAppend(a[1..], b);
    }
  }

  lemma ValidConcat(s: seq<Byte>, t: seq<Byte>)
    requires ValidUtf8(s) && ValidUtf8(t)
    ensures ValidUtf8(s + t)
  {
    var a :| AllPoints(a) && Flatten(a) == s;
    var b :| AllPoints(b) && Flatten(b) == t;
    FlattenAppend(a, b);
    assert AllPoints(a + b);
  }

  lemma ValidPoints(points: seq<seq<Byte>>)
    requires AllPoints(points)
    ensures ValidUtf8(Flatten(points))
  {
  }

  /** After a valid front, the whole is valid exactly when the rest is. */
  lemma {:induction false} ValidCancel(s: seq<Byte>, t: seq<Byte>)
    requires ValidUtf8(s)
    ensures ValidUtf8(s + t) <==> ValidUtf8(t)
    decreases |s|
  {
    if s == [] {
      assert s + t == t;
    } else {
      ValidStep(s);
      ValidStep(s + t);
      var n := ExpectedLength(s[0]);
      assert (s + t)[..n] == s[..n] && (s + t)[n..] == s[n..] + t;
      ValidCancel(s[n..], t);
    }
  }

  lemma OnePoint(p: seq<Byte>)
    ensures Flatten([p]) == p
  {
    assert [p][1..] == [];
  }

  function EncodeText(s: string): seq<Byte> {
    if s == "" then [] else EncodeScalar(s[0] as int) + EncodeText(s[1..])
  }

  lemma {:induction false} EncodedTextIsValid(s: string)
    ensures ValidUtf8(EncodeText(s))
  {
    hide ValidUtf8, IsPoint, EncodeScalar;
    if s == "" {
      ValidStep([]);
    } else {
      EncodedTextIsValid(s[1..]);
      EncodingIsPoint(s[0] as int);
      ValidPoints([EncodeScalar(s[0] as int)]);
      OnePoint(EncodeScalar(s[0] as int));
      ValidConcat(EncodeScalar(s[0] as int), EncodeText(s[1..]));
    }
  }

  // ---------------------------------------------------- prefix and suffix

  /** `r` is the longest prefix of `value` that is valid and fits. */
  ghost predicate LongestPrefix(value: seq<Byte>, maxBytes: int, r: seq<Byte>) {
    && r <= value && (|r| <= maxBytes || r == []) && ValidUtf8(r)
    && forall k | |r| < k <= |value| && k <= maxBytes :: !ValidUtf8(value[..k])
  }

  method Utf8BytePrefix(value: seq<Byte>, maxBytes: int) returns (r: seq<Byte>)
    ensures LongestPrefix(value, maxBytes, r)
  {
    hide ValidUtf8, IsValidSequence;
    ValidStep([]);
    if maxBytes <= 0 || value == [] {
      return [];
    }
    var end := if |value| < maxBytes then |value| else maxBytes;
    var cursor := 0;
    var safeEnd := 0;
    while cursor < end
      invariant 0 <= cursor == safeEnd <= end && ValidUtf8(value[..cursor])
      invariant forall k | safeEnd < k <= end :: ValidUtf8(value[..k]) <==> ValidUtf8(value[cursor..k])
    {
      var length := ExpectedLength(value[cursor]);
      PrefixStep(value, cursor, end);
      if length == 0 || cursor + length > end {
        break;
      }
      var sequence := value[cursor..cursor + length];
      if !IsValidSequence(sequence) {
        break;
      }
      PrefixGrows(value, cursor, length, end);
      cursor := cursor + length;
      safeEnd := cursor;
    }
    r := value[..safeEnd];
  }

  /** Unless a whole character starts here, no longer prefix is valid. */
  lemma PrefixStep(value: seq<Byte>, cursor: nat, end: nat)
    requires cursor < end <= |value|
    ensures var n := ExpectedLength(value[cursor]);
            n == 0 || cursor + n > end || !IsValidSequence(value[cursor..cursor + n]) ==>
              forall k | cursor < k <= end :: !ValidUtf8(value[cursor..k])
  {
    var n := ExpectedLength(value[cursor]);
    forall k | cursor < k <= end && (n == 0 || cursor + n > end || !IsValidSequence(value[cursor..cursor + n]))
      ensures !ValidUtf8(value[cursor..k])
    {
      ValidStep(value[cursor..k]);
      if 1 <= n && cursor + n <= k {
        assert value[cursor..k][..n] == value[cursor..cursor + n];
      }
    }
  }

  lemma PrefixGrows(value: seq<Byte>, cursor: nat, n: nat, end: nat)
    requires cursor < cursor + n <= end <= |value| && ValidUtf8(value[..cursor])
    requires n == ExpectedLength(value[cursor]) && IsValidSequence(value[cursor..cursor + n])
    ensures ValidUtf8(value[..cursor + n])
    ensures forall k | cursor + n < k <= end :: ValidUtf8(value[..k]) <==> ValidUtf8(value[cursor + n..k])
  {
    var p := value[cursor..cursor + n];
    assert AllPoints([p]);
    assert [p][1..] == [];
    assert Flatten([p]) == p + [] == p;
    assert value[..cursor + n] == value[..cursor] + p;
    ValidConcat(value[..cursor], p);
    forall k | cursor + n < k <= end ensures ValidUtf8(value[..k]) <==> ValidUtf8(value[cursor + n..k]) {
      assert value[..k] == value[..cursor + n] + value[cursor + n..k];
      ValidCancel(value[..cursor + n], value[cursor + n..k]);
    }
  }

  lemma PointTail(p: seq<Byte>)
    requires IsPoint(p)
    ensures !IsContinuation(p[0]) && forall i | 1 <= i < |p| :: IsContinuation(p[i])
  {
  }

  /** In a valid text, exactly the positions that hold no continuation byte start a valid suffix. */
  lemma {:induction false} SuffixValid(s: seq<Byte>, k: nat)
    requires ValidUtf8(s) && k <= |s|
    ensures ValidUtf8(s[k..]) <==> k == |s| || !IsContinuation(s[k])
    decreases |s|
  {
    hide ValidUtf8, IsValidSequence;
    if s == [] {
      assert s[k..] == s;
    } else {
      ValidStep(s);
      var n := ExpectedLength(s[0]);
      PointTail(s[..n]);
      if k == 0 {
        assert s[0..] == s && s[..n][0] == s[0];
      } else if k < n {
        assert s[..n][k] == s[k];
        ValidStep(s[k..]);
      } else {
        SuffixValid(s[n..], k - n);
        assert s[n..][k - n..] == s[k..];
      }
    }
  }

  /** `r` is the longest suffix of `source` that is valid and fits. */
  ghost predicate LongestSuffix(source: seq<Byte>, maxBytes: int, r: seq<Byte>) {
    && |r| <= |source| && r == source[|source| - |r|..] && (|r| <= maxBytes || r == []) && ValidUtf8(r)
    && forall k | 0 <= k < |source| - |r| && |source| - k <= maxBytes :: !ValidUtf8(source[k..])
  }

  method Utf8TextSuffix(source: seq<Byte>, maxBytes: int) returns (r: seq<Byte>)
    requires ValidUtf8(source)
    ensures LongestSuffix(source, maxBytes, r)
  {
    hide ValidUtf8, IsContinuation;
    if |source| <= maxBytes {
      assert source[0..] == source;
      return source;
    }
    var from := if maxBytes < 0 then |source| else |source| - maxBytes;
    var slice := source[from..];
    var start := 0;
    while start < |slice| && IsContinuation(slice[start])
      invariant 0 <= start <= |slice|
      invariant forall k | from <= k < from + start :: IsContinuation(source[k])
    {
      start := start + 1;
    }
    SuffixValid(source, from + start);
    assert slice[start..] == source[from + start..];
    r := Utf8BytePrefix(slice[start..], |slice| - start);
    assert slice[start..][..|slice| - start] == slice[start..];
    forall k | 0 <= k < |source| - |r| && |source| - k <= maxBytes ensures !ValidUtf8(source[k..]) {
      SuffixValid(source, k);
    }
  }
}
