/**
 JavaScript text as UTF-16 code units, its UTF-8 encoding as Buffer.from
 computes it (a lone surrogate becomes U+FFFD), and the quantum splitter.
 */
module PtyText {
  import opened EgressLedger
  import opened Wrappers
  import Utf8

  newtype CodeUnit = u: int | 0 <= u < 0x1_0000

  type Text = seq<CodeUnit>

  predicate IsHigh(u: CodeUnit) {
    0xd800 <= u < 0xdc00
  }

  predicate IsLow(u: CodeUnit) {
    0xdc00 <= u < 0xe000
  }

  /** Code units of the code point at `i`. */
  function Width(s: Text, i: nat): (w: nat)
    requires i < |s|
    ensures 1 <= w <= 2 && i + w <= |s|
  {
    if IsHigh(s[i]) && i + 1 < |s| && IsLow(s[i + 1]) then 2 else 1
  }

  /** UTF-8 bytes of the code point at `i`, by arithmetic alone. */
  function CodeBytes(s: Text, i: nat): (n: nat)
    requires i < |s|
    ensures 1 <= n <= 4
  {
    if Width(s, i) == 2 then 4
    else if s[i] < 0x80 then 1
    else if s[i] < 0x800 then 2
    else 3
  }

  function Trail(v: int): Byte
    requires 0 <= v
  {
    (0x80 + v % 64) as Byte
  }

  /** The UTF-8 bytes of the code point at `i` (section 3 of RFC 3629). */
  function EncodePoint(s: Text, i: nat): (b: seq<Byte>)
    requires i < |s|
    ensures |b| == CodeBytes(s, i)
  {
    if Width(s, i) == 2 then
      var p := 0x1_0000 + (s[i] as int - 0xd800) * 0x400 + (s[i + 1] as int - 0xdc00);
      [(0xf0 + p / 0x4_0000) as Byte, Trail(p / 0x1000), Trail(p / 0x40), Trail(p)]
    else
      var p := if IsHigh(s[i]) || IsLow(s[i]) then 0xfffd else s[i] as int;
      if p < 0x80 then [p as Byte]
      else if p < 0x800 then [(0xc0 + p / 0x40) as Byte, Trail(p)]
      else [(0xe0 + p / 0x1000) as Byte, Trail(p / 0x40), Trail(p)]
  }

  function Encode(s: Text): seq<Byte> {
    if s == [] then [] else EncodePoint(s, 0) + Encode(s[Width(s, 0)..])
  }

  // ------------------------------------------- what RFC 3629 makes of it

  /** A high surrogate with a low one behind it. */
  predicate PairAt(s: Text, i: nat)
    requires i < |s|
  {
    0xd800 <= s[i] <= 0xdbff && i + 1 < |s| && 0xdc00 <= s[i + 1] <= 0xdfff
  }

  /** The scalar value at `i`: a pair is one, a lone surrogate reads as U+FFFD. */
  function ScalarAt(s: Text, i: nat): (v: int)
    requires i < |s|
    ensures Utf8.IsScalar(v)
  {
    if PairAt(s, i) then 0x1_0000 + (s[i] as int - 0xd800) * 0x400 + (s[i + 1] as int - 0xdc00)
    else if 0xd800 <= s[i] <= 0xdfff then 0xfffd
    else s[i] as int
  }

  function Scalars(s: Text): (vs: seq<int>)
    ensures forall i | 0 <= i < |vs| :: Utf8.IsScalar(vs[i])
  {
    if s == [] then [] else [ScalarAt(s, 0)] + Scalars(s[if PairAt(s, 0) then 2 else 1..])
  }

  function Characters(vs: seq<int>): seq<seq<Byte>>
    requires forall i | 0 <= i < |vs| :: Utf8.IsScalar(vs[i])
  {
    if vs == [] then [] else [Utf8.EncodeScalar(vs[0])] + Characters(vs[1..])
  }

  lemma PointIsScalar(s: Text, i: nat)
    requires i < |s|
    ensures EncodePoint(s, i) == Utf8.EncodeScalar(ScalarAt(s, i)) && (Width(s, i) == 2 <==> PairAt(s, i))
  {
  }

  lemma {:induction false} AllCharacters(vs: seq<int>)
    requires forall i | 0 <= i < |vs| :: Utf8.IsScalar(vs[i])
    ensures Utf8.AllPoints(Characters(vs))
  {
    hide Utf8.EncodeScalar, Utf8.IsPoint;
    if vs != [] {
      Utf8.EncodingIsPoint(vs[0]);
      AllCharacters(vs[1..]);
    }
  }

  /** A text is encoded scalar value by scalar value, as RFC 3629 has it; the result is valid UTF-8. */
  lemma {:induction false} EncodeIsUtf8(s: Text)
    ensures Encode(s) == Utf8.Flatten(Characters(Scalars(s))) && Utf8.ValidUtf8(Encode(s))
  {
    hide EncodePoint, ScalarAt, Utf8.EncodeScalar, Utf8.IsPoint;
    var vs := Scalars(s);
    if s != [] {
      PointIsScalar(s, 0);
      EncodeIsUtf8(s[Width(s, 0)..]);
      assert vs[1..] == Scalars(s[Width(s, 0)..]);
      assert Characters(vs)[1..] == Characters(vs[1..]);
    }
    AllCharacters(vs);
  }

  /** Cutting at `k` does not separate the halves of a surrogate pair. */
  predicate CleanCut(s: Text, k: nat)
    requires k <= |s|
  {
    !(0 < k < |s| && IsHigh(s[k - 1]) && IsLow(s[k]))
  }

  lemma SamePoint(s: Text, i: nat, t: Text, j: nat)
    requires i < |s| && j < |t| && Width(s, i) == Width(t, j) && s[i] == t[j]
    requires Width(s, i) == 2 ==> s[i + 1] == t[j + 1]
    ensures EncodePoint(s, i) == EncodePoint(t, j)
  {
  }

  /** Encoding the two halves of a cut gives the encoding of the whole exactly when the cut is clean. */
  lemma {:induction false} EncodeSplits(s: Text, k: nat)
    requires k <= |s|
    ensures CleanCut(s, k) <==> Encode(s) == Encode(s[..k]) + Encode(s[k..])
  {
    hide EncodePoint;
    if k == 0 {
      assert s[..0] == [] && s[0..] == s;
    } else if k == |s| {
      assert s[..k] == s && s[k..] == [];
    } else {
      var w := Width(s, 0);
      if k < w {
        SplitPair(s);
      } else {
        EncodeSplits(s[w..], k - w);
        SlicesAfter(s, w, k);
        FirstClean(s, k, w);
        Regroup(EncodePoint(s, 0), Encode(s[w..]), Encode(s[w..][..k - w]), Encode(s[k..]));
        EncodeFront(s, k);
        hide Encode, CleanCut;
      }
    }
  }

  /** The text and its cut begin with one code point. */
  lemma EncodeFront(s: Text, k: nat)
    requires 0 < k <= |s| && Width(s, 0) <= k
    ensures var w := Width(s, 0);
            Encode(s) == EncodePoint(s, 0) + Encode(s[w..]) && Encode(s[..k]) == EncodePoint(s, 0) + Encode(s[..k][w..])
  {
    hide Encode, EncodePoint, CodeBytes, Width;
    CutWidth(s, k);
    EncodeStep(s);
    EncodeStep(s[..k]);
    SamePoint(s[..k], 0, s, 0);
  }

  lemma CutWidth(s: Text, k: nat)
    requires 0 < k <= |s| && Width(s, 0) <= k
    ensures Width(s[..k], 0) == Width(s, 0) && s[..k][0] == s[0] && (Width(s, 0) == 2 ==> s[..k][1] == s[1])
  {
    assert k > 1 ==> s[..k][1] == s[1];
  }

  lemma EncodeStep(s: Text)
    requires s != []
    ensures Encode(s) == EncodePoint(s, 0) + Encode(s[Width(s, 0)..])
  {
    hide EncodePoint, CodeBytes, Width;
  }

  lemma SlicesAfter(s: Text, w: nat, k: nat)
    requires w <= k <= |s|
    ensures s[..k][w..] == s[w..][..k - w] && s[w..][k - w..] == s[k..]
  {
  }

  /** Prepending the same bytes to both sides neither makes nor breaks the equation. */
  lemma Regroup(head: seq<Byte>, whole: seq<Byte>, a: seq<Byte>, b: seq<Byte>)
    ensures head + whole == (head + a) + b <==> whole == a + b
  {
    assert (head + a) + b == head + (a + b);
    if head + whole == head + (a + b) {
      assert (head + whole)[|head|..] == whole;
      assert (head + (a + b))[|head|..] == a + b;
    }
  }

  lemma FirstClean(s: Text, k: nat, w: nat)
    requires s != [] && w == Width(s, 0) && w <= k < |s|
    ensures CleanCut(s, k) <==> CleanCut(s[w..], k - w)
  {
  }

  /** A pair cut in two encodes as two replacement characters: six bytes instead of four. */
  lemma SplitPair(s: Text)
    requires |s| >= 2 && Width(s, 0) == 2
    ensures !CleanCut(s, 1) && Encode(s) != Encode(s[..1]) + Encode(s[1..])
  {
    assert s[..1][1..] == [];
    assert s[1..][1..] == s[2..];
    assert |Encode(s)| == 4 + |Encode(s[2..])|;
    assert |Encode(s[1..])| == 3 + |Encode(s[2..])|;
  }

  // ---------------------------------------------------------- splitting

  /** [a, b) is one non-empty run of whole code points that fits `maxBytes`, or a single code point. */
  ghost predicate Quantum(s: Text, a: nat, b: nat, maxBytes: int) {
    && a < b <= |s| && CleanCut(s, b)
    && (|Encode(s[a..b])| <= maxBytes || b == a + Width(s, a))
    && (b < |s| ==> |Encode(s[a..b])| + CodeBytes(s, b) > maxBytes)
  }

  lemma EncodeOne(s: Text, b: nat)
    requires b < |s|
    ensures Encode(s[b..b + Width(s, b)]) == EncodePoint(s, b)
  {
    hide EncodePoint;
    var t := s[b..b + Width(s, b)];
    SamePoint(t, 0, s, b);
    assert t[Width(t, 0)..] == [];
  }

  /** Appending one code point appends its bytes. */
  lemma EncodeExtend(s: Text, a: nat, b: nat)
    requires a <= b < |s| && CleanCut(s, b)
    ensures Encode(s[a..b + Width(s, b)]) == Encode(s[a..b]) + EncodePoint(s, b)
    ensures CleanCut(s, b + Width(s, b))
  {
    hide EncodePoint, Encode;
    EncodeOne(s, b);
    var t := s[a..b + Width(s, b)];
    assert t[..b - a] == s[a..b];
    assert t[b - a..] == s[b..b + Width(s, b)];
    assert a < b ==> t[b - a - 1] == s[b - 1];
    EncodeSplits(t, b - a);
  }

  /** One step of the generator: the end of the quantum that starts at `start`. */
  method NextQuantum(data: Text, start: nat, maxBytes: int) returns (end: nat)
    requires start < |data| && maxBytes >= 1 && CleanCut(data, start)
    ensures start < end <= |data| && Quantum(data, start, end, maxBytes)
  {
    assert Encode([]) == [] && data[start..start] == [];
    hide Encode, EncodePoint, CodeBytes;
    end := start;
    var bytes := 0;
    while end < |data|
      invariant start <= end <= |data| && CleanCut(data, end)
      invariant bytes == |Encode(data[start..end])|
      invariant end > start ==> bytes <= maxBytes || end == start + Width(data, start)
    {
      var codeBytes := CodeBytes(data, end);
      if end > start && bytes + codeBytes > maxBytes {
        break;
      }
      EncodeExtend(data, start, end);
      bytes := bytes + codeBytes;
      end := end + Width(data, end);
    }
  }

  function Join(chunks: seq<Text>): Text {
    if chunks == [] then [] else Join(chunks[..|chunks| - 1]) + chunks[|chunks| - 1]
  }

  function JoinBytes(chunks: seq<Text>): seq<Byte> {
    if chunks == [] then [] else JoinBytes(chunks[..|chunks| - 1]) + Encode(chunks[|chunks| - 1])
  }

  ghost predicate Sized(chunks: seq<Text>, maxBytes: int) {
    forall i | 0 <= i < |chunks| :: chunks[i] != [] && (|Encode(chunks[i])| <= maxBytes || |Encode(chunks[i])| <= 4)
  }

  lemma NoChunks(maxBytes: int)
    ensures Join([]) == [] && JoinBytes([]) == [] && Encode([]) == [] && Sized([], maxBytes) && Filled([], maxBytes)
  {
  }

  lemma ChunkNext(chunks: seq<Text>, c: Text, maxBytes: int)
    requires Sized(chunks, maxBytes) && Filled(chunks, maxBytes)
    requires c != [] && (|Encode(c)| <= maxBytes || |Encode(c)| <= 4)
    requires chunks != [] ==> |Encode(chunks[|chunks| - 1])| + CodeBytes(c, 0) > maxBytes
    ensures Join(chunks + [c]) == Join(chunks) + c && JoinBytes(chunks + [c]) == JoinBytes(chunks) + Encode(c)
    ensures Sized(chunks + [c], maxBytes) && Filled(chunks + [c], maxBytes)
  {
    hide Encode, CodeBytes;
    assert (chunks + [c])[..|chunks|] == chunks;
  }

  /** No chunk could have taken the first code point of the next one. */
  ghost predicate Filled(chunks: seq<Text>, maxBytes: int) {
    forall i | 0 <= i < |chunks| - 1 :: chunks[i + 1] != [] ==> |Encode(chunks[i])| + CodeBytes(chunks[i + 1], 0) > maxBytes
  }

  lemma SameFirst(s: Text, a: nat, b: nat)
    requires a < b <= |s| && CleanCut(s, b)
    ensures CodeBytes(s[a..b], 0) == CodeBytes(s, a)
  {
  }

  /** Everything the generator yields, or None where it throws. Nothing is lost, in units or in bytes. */
  method SplitPtyData(data: Text, maxBytes: int) returns (r: Option<seq<Text>>)
    ensures r.None? <==> !(1 <= maxBytes <= 9007199254740991)
    ensures r.Some? ==> Join(r.value) == data && JoinBytes(r.value) == Encode(data)
    ensures r.Some? ==> Sized(r.value, maxBytes) && Filled(r.value, maxBytes)
  {
    hide Join, JoinBytes, Encode, CodeBytes, Width, Sized, Filled;
    if !(1 <= maxBytes <= 9007199254740991) {
      return None;
    }
    var chunks: seq<Text> := [];
    var start := 0;
    NoChunks(maxBytes);
    assert data[..0] == [];
    while start < |data|
      invariant start <= |data| && CleanCut(data, start)
      invariant Join(chunks) == data[..start] && JoinBytes(chunks) == Encode(data[..start])
      invariant Sized(chunks, maxBytes) && Filled(chunks, maxBytes)
      invariant chunks != [] && start < |data| ==> |Encode(chunks[|chunks| - 1])| + CodeBytes(data, start) > maxBytes
    {
      var end := NextQuantum(data, start, maxBytes);
      QuantumBytes(data, start, end, maxBytes);
      JoinStep(data, start, end);
      SameFirst(data, start, end);
      ChunkNext(chunks, data[start..end], maxBytes);
      chunks := chunks + [data[start..end]];
      start := end;
    }
    assert data[..start] == data;
    r := Some(chunks);
  }

  lemma QuantumBytes(s: Text, a: nat, b: nat, maxBytes: int)
    requires a <= |s| && CleanCut(s, a) && Quantum(s, a, b, maxBytes)
    ensures 1 <= |Encode(s[a..b])| && (|Encode(s[a..b])| <= maxBytes || |Encode(s[a..b])| <= 4)
  {
    assert s[a..b] != [];
    if b == a + Width(s, a) {
      EncodeExtend(s, a, a);
      assert s[a..a] == [];
    }
  }

  lemma JoinStep(s: Text, a: nat, b: nat)
    requires a <= b <= |s| && CleanCut(s, a)
    ensures s[..b] == s[..a] + s[a..b] && Encode(s[..b]) == Encode(s[..a]) + Encode(s[a..b])
  {
    assert s[..b][..a] == s[..a] && s[..b][a..] == s[a..b];
    EncodeSplits(s[..b], a);
  }
}
