/**
 The bounded output accumulator: bytes arrive in any chunks, whole characters
 are kept within a budget, and the rendered text says when something is missing.
 */
module BoundedText {
  import opened Wrappers
  import opened Utf8

  // ------------------------------------------------------ streaming decoder

  /** Accepted characters so far, the bytes of one that is not complete yet, and whether bytes were dropped. */
  datatype Decoder = Decoder(points: seq<seq<Byte>>, pending: seq<Byte>, dropped: bool)

  const Start := Decoder([], [], false)

  function FeedFirst(d: Decoder, b: Byte): Decoder {
    var n := ExpectedLength(b);
    if n == 1 then Decoder(d.points + [[b]], [], d.dropped)
    else if n > 1 then Decoder(d.points, [b], d.dropped)
    else Decoder(d.points, [], true)
  }

  function Feed(d: Decoder, b: Byte): Decoder {
    if d.pending == [] then FeedFirst(d, b)
    else if IsContinuation(b) then
      var p := d.pending + [b];
      if |p| != ExpectedLength(p[0]) then d.(pending := p)
      else if IsValidSequence(p) then Decoder(d.points + [p], [], d.dropped)
      else Decoder(d.points, [], true)
    else FeedFirst(Decoder(d.points, [], true), b)
  }

  function FeedAll(d: Decoder, s: seq<Byte>): Decoder {
    if s == [] then d else Feed(FeedAll(d, s[..|s| - 1]), s[|s| - 1])
  }

  /** Chunking does not matter: feeding two chunks is feeding their concatenation. */
  lemma {:induction false} FeedChunks(d: Decoder, a: seq<Byte>, b: seq<Byte>)
    ensures FeedAll(d, a + b) == FeedAll(FeedAll(d, a), b)
  {
    if b == [] {
      assert a + b == a;
    } else {
      assert (a + b)[..|a + b| - 1] == a + b[..|b| - 1];
      FeedChunks(d, a, b[..|b| - 1]);
    }
  }

  lemma FeedFront(d: Decoder, s: seq<Byte>)
    requires s != []
    ensures FeedAll(d, s) == FeedAll(Feed(d, s[0]), s[1..])
  {
    assert s == [s[0]] + s[1..];
    FeedChunks(d, [s[0]], s[1..]);
    assert [s[0]][..0] == [];
    assert FeedAll(d, [s[0]]) == Feed(d, s[0]);
  }

  // -------------------------------------------------------- batch decoding

  /** Leading continuation bytes, at most `limit`. */
  function Run(s: seq<Byte>, limit: nat): (n: nat)
    ensures n <= limit && n <= |s|
  {
    if limit == 0 || s == [] || !IsContinuation(s[0]) then 0 else 1 + Run(s[1..], limit - 1)
  }

  /** How many bytes the character that starts here takes or spoils. */
  function Span(s: seq<Byte>): (n: nat)
    requires s != []
    ensures 1 <= n <= |s|
  {
    var n := ExpectedLength(s[0]);
    if n <= 1 then 1 else 1 + Run(s[1..], n - 1)
  }

  /** The characters of a byte string, read in one go; bytes that belong to none are skipped. */
  function Accepted(s: seq<Byte>): seq<seq<Byte>>
    decreases |s|
  {
    if s == [] then []
    else
      var n := Span(s);
      (if n == ExpectedLength(s[0]) && IsValidSequence(s[..n]) then [s[..n]] else []) + Accepted(s[n..])
  }

  /** The pending bytes of the decoder are the beginning of one character. */
  predicate Partial(p: seq<Byte>) {
    p != [] ==> 1 < ExpectedLength(p[0]) && |p| < ExpectedLength(p[0]) && forall i | 1 <= i < |p| :: IsContinuation(p[i])
  }

  lemma {:induction false} RunIs(s: seq<Byte>, limit: nat, n: nat)
    requires n <= limit && n <= |s| && (forall i | 0 <= i < n :: IsContinuation(s[i]))
    requires n == limit || n == |s| || !IsContinuation(s[n])
    ensures Run(s, limit) == n
  {
    if n > 0 {
      RunIs(s[1..], limit - 1, n - 1);
    }
  }

  /** What is left of a batch when a spoiled or complete character is taken off its front. */
  lemma SpanOfPartial(p: seq<Byte>, s: seq<Byte>)
    requires Partial(p) && p != []
    ensures s == [] ==> Accepted(p + s) == [] && !ValidUtf8(p + s)
    ensures s != [] && !IsContinuation(s[0]) ==> Accepted(p + s) == Accepted(s) && !ValidUtf8(p + s)
    ensures s != [] && IsContinuation(s[0]) && |p| + 1 == ExpectedLength(p[0]) ==>
              var q := p + [s[0]];
              && Accepted(p + s) == (if IsValidSequence(q) then [q] else []) + Accepted(s[1..])
              && (ValidUtf8(p + s) <==> IsValidSequence(q) && ValidUtf8(s[1..]))
  {
    hide IsValidSequence, ValidUtf8, ExpectedLength, Accepted, Run;
    if s == [] || !IsContinuation(s[0]) {
      CutShort(p, s);
      EmptyStream();
    } else if |p| + 1 == ExpectedLength(p[0]) {
      Completed(p, s);
    }
  }

  lemma CutShort(p: seq<Byte>, s: seq<Byte>)
    requires Partial(p) && p != [] && (s == [] || !IsContinuation(s[0]))
    ensures Accepted(p + s) == Accepted(s) && !ValidUtf8(p + s)
  {
    hide IsValidSequence, ValidUtf8, ExpectedLength, IsContinuation, Accepted, Run, Bytes, Flatten;
    var t := p + s;
    assert t[0] == p[0] && t[1..] == p[1..] + s && t[|p|..] == s;
    RunIs(t[1..], ExpectedLength(p[0]) - 1, |p| - 1);
    Spoiled(t, |p|);
    ValidStep(t);
    AcceptedStep(t);
  }

  lemma Completed(p: seq<Byte>, s: seq<Byte>)
    requires Partial(p) && p != [] && s != [] && IsContinuation(s[0]) && |p| + 1 == ExpectedLength(p[0])
    ensures var q := p + [s[0]];
            && Accepted(p + s) == (if IsValidSequence(q) then [q] else []) + Accepted(s[1..])
            && (ValidUtf8(p + s) <==> IsValidSequence(q) && ValidUtf8(s[1..]))
  {
    hide IsValidSequence, ValidUtf8, ExpectedLength, IsContinuation;
    var t := p + s;
    ValidStep(t);
    var n := ExpectedLength(p[0]);
    assert t[0] == p[0] && t[1..] == p[1..] + s;
    RunIs(t[1..], n - 1, n - 1);
    assert t[..n] == p + [s[0]] && t[n..] == s[1..];
  }

  lemma Spoiled(t: seq<Byte>, k: nat)
    requires 1 <= k <= |t| && k < ExpectedLength(t[0]) && (k == |t| || !IsContinuation(t[k]))
    ensures !StartsPoint(t)
  {
    var n := ExpectedLength(t[0]);
    if n <= |t| && IsValidSequence(t[..n]) {
      PointTail(t[..n]);
    }
  }

  lemma FirstByte(s: seq<Byte>)
    requires s != []
    ensures var n := ExpectedLength(s[0]);
            && (n == 1 ==> Accepted(s) == [[s[0]]] + Accepted(s[1..]) && (ValidUtf8(s) <==> ValidUtf8(s[1..])))
            && (n == 0 ==> Accepted(s) == Accepted(s[1..]) && !ValidUtf8(s))
  {
    hide ValidUtf8;
    ValidStep(s);
    assert s[..1] == [s[0]];
  }

  /** The decoder, fed byte by byte in any chunks, accepts what the batch reading accepts, and drops nothing exactly on valid input. */
  lemma {:induction false} StreamIsBatch(d: Decoder, s: seq<Byte>)
    requires Partial(d.pending)
    ensures var end := FeedAll(d, s);
            && Partial(end.pending)
            && end.points == d.points + Accepted(d.pending + s)
            && (!end.dropped && end.pending == [] <==> !d.dropped && ValidUtf8(d.pending + s))
    decreases |s|
  {
    hide IsValidSequence, ValidUtf8, ExpectedLength, Accepted, IsContinuation;
    if s == [] {
      assert d.pending + s == d.pending;
      EmptyStream();
      if d.pending != [] {
        SpanOfPartial(d.pending, s);
      }
      assert d.points + [] == d.points;
    } else {
      FeedFront(d, s);
      FeedKeepsPartial(d, s[0]);
      StreamIsBatch(Feed(d, s[0]), s[1..]);
      FeedIsBatch(d, s);
    }
  }

  lemma EmptyStream()
    ensures Accepted([]) == [] && ValidUtf8([])
  {
    ValidStep([]);
  }

  lemma FeedKeepsPartial(d: Decoder, b: Byte)
    requires Partial(d.pending)
    ensures Partial(Feed(d, b).pending)
  {
    hide IsValidSequence;
  }

  /** One byte moves exactly its share from the batch into the decoder. */
  lemma FeedIsBatch(d: Decoder, s: seq<Byte>)
    requires Partial(d.pending) && s != []
    ensures var e := Feed(d, s[0]);
            && e.points + Accepted(e.pending + s[1..]) == d.points + Accepted(d.pending + s)
            && (!e.dropped && ValidUtf8(e.pending + s[1..]) <==> !d.dropped && ValidUtf8(d.pending + s))
  {
    hide IsValidSequence, ValidUtf8, Accepted, IsContinuation;
    assert [] + s == s && [] + s[1..] == s[1..];
    if d.pending != [] && IsContinuation(s[0]) {
      FeedContinues(d, s);
    } else {
      if d.pending != [] {
        SpanOfPartial(d.pending, s);
      }
      FirstByte(s);
      assert [s[0]] + s[1..] == s;
      assert (d.points + [[s[0]]]) + Accepted(s[1..]) == d.points + ([[s[0]]] + Accepted(s[1..]));
    }
  }

  lemma FeedContinues(d: Decoder, s: seq<Byte>)
    requires Partial(d.pending) && d.pending != [] && s != [] && IsContinuation(s[0])
    ensures var e := Feed(d, s[0]);
            && e.points + Accepted(e.pending + s[1..]) == d.points + Accepted(d.pending + s)
            && (!e.dropped && ValidUtf8(e.pending + s[1..]) <==> !d.dropped && ValidUtf8(d.pending + s))
  {
    hide IsValidSequence, ValidUtf8, Accepted, IsContinuation;
    SpanOfPartial(d.pending, s);
    var p := d.pending + [s[0]];
    assert p + s[1..] == d.pending + s && [] + s[1..] == s[1..];
    assert (d.points + [p]) + Accepted(s[1..]) == d.points + ([p] + Accepted(s[1..]));
    assert [] + Accepted(s[1..]) == Accepted(s[1..]);
  }

  lemma {:induction false} FeedPoints(d: Decoder, s: seq<Byte>)
    requires Partial(d.pending) && AllPoints(d.points)
    ensures AllPoints(FeedAll(d, s).points) && Partial(FeedAll(d, s).pending)
  {
    hide IsValidSequence, ExpectedLength, IsContinuation;
    if s != [] {
      FeedPoints(d, s[..|s| - 1]);
      FeedOnePoint(FeedAll(d, s[..|s| - 1]), s[|s| - 1]);
    }
  }

  lemma FeedOnePoint(d: Decoder, b: Byte)
    requires Partial(d.pending) && AllPoints(d.points)
    ensures AllPoints(Feed(d, b).points) && Partial(Feed(d, b).pending)
  {
  }

  // --------------------------------------------------------- retention

  function Bytes(points: seq<seq<Byte>>): nat {
    if points == [] then 0 else |points[0]| + Bytes(points[1..])
  }

  lemma {:induction false} BytesAppend(a: seq<seq<Byte>>, b: seq<seq<Byte>>)
    ensures Bytes(a + b) == Bytes(a) + Bytes(b)
  {
    if a == [] {
      assert a + b == b;
    } else {
      assert (a + b)[1..] == a[1..] + b;
      BytesAppend(a[1..], b);
    }
  }

  lemma BytesPush(a: seq<seq<Byte>>, p: seq<Byte>)
    ensures Bytes(a + [p]) == Bytes(a) + |p|
  {
    BytesAppend(a, [p]);
    assert [p][1..] == [];
  }

  lemma {:induction false} BytesIsLength(points: seq<seq<Byte>>)
    ensures |Flatten(points)| == Bytes(points)
  {
    if points != [] {
      BytesIsLength(points[1..]);
    }
  }

  /** The longest suffix that fits. */
  function FitTail(points: seq<seq<Byte>>, limit: nat): (r: seq<seq<Byte>>)
    ensures Bytes(r) <= limit && |r| <= |points| && r == points[|points| - |r|..]
  {
    if Bytes(points) <= limit then points else FitTail(points[1..], limit)
  }

  /** The longest prefix that fits. */
  function FitHead(points: seq<seq<Byte>>, limit: nat): (r: seq<seq<Byte>>)
    ensures Bytes(r) <= limit && |r| <= |points| && r == points[..|r|]
  {
    if Bytes(points) <= limit then points else FitHead(points[..|points| - 1], limit)
  }

  /** What head retention keeps: every character that still fits, even after a longer one did not. */
  function Greedy(points: seq<seq<Byte>>, limit: nat): (r: seq<seq<Byte>>)
    ensures Bytes(r) <= limit
  {
    if points == [] then []
    else
      var kept, last := Greedy(points[..|points| - 1], limit), points[|points| - 1];
      if Bytes(kept) + |last| <= limit then BytesPush(kept, last); kept + [last] else kept
  }

  lemma {:induction false} FitTailIsLongest(points: seq<seq<Byte>>, limit: nat, k: nat)
    requires k <= |points| && Bytes(points[k..]) <= limit
    ensures |points| - k <= |FitTail(points, limit)|
  {
    if Bytes(points) > limit && k > 0 {
      assert points[1..][k - 1..] == points[k..];
      FitTailIsLongest(points[1..], limit, k - 1);
    } else if k == 0 {
      assert points[0..] == points;
    }
  }

  /** Dropping from the front as characters arrive keeps the longest suffix of everything accepted. */
  lemma {:induction false} FitTailPush(points: seq<seq<Byte>>, p: seq<Byte>, limit: nat)
    ensures FitTail(FitTail(points, limit) + [p], limit) == FitTail(points + [p], limit)
  {
    hide FitTail, Bytes;
    FitTailStep(points, limit);
    if Bytes(points) > limit {
      FitTailPush(points[1..], p, limit);
      BytesPush(points, p);
      FitTailStep(points + [p], limit);
      assert (points + [p])[1..] == points[1..] + [p];
    }
  }

  lemma FitTailStep(points: seq<seq<Byte>>, limit: nat)
    ensures FitTail(points, limit) == if Bytes(points) <= limit then points else FitTail(points[1..], limit)
  {
    hide Bytes;
  }

  /** A tighter budget afterwards gives what it would have given at once. */
  lemma {:induction false} FitTailTighter(points: seq<seq<Byte>>, limit: nat, tighter: nat)
    requires tighter <= limit
    ensures FitTail(FitTail(points, limit), tighter) == FitTail(points, tighter)
  {
    if Bytes(points) > limit {
      FitTailTighter(points[1..], limit, tighter);
    }
  }

  /** `r` is obtained from `points` by leaving some out. */
  ghost predicate Subsequence(r: seq<seq<Byte>>, points: seq<seq<Byte>>) {
    if r == [] then true
    else points != [] && (if r[|r| - 1] == points[|points| - 1] && Subsequence(r[..|r| - 1], points[..|points| - 1]) then true
                          else Subsequence(r, points[..|points| - 1]))
  }

  lemma {:induction false} GreedyIsSubsequence(points: seq<seq<Byte>>, limit: nat)
    ensures Subsequence(Greedy(points, limit), points)
    ensures Greedy(points, limit) == points <==> Bytes(points) <= limit
    ensures |Greedy(points, limit)| <= |points|
  {
    if points != [] {
      var front, last := points[..|points| - 1], points[|points| - 1];
      GreedyIsSubsequence(front, limit);
      assert points == front + [last];
      BytesPush(front, last);
      var kept := Greedy(front, limit);
      if Bytes(kept) + |last| <= limit {
        assert (kept + [last])[..|kept|] == kept;
        assert kept + [last] == points ==> kept == front;
      }
    }
  }

  /** Position `i` holds the first character that does not fit behind those before it. */
  ghost predicate FirstMiss(points: seq<seq<Byte>>, limit: nat, i: nat) {
    i < |points| && Bytes(points[..i]) <= limit < Bytes(points[..i]) + |points[i]|
  }

  /** No later character fits behind the first `i` either. */
  ghost predicate NoneFitsLater(points: seq<seq<Byte>>, limit: nat, i: nat)
    requires i < |points|
  {
    forall j | i < j < |points| :: Bytes(points[..i]) + |points[j]| > limit
  }

  /** Up to the first miss everything is kept; after it, something more exactly when something shorter fits. */
  lemma {:induction false} GreedyFrom(points: seq<seq<Byte>>, limit: nat, i: nat)
    requires FirstMiss(points, limit, i)
    ensures var kept := Greedy(points, limit);
            if NoneFitsLater(points, limit, i) then kept == points[..i] else |kept| > i && kept[..i] == points[..i]
    decreases |points|
  {
    hide Bytes;
    var n := |points| - 1;
    var front := points[..n];
    assert front[..i] == points[..i];
    if i == n {
      GreedyIsSubsequence(front, limit);
    } else {
      assert front[i] == points[i];
      GreedyFrom(front, limit, i);
      assert forall j | i < j < n :: front[j] == points[j];
    }
  }

  /** What head retention keeps is a prefix exactly when everything fits, or nothing fits after the first miss. */
  lemma GreedyIsPrefix(points: seq<seq<Byte>>, limit: nat)
    ensures Bytes(points) <= limit ==> Greedy(points, limit) == points
    ensures Bytes(points) > limit ==> exists i: nat :: FirstMiss(points, limit, i)
    ensures forall i: nat | FirstMiss(points, limit, i) :: Greedy(points, limit) <= points <==> NoneFitsLater(points, limit, i)
  {
    hide Greedy, Bytes, NoneFitsLater;
    GreedyIsSubsequence(points, limit);
    if Bytes(points) > limit {
      MissExists(points, limit);
    }
    forall i: nat | FirstMiss(points, limit, i)
      ensures Greedy(points, limit) <= points <==> NoneFitsLater(points, limit, i)
    {
      GreedyFrom(points, limit, i);
      MissIsNoPrefix(points, Greedy(points, limit), limit, i);
    }
  }

  /** Nothing within the limit that reaches past the first miss is a prefix. */
  lemma MissIsNoPrefix(points: seq<seq<Byte>>, kept: seq<seq<Byte>>, limit: nat, i: nat)
    requires FirstMiss(points, limit, i) && Bytes(kept) <= limit && (|kept| >= i ==> kept[..i] == points[..i])
    ensures |kept| > i ==> !(kept <= points)
    ensures kept == points[..i] ==> kept <= points
  {
    hide Bytes;
    if |kept| > i && kept <= points {
      assert kept[..i + 1] == points[..i] + [points[i]];
      BytesPush(points[..i], points[i]);
      PrefixBytes(kept, i + 1);
    }
  }

  lemma {:induction false} MissExists(points: seq<seq<Byte>>, limit: nat)
    requires Bytes(points) > limit
    ensures exists i: nat :: FirstMiss(points, limit, i)
  {
    hide Bytes;
    if points == [] {
      NoBytes();
    } else {
      var n := |points| - 1;
      var front := points[..n];
      assert points == front + [points[n]];
      BytesPush(front, points[n]);
      if Bytes(front) > limit {
        MissExists(front, limit);
        var i: nat :| FirstMiss(front, limit, i);
        assert points[..i] == front[..i] && FirstMiss(points, limit, i);
      } else {
        assert FirstMiss(points, limit, n);
      }
    }
  }

  lemma NoBytes()
    ensures Bytes([]) == 0
  {
  }

  /** Head retention need not keep a prefix: a short character is kept after a long one was skipped. */
  lemma HeadMaySkip()
    ensures Greedy([[0x61], [0xc3, 0xa9], [0x62]], 2) == [[0x61], [0x62]]
  {
    var a: seq<Byte>, e: seq<Byte>, b: seq<Byte> := [0x61], [0xc3, 0xa9], [0x62];
    assert [a, e, b][..2] == [a, e] && [a, e][..1] == [a] && [a][..0] == [];
    assert Bytes([a]) == 1 by { assert [a][1..] == []; }
    assert Greedy([], 2) == [] && Greedy([a], 2) == [] + [a];
    assert Greedy([a, e], 2) == [a];
  }

  lemma SlicePoints(points: seq<seq<Byte>>, k: nat, n: nat)
    requires AllPoints(points) && k <= n <= |points|
    ensures AllPoints(points[k..n])
  {
    hide IsPoint;
  }

  lemma {:induction false} GreedyPoints(points: seq<seq<Byte>>, limit: nat)
    requires AllPoints(points)
    ensures AllPoints(Greedy(points, limit))
  {
    hide IsPoint, Bytes;
    if points != [] {
      SlicePoints(points, 0, |points| - 1);
      assert points[0..|points| - 1] == points[..|points| - 1];
      GreedyPoints(points[..|points| - 1], limit);
    }
  }

  lemma FitPoints(points: seq<seq<Byte>>, limit: nat)
    requires AllPoints(points)
    ensures AllPoints(FitTail(points, limit)) && AllPoints(FitHead(points, limit))
  {
    hide IsPoint, FitTail, FitHead;
    var kept, front := FitTail(points, limit), FitHead(points, limit);
    SlicePoints(points, |points| - |kept|, |points|);
    SlicePoints(points, 0, |front|);
    assert points[|points| - |kept|..|points|] == kept && points[0..|front|] == front;
  }

  // ---------------------------------------------------------- rendering

  datatype State = Complete | Incomplete(reason: string)

  datatype Details = Details(state: State, inputBytes: nat, retainedBytes: nat, omittedBytes: nat, limitBytes: nat, tail: bool)

  /** The omission marker: the default one, a fixed text, or a text computed from the accounting. */
  datatype Marker = Default | Fixed(text: string) | Computed(render: Details -> string)

  function MarkerText(m: Marker, d: Details): string {
    match m
    case Default => if d.state.Complete? then "[output truncated]" else "[output incomplete: " + d.state.reason + "]"
    case Fixed(text) => text
    case Computed(render) => render(d)
  }

  /** Body and marker, as they fit the budget together. */
  datatype Fitted = Fitted(body: seq<seq<Byte>>, markerBytes: seq<Byte>)

  function Fit(points: seq<seq<Byte>>, tail: bool, limit: nat): seq<seq<Byte>> {
    if tail then FitTail(points, limit) else FitHead(points, limit)
  }

  /** Bytes the body may take beside a marker: a separating newline is paid for when both are there. */
  function BodyLimit(source: seq<seq<Byte>>, markerBytes: seq<Byte>, maxBytes: nat): (n: nat)
    ensures n <= maxBytes
  {
    var rest := maxBytes - |markerBytes| - (if source != [] && markerBytes != [] then 1 else 0);
    if rest < 0 then 0 else rest
  }

  ghost predicate FitsText(f: Fitted, source: seq<seq<Byte>>, tail: bool, maxBytes: nat, marker: seq<Byte>) {
    && (if |marker| > maxBytes then LongestPrefix(marker, maxBytes, f.markerBytes) else f.markerBytes == marker)
    && f.body == Fit(source, tail, BodyLimit(source, f.markerBytes, maxBytes))
  }

  method TrimSequences(source: seq<seq<Byte>>, tail: bool, maxBytes: int) returns (out: seq<seq<Byte>>)
    requires forall i | 0 <= i < |source| :: source[i] != []
    ensures out == Fit(source, tail, if maxBytes < 0 then 0 else maxBytes)
  {
    hide Bytes, FitHead, FitTail;
    if maxBytes <= 0 {
      NothingFits(source);
      return [];
    }
    out := source;
    var bytes := Bytes(out);
    if !tail {
      while out != [] && bytes > maxBytes
        invariant bytes == Bytes(out) && FitHead(out, maxBytes) == FitHead(source, maxBytes)
      {
        DropStep(out, maxBytes);
        bytes := bytes - |out[|out| - 1]|;
        out := out[..|out| - 1];
      }
      DropDone(out, maxBytes);
    } else {
      var start := 0;
      while start < |out| && bytes > maxBytes
        invariant start <= |out| && bytes == Bytes(out[start..]) && FitTail(out[start..], maxBytes) == FitTail(source, maxBytes)
      {
        EvictStep(out[start..], maxBytes);
        assert out[start..][1..] == out[start + 1..];
        bytes := bytes - |out[start]|;
        start := start + 1;
      }
      EvictDone(out[start..], maxBytes);
      return out[start..];
    }
  }

  lemma DropStep(points: seq<seq<Byte>>, limit: nat)
    requires Bytes(points) > limit && points != []
    ensures var init, last := points[..|points| - 1], points[|points| - 1];
            FitHead(points, limit) == FitHead(init, limit) && Bytes(points) == Bytes(init) + |last|
  {
    hide Bytes;
    BytesPush(points[..|points| - 1], points[|points| - 1]);
    assert points == points[..|points| - 1] + [points[|points| - 1]];
  }

  lemma DropDone(points: seq<seq<Byte>>, limit: nat)
    ensures Bytes(points) <= limit || points == [] ==> FitHead(points, limit) == points
  {
  }

  lemma NothingFits(source: seq<seq<Byte>>)
    requires forall i | 0 <= i < |source| :: source[i] != []
    ensures FitHead(source, 0) == [] && FitTail(source, 0) == []
  {
    NoBytesNoPoints(FitHead(source, 0));
    NoBytesNoPoints(FitTail(source, 0));
  }

  lemma NoBytesNoPoints(points: seq<seq<Byte>>)
    requires forall i | 0 <= i < |points| :: points[i] != []
    ensures Bytes(points) == 0 ==> points == []
  {
  }

  /** Fit a body of whole characters and a marker into the final budget. */
  method FitText(source: seq<seq<Byte>>, tail: bool, maxBytes: nat, marker: seq<Byte>) returns (f: Fitted)
    requires forall i | 0 <= i < |source| :: source[i] != []
    ensures FitsText(f, source, tail, maxBytes, marker)
  {
    hide LongestPrefix;
    var markerBytes := marker;
    if |markerBytes| > maxBytes {
      markerBytes := Utf8BytePrefix(markerBytes, maxBytes);
    }
    var separatorBytes := if |source| > 0 && |markerBytes| > 0 then 1 else 0;
    var body := TrimSequences(source, tail, if maxBytes - |markerBytes| - separatorBytes < 0 then 0 else maxBytes - |markerBytes| - separatorBytes);
    f := Fitted(body, markerBytes);
  }

  function Compose(f: Fitted): seq<Byte> {
    var body := Flatten(f.body);
    if body != [] && f.markerBytes != [] then body + [10] + f.markerBytes
    else if body != [] then body else f.markerBytes
  }

  /** The body comes first and the marker last, with exactly one newline between them when neither is empty. */
  ghost predicate LaidOut(text: seq<Byte>, body: seq<Byte>, marker: seq<Byte>) {
    var gap := if body != [] && marker != [] then 1 else 0;
    && |text| == |body| + gap + |marker|
    && text[..|body|] == body && text[|text| - |marker|..] == marker
    && (gap == 1 ==> text[|body|] == 10)
  }

  lemma ComposedIsLaidOut(f: Fitted)
    ensures LaidOut(Compose(f), Flatten(f.body), f.markerBytes)
  {
    hide Flatten;
  }

  /** The composed text is whole characters within the budget. */
  lemma ComposedFits(f: Fitted, source: seq<seq<Byte>>, tail: bool, maxBytes: nat, marker: seq<Byte>)
    requires AllPoints(source) && ValidUtf8(marker) && FitsText(f, source, tail, maxBytes, marker)
    ensures ValidUtf8(Compose(f)) && |Compose(f)| <= maxBytes && |Flatten(f.body)| == Bytes(f.body) && AllPoints(f.body)
  {
    hide ValidUtf8, IsPoint, FitTail, FitHead, Flatten, Bytes;
    var limit := BodyLimit(source, f.markerBytes, maxBytes);
    FitPoints(source, limit);
    ValidPoints(f.body);
    BytesIsLength(f.body);
    if Flatten(f.body) != [] && f.markerBytes != [] {
      NoBodyWithoutSource(f.body);
      NewlineIsValid();
      ValidConcat(Flatten(f.body), [10]);
      ValidConcat(Flatten(f.body) + [10], f.markerBytes);
    }
  }

  /** The rendered body of head retention is a prefix exactly when it ends by the first miss, or nothing fits later. */
  lemma HeadBodyIsPrefix(points: seq<seq<Byte>>, limit: nat, f: Fitted, marker: seq<Byte>, i: nat)
    requires FirstMiss(points, limit, i) && FitsText(f, Greedy(points, limit), false, limit, marker)
    ensures f.body <= points <==> |f.body| <= i || NoneFitsLater(points, limit, i)
  {
    hide Greedy, Bytes, NoneFitsLater, FitHead, LongestPrefix;
    var kept := Greedy(points, limit);
    GreedyFrom(points, limit, i);
    assert f.body == FitHead(kept, BodyLimit(kept, f.markerBytes, limit)) == kept[..|f.body|];
    if |f.body| <= i {
      assert f.body == kept[..i][..|f.body|] == points[..|f.body|];
    } else {
      assert f.body[..i] == kept[..i];
    }
    MissIsNoPrefix(points, f.body, limit, i);
  }

  /** Beside a marker of at least two bytes there is no room for what was kept after the first miss: the body is a prefix. */
  lemma MarkerKeepsPrefix(points: seq<seq<Byte>>, limit: nat, f: Fitted, marker: seq<Byte>)
    requires AllPoints(points) && FitsText(f, Greedy(points, limit), false, limit, marker) && |f.markerBytes| >= 2
    ensures f.body <= points
  {
    hide Greedy, Bytes, NoneFitsLater, FitHead, LongestPrefix, IsPoint;
    GreedyIsPrefix(points, limit);
    if Bytes(points) > limit {
      var i: nat :| FirstMiss(points, limit, i);
      HeadBodyIsPrefix(points, limit, f, marker, i);
      if |f.body| > i {
        GreedyFrom(points, limit, i);
        GreedyPoints(points, limit);
        SlicePoints(Greedy(points, limit), 0, |f.body|);
        assert Greedy(points, limit)[0..|f.body|] == f.body;
        MarkerNeedsRoom(points, limit, f, i);
      }
    } else {
      assert f.body == Greedy(points, limit)[..|f.body|];
    }
  }

  lemma MarkerNeedsRoom(points: seq<seq<Byte>>, limit: nat, f: Fitted, i: nat)
    requires FirstMiss(points, limit, i) && AllPoints(points) && AllPoints(f.body)
    requires i < |f.body| && f.body[..i] == points[..i]
    ensures Bytes(f.body) >= limit - 2 && Bytes(f.body) >= 1
  {
    hide Bytes, IsPoint;
    PointSize(points[i]);
    PointSize(f.body[i]);
    assert f.body[..i + 1] == points[..i] + [f.body[i]];
    BytesPush(points[..i], f.body[i]);
    PrefixBytes(f.body, i + 1);
  }

  lemma PointSize(p: seq<Byte>)
    requires IsPoint(p)
    ensures 1 <= |p| <= 4
  {
  }

  lemma NoBodyWithoutSource(body: seq<seq<Byte>>)
    requires Flatten(body) != []
    ensures body != []
  {
  }

  lemma NewlineIsValid()
    ensures ValidUtf8([10])
  {
    OnePoint([10]);
    assert AllPoints([[10]]);
  }

  // --------------------------------------------------------- accumulator

  datatype BoundedText = BoundedText(
    text: seq<Byte>, state: State, tail: bool, limitBytes: nat, inputBytes: nat, retainedBytes: nat,
    omittedBytes: nat, outputBytes: nat, truncated: bool)

  /** What is retained of the accepted characters. */
  function Kept(points: seq<seq<Byte>>, tail: bool, maxBytes: nat): (r: seq<seq<Byte>>)
    ensures Bytes(r) <= maxBytes
  {
    if tail then FitTail(points, maxBytes) else Greedy(points, maxBytes)
  }

  lemma KeptAll(points: seq<seq<Byte>>, tail: bool, maxBytes: nat)
    ensures Kept(points, tail, maxBytes) == points <==> Bytes(points) <= maxBytes
  {
    GreedyIsSubsequence(points, maxBytes);
  }

  /** The rendered result of an input, once the marker text is chosen. */
  ghost predicate Renders(r: BoundedText, input: seq<Byte>, f: Fitted, marker: string) {
    var kept := Kept(Accepted(input), r.tail, r.limitBytes);
    && FitsText(f, kept, r.tail, r.limitBytes, EncodeText(marker))
    && LaidOut(r.text, Flatten(f.body), f.markerBytes) && r.retainedBytes == Bytes(f.body) == |Flatten(f.body)|
    && r.inputBytes == |input| == r.retainedBytes + r.omittedBytes
    && r.outputBytes == |r.text| <= r.limitBytes && ValidUtf8(r.text)
    && (r.tail ==> f.body == FitTail(Accepted(input), BodyLimit(kept, f.markerBytes, r.limitBytes)))
    && (!r.tail ==> HeadBody(Accepted(input), r.limitBytes, f))
  }

  /** Where the body of head retention is a prefix of everything accepted, and that beside a real marker it always is. */
  ghost predicate HeadBody(points: seq<seq<Byte>>, limit: nat, f: Fitted) {
    && (forall i: nat | FirstMiss(points, limit, i) :: f.body <= points <==> |f.body| <= i || NoneFitsLater(points, limit, i))
    && (Bytes(points) <= limit || |f.markerBytes| >= 2 ==> f.body <= points)
  }

  lemma HeadBodyHolds(points: seq<seq<Byte>>, limit: nat, f: Fitted, marker: seq<Byte>)
    requires AllPoints(points) && FitsText(f, Greedy(points, limit), false, limit, marker)
    ensures HeadBody(points, limit, f)
  {
    hide Greedy, Bytes, NoneFitsLater, FitHead, LongestPrefix, IsPoint;
    forall i: nat | FirstMiss(points, limit, i)
      ensures f.body <= points <==> |f.body| <= i || NoneFitsLater(points, limit, i)
    {
      HeadBodyIsPrefix(points, limit, f, marker, i);
    }
    if |f.markerBytes| >= 2 {
      MarkerKeepsPrefix(points, limit, f, marker);
    }
    GreedyIsPrefix(points, limit);
  }

  // ------------------------------------------------------ asking a marker

  /** The accounting a marker is shown when `retained` bytes are kept; only `retainedBytes` and `omittedBytes` vary. */
  function Shown(base: Details, retained: nat): Details {
    base.(retainedBytes := retained, omittedBytes := if base.inputBytes < retained then 0 else base.inputBytes - retained)
  }

  function Said(m: Marker, base: Details, retained: nat): string {
    MarkerText(m, Shown(base, retained))
  }

  /**
   The rounds of asking a marker: first about all that is retained, then each
   time about the body that was left beside the answer before.
   */
  ghost predicate Rounds(m: Marker, base: Details, source: seq<seq<Byte>>, asked: seq<nat>, fits: seq<Fitted>) {
    && |asked| == |fits| >= 1 && asked[0] == Bytes(source)
    && (forall i | 0 <= i < |fits| :: FitsText(fits[i], source, base.tail, base.limitBytes, EncodeText(Said(m, base, asked[i]))))
    && (forall i | 0 < i < |fits| :: asked[i] == Bytes(fits[i - 1].body))
  }

  /** Round `i` got the answer of the round before. */
  predicate Settles(m: Marker, base: Details, asked: seq<nat>, i: nat) {
    0 < i < |asked| && Said(m, base, asked[i]) == Said(m, base, asked[i - 1])
  }

  /** A computed marker is asked until it settles, and at most 16 times more; any other one is asked once. */
  ghost predicate AskedEnough(m: Marker, base: Details, asked: seq<nat>) {
    var last := |asked| - 1;
    if m.Computed? then
      && 1 <= last <= MAX_ATTEMPTS && (forall i | 0 < i < last :: !Settles(m, base, asked, i))
      && (last < MAX_ATTEMPTS ==> Settles(m, base, asked, last))
    else last == 0
  }

  const MAX_ATTEMPTS := 16

  lemma FitIsUnique(f: Fitted, g: Fitted, source: seq<seq<Byte>>, tail: bool, maxBytes: nat, marker: seq<Byte>)
    requires FitsText(f, source, tail, maxBytes, marker) && FitsText(g, source, tail, maxBytes, marker)
    ensures f == g
  {
    hide ValidUtf8, Fit;
    if |marker| > maxBytes {
      assert f.markerBytes == marker[..|f.markerBytes|] && g.markerBytes == marker[..|g.markerBytes|];
    }
  }

  /** The rounds depend on the marker and the input alone: two runs of them agree as far as both go. */
  lemma {:induction false} RoundsAreDetermined(m: Marker, base: Details, source: seq<seq<Byte>>, asked: seq<nat>, fits: seq<Fitted>,
                                               asked': seq<nat>, fits': seq<Fitted>, i: nat)
    requires Rounds(m, base, source, asked, fits) && Rounds(m, base, source, asked', fits') && i < |fits| && i < |fits'|
    ensures asked[i] == asked'[i] && fits[i] == fits'[i]
    decreases i
  {
    hide FitsText, Bytes;
    if i > 0 {
      RoundsAreDetermined(m, base, source, asked, fits, asked', fits', i - 1);
    }
    FitIsUnique(fits[i], fits'[i], source, base.tail, base.limitBytes, EncodeText(Said(m, base, asked[i])));
  }

  /** A marker that settles was asked about the very body it stands beside. */
  lemma SettledIsExact(m: Marker, base: Details, source: seq<seq<Byte>>, asked: seq<nat>, fits: seq<Fitted>, i: nat)
    requires Rounds(m, base, source, asked, fits) && Settles(m, base, asked, i)
    ensures |fits| == |asked| && fits[i] == fits[i - 1] && Bytes(fits[i].body) == asked[i]
  {
    hide FitsText, Bytes;
    FitIsUnique(fits[i], fits[i - 1], source, base.tail, base.limitBytes, EncodeText(Said(m, base, asked[i])));
  }

  /** Answers of one length that fit the budget leave one body, so the third answer is the second again. */
  lemma OneLengthSettles(m: Marker, base: Details, source: seq<seq<Byte>>, asked: seq<nat>, fits: seq<Fitted>, length: nat)
    requires Rounds(m, base, source, asked, fits) && AskedEnough(m, base, asked) && length <= base.limitBytes
    requires forall n: nat :: |EncodeText(Said(m, base, n))| == length
    ensures |fits| <= 3
    ensures m.Computed? ==> Settles(m, base, asked, |fits| - 1)
  {
    hide Bytes, EncodeText, Said, Fit;
    if m.Computed? && |fits| > 2 {
      assert |fits[0].markerBytes| == length && |fits[1].markerBytes| == length;
      assert fits[0].body == fits[1].body;
      assert Settles(m, base, asked, 2);
    }
  }

  lemma {:induction false} AsciiLength(s: string)
    requires forall i | 0 <= i < |s| :: (s[i] as int) < 0x80
    ensures |EncodeText(s)| == |s|
  {
    if s != "" {
      AsciiLength(s[1..]);
    }
  }

  lemma {:induction false} OneByteEach(points: seq<seq<Byte>>, limit: nat)
    requires forall i | 0 <= i < |points| :: |points[i]| == 1
    ensures Bytes(points) == |points| && |FitTail(points, limit)| == if |points| <= limit then |points| else limit
  {
    if points != [] {
      OneByteEach(points[1..], limit);
    }
  }

  /** A marker that says more about more: six characters beside five bytes or more, one beside fewer. */
  function Talkative(d: Details): string {
    if d.retainedBytes >= 5 then "######" else "#"
  }

  lemma TalkativeLength(base: Details, n: nat)
    ensures |EncodeText(Said(Computed(Talkative), base, n))| == if n >= 5 then 6 else 1
  {
    AsciiLength("######");
    AsciiLength("#");
  }

  /** It does happen that a marker never settles: beside ten bytes its long answer leaves three, and its short one eight. */
  lemma {:induction false} NeedNotSettle(base: Details, source: seq<seq<Byte>>, asked: seq<nat>, fits: seq<Fitted>, i: nat)
    requires base.tail && base.limitBytes == 10 && |source| == 10 && forall i | 0 <= i < 10 :: |source[i]| == 1
    requires Rounds(Computed(Talkative), base, source, asked, fits) && i < |asked|
    ensures asked[i] == if i == 0 then 10 else if i % 2 == 1 then 3 else 8
    ensures !Settles(Computed(Talkative), base, asked, i)
    decreases i
  {
    hide Talkative, EncodeText, FitsText, FitTail, Bytes, Said;
    if i == 0 {
      OneByteEach(source, 10);
    } else {
      NeedNotSettle(base, source, asked, fits, i - 1);
      AnswerLeaves(base, source, asked[i - 1], fits[i - 1]);
      AnswersDiffer(base, asked[i - 1], asked[i]);
    }
  }

  lemma AnswerLeaves(base: Details, source: seq<seq<Byte>>, n: nat, f: Fitted)
    requires base.tail && base.limitBytes == 10 && |source| == 10 && forall i | 0 <= i < 10 :: |source[i]| == 1
    requires FitsText(f, source, base.tail, base.limitBytes, EncodeText(Said(Computed(Talkative), base, n)))
    ensures Bytes(f.body) == if n >= 5 then 3 else 8
  {
    hide EncodeText, LongestPrefix, FitTail, Bytes, Said;
    TalkativeLength(base, n);
    var limit := BodyLimit(source, f.markerBytes, 10);
    OneByteEach(source, limit);
    OneByteEach(FitTail(source, limit), limit);
  }

  lemma AnswersDiffer(base: Details, a: nat, b: nat)
    requires (a >= 5) != (b >= 5)
    ensures Said(Computed(Talkative), base, a) != Said(Computed(Talkative), base, b)
  {
    assert |"######"| != |"#"|;
  }

  /** The marker's text: none in a complete result, otherwise the answer of the last round, and the body is the one left beside it. */
  ghost predicate MarkerSaid(m: Marker, r: BoundedText, source: seq<seq<Byte>>, f: Fitted, text: string,
                             asked: seq<nat>, fits: seq<Fitted>)
  {
    if !r.truncated || r.limitBytes == 0 then text == ""
    else
      && Rounds(m, BaseOf(r), source, asked, fits) && AskedEnough(m, BaseOf(r), asked)
      && f == fits[|fits| - 1] && text == Said(m, BaseOf(r), asked[|asked| - 1])
  }

  function BaseOf(r: BoundedText): Details {
    Details(r.state, r.inputBytes, 0, 0, r.limitBytes, r.tail)
  }

  function DetailsOf(r: BoundedText): Details {
    Shown(BaseOf(r), r.retainedBytes)
  }

  /**
   When the marker describes the result it stands in: always when it is not
   computed, and when it settled; a computed one that did not settle in its
   sixteen attempts does exactly if asking once more would not change it.
   */
  lemma MarkerDescribes(m: Marker, r: BoundedText, input: seq<Byte>, f: Fitted, text: string, asked: seq<nat>, fits: seq<Fitted>)
    requires Renders(r, input, f, text) && MarkerSaid(m, r, Kept(Accepted(input), r.tail, r.limitBytes), f, text, asked, fits)
    requires r.truncated && r.limitBytes > 0
    ensures !m.Computed? || Settles(m, BaseOf(r), asked, |asked| - 1) ==> text == MarkerText(m, DetailsOf(r))
    ensures m.Computed? && text != MarkerText(m, DetailsOf(r)) ==>
              |asked| == MAX_ATTEMPTS + 1 && forall i :: !Settles(m, BaseOf(r), asked, i)
  {
    hide Rounds, FitsText, Bytes, Accepted, Kept, HeadBody, ValidUtf8, Compose, FitTail;
    var last := |asked| - 1;
    if m.Computed? && Settles(m, BaseOf(r), asked, last) {
      SettledIsExact(m, BaseOf(r), Kept(Accepted(input), r.tail, r.limitBytes), asked, fits, last);
    }
  }

  /** Nothing is reported missing exactly for a complete, valid input within the budget; then the text is the input. */
  ghost predicate ReportsTruncation(r: BoundedText, input: seq<Byte>) {
    && (!r.truncated <==> r.state.Complete? && ValidUtf8(input) && |input| <= r.limitBytes)
    && (!r.truncated ==> r.text == input)
  }

  class BoundedTextAccumulator {
    const maxBytes: nat
    const tail: bool
    const marker: Marker
    var sequences: seq<seq<Byte>>
    var sequenceStart: nat
    var pending: seq<Byte>
    var sourceBytes: nat
    var retainedBytesValue: nat
    var sourceTruncated: bool
    var finishedResult: Option<BoundedText>

    /** Every byte pushed so far. */
    ghost var input: seq<Byte>

    constructor (maxBytes: nat, tail: bool, marker: Marker)
      ensures Valid() && input == [] && finishedResult.None? && this.maxBytes == maxBytes && this.tail == tail && this.marker == marker
    {
      this.maxBytes, this.tail, this.marker := maxBytes, tail, marker;
      sequences, sequenceStart, pending := [], 0, [];
      sourceBytes, retainedBytesValue, sourceTruncated, finishedResult := 0, 0, false, None;
      input := [];
    }

    function ActiveSequences(): seq<seq<Byte>>
      requires sequenceStart <= |sequences|
      reads `sequences, `sequenceStart
    {
      sequences[sequenceStart..]
    }

    /** The fields hold what the batch decoder makes of the bytes `d` was fed. */
    ghost predicate Holds(d: Decoder)
      reads `sequences, `sequenceStart, `pending, `retainedBytesValue, `sourceTruncated
    {
      && sequenceStart <= |sequences|
      && ActiveSequences() == Kept(d.points, tail, maxBytes)
      && retainedBytesValue == Bytes(ActiveSequences())
      && pending == d.pending
      && (sourceTruncated <==> d.dropped || Bytes(d.points) > maxBytes)
    }

    ghost predicate Valid()
      reads this
    {
      && sourceBytes == |input|
      && (finishedResult.None? ==> Holds(FeedAll(Start, input)))
      && (finishedResult.Some? ==> ReportsTruncation(finishedResult.value, input))
    }

    /** Keep one more whole character. */
    method Accept(sequence: seq<Byte>, ghost d: Decoder)
      requires Holds(d)
      modifies `sequences, `sequenceStart, `retainedBytesValue, `sourceTruncated
      ensures Holds(d.(points := d.points + [sequence]))
    {
      hide FitTail, Greedy, Bytes;
      BytesPush(ActiveSequences(), sequence);
      if !tail {
        AcceptHead(sequence, d);
        return;
      }
      FitTailPush(d.points, sequence, maxBytes);
      EvictionMeans(d.points, sequence, maxBytes);
      ghost var before := ActiveSequences();
      sequences := sequences + [sequence];
      retainedBytesValue := retainedBytesValue + |sequence|;
      assert ActiveSequences() == before + [sequence];
      EvictFront();
      if sequenceStart > 1024 && sequenceStart * 2 > |sequences| {
        sequences := sequences[sequenceStart..];
        sequenceStart := 0;
      }
    }

    method AcceptHead(sequence: seq<Byte>, ghost d: Decoder)
      requires Holds(d) && !tail
      modifies `sequences, `retainedBytesValue, `sourceTruncated
      ensures Holds(d.(points := d.points + [sequence]))
    {
      hide Greedy, Bytes, FitTail;
      GreedyPush(d.points, sequence, maxBytes);
      BytesPush(ActiveSequences(), sequence);
      GreedyOverflow(d.points, sequence, maxBytes);
      ghost var before := ActiveSequences();
      if retainedBytesValue + |sequence| <= maxBytes {
        sequences := sequences + [sequence];
        retainedBytesValue := retainedBytesValue + |sequence|;
        assert ActiveSequences() == before + [sequence];
      } else {
        sourceTruncated := true;
      }
    }

    /** Give up the oldest characters until the budget holds again. */
    method EvictFront()
      requires sequenceStart <= |sequences| && retainedBytesValue == Bytes(ActiveSequences())
      modifies `sequenceStart, `retainedBytesValue, `sourceTruncated
      ensures sequenceStart <= |sequences| && retainedBytesValue == Bytes(ActiveSequences())
      ensures ActiveSequences() == FitTail(old(ActiveSequences()), maxBytes)
      ensures sourceTruncated <==> old(sourceTruncated) || old(retainedBytesValue) > maxBytes
    {
      hide FitTail, Bytes;
      while retainedBytesValue > maxBytes && sequenceStart < |sequences|
        invariant sequenceStart <= |sequences| && retainedBytesValue == Bytes(ActiveSequences())
        invariant FitTail(ActiveSequences(), maxBytes) == FitTail(old(ActiveSequences()), maxBytes)
        invariant sourceTruncated <==> old(sourceTruncated) || (old(retainedBytesValue) > maxBytes && sequenceStart > old(sequenceStart))
        invariant sequenceStart >= old(sequenceStart) && (sequenceStart == old(sequenceStart) ==> retainedBytesValue == old(retainedBytesValue))
      {
        EvictStep(ActiveSequences(), maxBytes);
        assert ActiveSequences()[1..] == sequences[sequenceStart + 1..];
        retainedBytesValue := retainedBytesValue - |sequences[sequenceStart]|;
        sequenceStart := sequenceStart + 1;
        sourceTruncated := true;
      }
      EvictDone(ActiveSequences(), maxBytes);
    }

    method ConsumeByte(byte: Byte, ghost d: Decoder)
      requires Holds(d)
      modifies `sequences, `sequenceStart, `retainedBytesValue, `sourceTruncated, `pending
      ensures Holds(Feed(d, byte))
    {
      hide IsValidSequence, ExpectedLength, Kept, IsContinuation;
      if pending == [] {
        ConsumeFirst(byte, d);
        return;
      }
      if IsContinuation(byte) {
        var p := pending + [byte];
        pending := p;
        if |p| == ExpectedLength(p[0]) {
          pending := [];
          if IsValidSequence(p) {
            Accept(p, d.(pending := []));
          } else {
            sourceTruncated := true;
          }
        }
        return;
      }
      pending := [];
      sourceTruncated := true;
      ConsumeFirst(byte, Decoder(d.points, [], true));
    }

    /** A byte that starts a character. */
    method ConsumeFirst(byte: Byte, ghost d: Decoder)
      requires Holds(d) && pending == []
      modifies `sequences, `sequenceStart, `retainedBytesValue, `sourceTruncated, `pending
      ensures Holds(FeedFirst(d, byte))
    {
      hide ExpectedLength, Kept;
      var length := ExpectedLength(byte);
      if length == 1 {
        Accept([byte], d);
      } else if length > 1 {
        pending := [byte];
      } else {
        sourceTruncated := true;
      }
    }

    /** Add one chunk; refused once the result was rendered. */
    method Push(chunk: seq<Byte>) returns (ok: bool)
      requires Valid()
      modifies this
      ensures Valid() && ok == finishedResult.None? && finishedResult == old(finishedResult)
      ensures input == old(input) + (if ok then chunk else [])
    {
      hide Holds, Feed;
      if finishedResult.Some? {
        return false;
      }
      sourceBytes := sourceBytes + |chunk|;
      ghost var d := FeedAll(Start, input);
      for i := 0 to |chunk|
        invariant Holds(FeedAll(d, chunk[..i]))
        invariant sourceBytes == |input| + |chunk| && input == old(input) && finishedResult.None?
      {
        assert chunk[..i + 1][..i] == chunk[..i];
        ConsumeByte(chunk[i], FeedAll(d, chunk[..i]));
      }
      assert chunk[..|chunk|] == chunk;
      FeedChunks(Start, input, chunk);
      input := input + chunk;
      ok := true;
    }

    /** The accounting a marker is shown, but for what is retained. */
    function Base(state: State): Details
      reads `sourceBytes
    {
      Details(state, sourceBytes, 0, 0, maxBytes, tail)
    }

    /**
     Choose the marker and fit the text. A computed marker is asked again, at
     most 16 times, until it no longer changes.
     */
    method ChooseMarker(state: State, needsMarker: bool, source: seq<seq<Byte>>)
      returns (f: Fitted, text: string, ghost asked: seq<nat>, ghost fits: seq<Fitted>)
      requires retainedBytesValue == Bytes(source) && forall i | 0 <= i < |source| :: source[i] != []
      ensures FitsText(f, source, tail, maxBytes, EncodeText(text))
      ensures !needsMarker || maxBytes == 0 ==> text == ""
      ensures needsMarker && maxBytes > 0 ==>
                && Rounds(marker, Base(state), source, asked, fits) && AskedEnough(marker, Base(state), asked)
                && f == fits[|fits| - 1] && text == Said(marker, Base(state), asked[|asked| - 1])
    {
      hide FitsText, Bytes, EncodeText, Rounds, Settles, AskedEnough, Said;
      asked := [retainedBytesValue];
      text := if needsMarker && maxBytes > 0 then Said(marker, Base(state), retainedBytesValue) else "";
      f := FitText(source, tail, maxBytes, EncodeText(text));
      fits := [f];
      if !needsMarker || maxBytes == 0 {
        return;
      }
      FirstRound(marker, Base(state), source, f);
      if marker.Computed? {
        var stable := false;
        var attempt := 0;
        while attempt < 16 && !stable
          invariant 0 <= attempt <= 16 && |fits| == |asked| == attempt + 1
          invariant Rounds(marker, Base(state), source, asked, fits)
          invariant f == fits[attempt] && text == Said(marker, Base(state), asked[attempt])
          invariant FitsText(f, source, tail, maxBytes, EncodeText(text))
          invariant forall i | 0 < i < attempt :: !Settles(marker, Base(state), asked, i)
          invariant stable <==> attempt > 0 && Settles(marker, Base(state), asked, attempt)
          decreases 16 - attempt, !stable
        {
          var next := Said(marker, Base(state), Bytes(f.body));
          var nextFitted := FitText(source, tail, maxBytes, EncodeText(next));
          if next == text {
            FitIsUnique(f, nextFitted, source, tail, maxBytes, EncodeText(text));
          }
          NextRound(marker, Base(state), source, asked, fits, nextFitted);
          stable := next == text && Bytes(nextFitted.body) == Bytes(f.body) && nextFitted.markerBytes == f.markerBytes;
          asked, fits := asked + [Bytes(f.body)], fits + [nextFitted];
          text, f := next, nextFitted;
          attempt := attempt + 1;
        }
      }
      EnoughRounds(marker, Base(state), asked);
    }

    /** Render once; later calls return the same result. */
    method Finish(state: State) returns (r: BoundedText)
      requires Valid()
      modifies this
      ensures Valid() && finishedResult == Some(r) && input == old(input)
      ensures old(finishedResult).Some? ==> r == old(finishedResult).value
      ensures ReportsTruncation(r, input)
      ensures old(finishedResult).None? ==>
                && pending == [] && r.state == state && r.tail == tail && r.limitBytes == maxBytes
                && exists f, text, asked, fits ::
                     && Renders(r, input, f, text)
                     && MarkerSaid(marker, r, Kept(Accepted(input), tail, maxBytes), f, text, asked, fits)
    {
      hide Holds, ReportsTruncation, Renders, MarkerText, HeadBody, FitsText, Compose, Accepted, Kept, AllPoints, ValidUtf8, Bytes, FeedAll, EncodeText;
      if finishedResult.Some? {
        return finishedResult.value;
      }
      ghost var d := FeedAll(Start, input);
      HeldFacts(d);
      if pending != [] {
        pending := [];
        sourceTruncated := true;
      }
      var needsMarker := sourceTruncated || !state.Complete?;
      var source := ActiveSequences();
      var f, text, asked, fits := ChooseMarker(state, needsMarker, source);
      var bodyBytes := Bytes(f.body);
      var whole := Compose(f);
      r := BoundedText(whole, state, tail, maxBytes, sourceBytes, bodyBytes,
                       if sourceBytes < bodyBytes then 0 else sourceBytes - bodyBytes,
                       |whole|, sourceTruncated || !state.Complete? || bodyBytes < retainedBytesValue);
      RenderingIsRight(r, input, f, text, sourceTruncated, needsMarker);
      assert MarkerSaid(marker, r, source, f, text, asked, fits);
      finishedResult := Some(r);
    }

    /** What the fields of an open accumulator say about its input. */
    lemma HeldFacts(d: Decoder)
      requires Valid() && finishedResult.None? && d == FeedAll(Start, input)
      ensures Holds(d) && d.points == Accepted(input) && AllPoints(d.points)
      ensures sequenceStart <= |sequences| && ActiveSequences() == Kept(Accepted(input), tail, maxBytes)
      ensures AllPoints(ActiveSequences()) && forall i | 0 <= i < |ActiveSequences()| :: ActiveSequences()[i] != []
      ensures sourceBytes == |input| && retainedBytesValue == Bytes(ActiveSequences())
      ensures !(sourceTruncated || pending != []) <==> ValidUtf8(input) && Bytes(Accepted(input)) <= maxBytes
    {
      hide ValidUtf8, Accepted, FeedAll, IsPoint, Kept;
      StreamIsBatch(Start, input);
      FeedPoints(Start, input);
      assert [] + input == input && [] + Accepted(input) == Accepted(input);
      KeptPoints(d.points, tail, maxBytes);
      NonEmptyPoints(ActiveSequences());
    }
  }

  lemma FirstRound(m: Marker, base: Details, source: seq<seq<Byte>>, f: Fitted)
    requires FitsText(f, source, base.tail, base.limitBytes, EncodeText(Said(m, base, Bytes(source))))
    ensures Rounds(m, base, source, [Bytes(source)], [f])
  {
    hide FitsText, Bytes, EncodeText, Said;
  }

  lemma EnoughRounds(m: Marker, base: Details, asked: seq<nat>)
    requires 1 <= |asked| <= MAX_ATTEMPTS + 1 && (!m.Computed? ==> |asked| == 1)
    requires forall i | 0 < i < |asked| - 1 :: !Settles(m, base, asked, i)
    requires m.Computed? ==> |asked| == MAX_ATTEMPTS + 1 || (|asked| > 1 && Settles(m, base, asked, |asked| - 1))
    ensures AskedEnough(m, base, asked)
  {
    hide Settles;
  }

  /** One more round of asking, and which rounds settle. */
  lemma NextRound(m: Marker, base: Details, source: seq<seq<Byte>>, asked: seq<nat>, fits: seq<Fitted>, next: Fitted)
    requires Rounds(m, base, source, asked, fits)
    requires var n := Bytes(fits[|fits| - 1].body);
             FitsText(next, source, base.tail, base.limitBytes, EncodeText(Said(m, base, n)))
    ensures var n := Bytes(fits[|fits| - 1].body);
            && Rounds(m, base, source, asked + [n], fits + [next])
            && (forall i | 0 <= i < |asked| :: Settles(m, base, asked + [n], i) <==> Settles(m, base, asked, i))
            && (Settles(m, base, asked + [n], |asked|) <==> Said(m, base, n) == Said(m, base, asked[|asked| - 1]))
  {
    hide FitsText, Bytes, EncodeText, Said;
  }

  lemma KeptPoints(points: seq<seq<Byte>>, tail: bool, maxBytes: nat)
    requires AllPoints(points)
    ensures AllPoints(Kept(points, tail, maxBytes))
  {
    hide IsPoint;
    GreedyPoints(points, maxBytes);
    FitPoints(points, maxBytes);
  }

  lemma NonEmptyPoints(points: seq<seq<Byte>>)
    requires AllPoints(points)
    ensures forall i | 0 <= i < |points| :: points[i] != []
  {
  }

  /** Valid input is all characters; the accepted ones are never more than was pushed. */
  lemma {:induction false} AcceptedBytes(s: seq<Byte>)
    ensures Bytes(Accepted(s)) <= |s|
    ensures ValidUtf8(s) ==> Flatten(Accepted(s)) == s
    ensures AllPoints(Accepted(s))
    decreases |s|
  {
    hide ValidUtf8, IsValidSequence, Accepted, ExpectedLength, Bytes, Flatten, Span;
    if s == [] {
      NothingAccepted();
    } else {
      var n := Span(s);
      AcceptedBytes(s[n..]);
      AcceptedStep(s);
      if ValidUtf8(s) {
        ValidStep(s);
        WholePointSpan(s);
      }
    }
  }

  lemma NothingAccepted()
    ensures Accepted([]) == [] && Flatten([]) == [] && Bytes([]) == 0
  {
  }

  lemma AcceptedStep(s: seq<Byte>)
    requires s != []
    ensures var n, rest := Span(s), Accepted(s[Span(s)..]);
            if IsPoint(s[..n]) then
              && Accepted(s) == [s[..n]] + rest
              && Bytes(Accepted(s)) == n + Bytes(rest) && Flatten(Accepted(s)) == s[..n] + Flatten(rest)
            else Accepted(s) == rest
  {
    hide IsValidSequence, ExpectedLength, Span;
    var n, rest := Span(s), Accepted(s[Span(s)..]);
    if n == ExpectedLength(s[0]) && IsValidSequence(s[..n]) {
      assert ([s[..n]] + rest)[1..] == rest;
    } else {
      assert [] + rest == rest;
    }
  }

  lemma WholePointSpan(s: seq<Byte>)
    requires StartsPoint(s)
    ensures Span(s) == ExpectedLength(s[0])
  {
    var n := ExpectedLength(s[0]);
    PointTail(s[..n]);
    hide IsValidSequence;
    assert forall i | 0 <= i < n - 1 :: s[1..][i] == s[..n][i + 1];
    RunIs(s[1..], n - 1, n - 1);
  }

  /** The rendered result is what the batch reading of the whole input calls for. */
  lemma RenderingIsRight(r: BoundedText, input: seq<Byte>, f: Fitted, text: string, missing: bool, needsMarker: bool)
    requires var kept := Kept(Accepted(input), r.tail, r.limitBytes);
             && FitsText(f, kept, r.tail, r.limitBytes, EncodeText(text)) && (!needsMarker ==> text == "")
             && needsMarker == (missing || !r.state.Complete?)
             && r.text == Compose(f) && r.retainedBytes == Bytes(f.body) && r.inputBytes == |input|
             && r.omittedBytes == (if |input| < r.retainedBytes then 0 else |input| - r.retainedBytes)
             && r.outputBytes == |r.text|
             && r.truncated == (missing || !r.state.Complete? || Bytes(f.body) < Bytes(kept))
    requires !missing <==> ValidUtf8(input) && Bytes(Accepted(input)) <= r.limitBytes
    ensures Renders(r, input, f, text) && ReportsTruncation(r, input) && (r.truncated <==> needsMarker)
  {
    hide ValidUtf8, Accepted, EncodeText, FitTail, FitHead, Greedy, Flatten, Bytes, IsPoint, LongestPrefix, HeadBody, Compose, LaidOut;
    var points := Accepted(input);
    var kept := Kept(points, r.tail, r.limitBytes);
    ComposedIsLaidOut(f);
    if !r.tail {
      AcceptedBytes(input);
      HeadBodyHolds(points, r.limitBytes, f, EncodeText(text));
    }
    AcceptedBytes(input);
    KeptPoints(points, r.tail, r.limitBytes);
    EncodedTextIsValid(text);
    ComposedFits(f, kept, r.tail, r.limitBytes, EncodeText(text));
    BodyBytes(points, f, kept, r.tail, r.limitBytes);
    if !missing && r.state.Complete? {
      KeptAll(points, r.tail, r.limitBytes);
      BytesIsLength(points);
      NothingMissing(f, points, r.tail, r.limitBytes);
    }
    if ValidUtf8(input) {
      BytesIsLength(points);
    }
  }

  /** The body is no longer than what was retained, and in tail mode the longest suffix of everything accepted. */
  lemma BodyBytes(points: seq<seq<Byte>>, f: Fitted, kept: seq<seq<Byte>>, tail: bool, maxBytes: nat)
    requires kept == Kept(points, tail, maxBytes)
    requires f.body == Fit(kept, tail, BodyLimit(kept, f.markerBytes, maxBytes))
    ensures Bytes(f.body) <= Bytes(points)
    ensures tail ==> f.body == FitTail(points, BodyLimit(kept, f.markerBytes, maxBytes))
  {
    hide Greedy, Bytes, FitTail, FitHead, BodyLimit;
    var limit := BodyLimit(kept, f.markerBytes, maxBytes);
    if tail {
      FitTailTighter(points, maxBytes, limit);
      TailBytes(points, limit);
    } else {
      GreedyBytes(points, maxBytes);
      HeadBytes(kept, limit);
    }
  }

  lemma TailBytes(points: seq<seq<Byte>>, limit: nat)
    ensures Bytes(FitTail(points, limit)) <= Bytes(points)
  {
    hide Bytes, FitTail;
    SuffixBytes(points, |points| - |FitTail(points, limit)|);
  }

  lemma HeadBytes(points: seq<seq<Byte>>, limit: nat)
    ensures Bytes(FitHead(points, limit)) <= Bytes(points)
  {
    hide Bytes, FitHead;
    PrefixBytes(points, |FitHead(points, limit)|);
  }

  lemma SuffixBytes(points: seq<seq<Byte>>, k: nat)
    requires k <= |points|
    ensures Bytes(points[k..]) <= Bytes(points)
  {
    BytesAppend(points[..k], points[k..]);
    assert points[..k] + points[k..] == points;
  }

  lemma PrefixBytes(points: seq<seq<Byte>>, k: nat)
    requires k <= |points|
    ensures Bytes(points[..k]) <= Bytes(points)
  {
    BytesAppend(points[..k], points[k..]);
    assert points[..k] + points[k..] == points;
  }

  lemma {:induction false} GreedyBytes(points: seq<seq<Byte>>, limit: nat)
    ensures Bytes(Greedy(points, limit)) <= Bytes(points)
  {
    if points != [] {
      GreedyBytes(points[..|points| - 1], limit);
      assert points == points[..|points| - 1] + [points[|points| - 1]];
      BytesPush(points[..|points| - 1], points[|points| - 1]);
      BytesPush(Greedy(points[..|points| - 1], limit), points[|points| - 1]);
    }
  }

  /** Without a marker everything retained is the text. */
  lemma NothingMissing(f: Fitted, points: seq<seq<Byte>>, tail: bool, maxBytes: nat)
    requires FitsText(f, points, tail, maxBytes, EncodeText("")) && Bytes(points) <= maxBytes
    ensures f.body == points && Compose(f) == Flatten(points)
  {
  }

  lemma GreedyPush(points: seq<seq<Byte>>, p: seq<Byte>, limit: nat)
    ensures Greedy(points + [p], limit)
         == if Bytes(Greedy(points, limit)) + |p| <= limit then Greedy(points, limit) + [p] else Greedy(points, limit)
  {
    assert (points + [p])[..|points|] == points;
  }

  /** Head retention refuses a character only when the whole input no longer fits. */
  lemma GreedyOverflow(points: seq<seq<Byte>>, p: seq<Byte>, limit: nat)
    ensures Bytes(points) > limit || (Bytes(Greedy(points, limit)) + |p| > limit <==> Bytes(points + [p]) > limit)
    ensures Bytes(points + [p]) == Bytes(points) + |p|
  {
    GreedyIsSubsequence(points, limit);
    BytesPush(points, p);
  }

  lemma EvictStep(active: seq<seq<Byte>>, limit: nat)
    requires Bytes(active) > limit && active != []
    ensures FitTail(active, limit) == FitTail(active[1..], limit) && Bytes(active) == |active[0]| + Bytes(active[1..])
  {
  }

  lemma EvictDone(active: seq<seq<Byte>>, limit: nat)
    ensures Bytes(active) <= limit || active == [] ==> FitTail(active, limit) == active && Bytes(active) <= limit
  {
  }

  /** Something was evicted, now or before, exactly when everything accepted does not fit. */
  lemma EvictionMeans(points: seq<seq<Byte>>, p: seq<Byte>, limit: nat)
    ensures Bytes(points) > limit || Bytes(FitTail(points, limit) + [p]) > limit <==> Bytes(points + [p]) > limit
  {
    BytesPush(points, p);
  }
}
