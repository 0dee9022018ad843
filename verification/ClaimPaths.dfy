/**
 Paths a subagent claims: their normal form, and when two claims overlap.
 */
module ClaimPaths {
  import opened JsText

  const MAX_PATH := 200

  datatype PathError = ControlCharacter | Empty | TooLong | NotRelative | Escapes

  datatype Normalized = Path(path: string) | Refused(error: PathError)

  predicate IsControl(c: char) {
    c as int < 32 || c as int == 127
  }

  function Collapse(s: string): (t: string)
    ensures |t| <= |s|
  {
    if s == "" then ""
    else if |s| >= 2 && s[0] == '/' && s[1] == '/' then Collapse(s[1..])
    else [s[0]] + Collapse(s[1..])
  }

  function StripTail(s: string): (t: string)
    ensures |t| <= |s| && t == s[..|t|] && (t != "" ==> t[|t| - 1] != '/')
    ensures forall i | |t| <= i < |s| :: s[i] == '/'
  {
    if s != "" && s[|s| - 1] == '/' then StripTail(s[..|s| - 1]) else s
  }

  predicate IsLetter(c: char) {
    'a' <= c <= 'z' || 'A' <= c <= 'Z'
  }

  /** A drive letter in front. */
  predicate HasDrive(s: string) {
    |s| >= 3 && IsLetter(s[0]) && s[1] == ':' && (s[2] == '/' || s[2] == '\\')
  }

  predicate Counts(segment: string) {
    segment != "" && segment != "."
  }

  function Kept(segments: seq<string>): seq<string> {
    if segments == [] then []
    else Kept(segments[..|segments| - 1]) + (if Counts(segments[|segments| - 1]) then [segments[|segments| - 1]] else [])
  }

  /** The normal form of a claimed path, or why it is refused. */
  function Normalize(raw: string): Normalized {
    if exists c :: c in raw && IsControl(c) then Refused(ControlCharacter)
    else
      var collapsed := StripTail(Collapse(Trim(raw)));
      if collapsed == "" then Refused(Empty)
      else if |collapsed| > MAX_PATH then Refused(TooLong)
      else if collapsed[0] == '/' || HasDrive(collapsed) then Refused(NotRelative)
      else
        var segments := Split(collapsed);
        if ".." in segments then Refused(Escapes)
        else if Kept(segments) == [] then Refused(Empty)
        else Path(Join(Kept(segments)))
  }

  method NormalizeClaimPath(raw: string) returns (r: Normalized)
    ensures r == Normalize(raw)
  {
    hide Collapse, StripTail, Split, Trim, Join;
    if exists c :: c in raw && ((c as int) < 32 || c as int == 127) {
      return Refused(ControlCharacter);
    }
    var collapsed := StripTail(Collapse(Trim(raw)));
    if collapsed == "" {
      return Refused(Empty);
    }
    if |collapsed| > MAX_PATH {
      return Refused(TooLong);
    }
    if collapsed[0] == '/' || (|collapsed| >= 3 && ('a' <= collapsed[0] <= 'z' || 'A' <= collapsed[0] <= 'Z')
                               && collapsed[1] == ':' && (collapsed[2] == '/' || collapsed[2] == '\\')) {
      return Refused(NotRelative);
    }
    var segments := Split(collapsed);
    var kept: seq<string> := [];
    for i := 0 to |segments|
      invariant kept == Kept(segments[..i]) && ".." !in segments[..i]
    {
      assert segments[..i + 1][..i] == segments[..i];
      if segments[i] == "" || segments[i] == "." {
        continue;
      }
      if segments[i] == ".." {
        return Refused(Escapes);
      }
      kept := kept + [segments[i]];
    }
    assert segments[..|segments|] == segments;
    if kept == [] {
      return Refused(Empty);
    }
    r := Path(Join(kept));
  }

  /** Plain segments: none is empty, "." or "..". What else is in them is not looked at, backslashes included. */
  ghost predicate ClaimSegments(segments: seq<string>) {
    segments != [] && forall i | 0 <= i < |segments| :: Counts(segments[i]) && segments[i] != ".." && NoSlash(segments[i])
  }

  ghost predicate IsClaim(path: string) {
    ClaimSegments(Split(path)) && path == Join(Split(path))
  }

  lemma {:induction false} KeptMembers(segments: seq<string>)
    ensures forall i | 0 <= i < |Kept(segments)| :: Kept(segments)[i] in segments && Counts(Kept(segments)[i])
  {
    if segments != [] {
      KeptMembers(segments[..|segments| - 1]);
    }
  }

  /** A normalized path consists of plain segments. */
  lemma NormalizedIsClaim(raw: string)
    requires Normalize(raw).Path?
    ensures IsClaim(Normalize(raw).path)
  {
    hide Trim, Collapse, StripTail, HasDrive, Join;
    var segments := Split(StripTail(Collapse(Trim(raw))));
    KeptMembers(segments);
    SplitOfJoin(Kept(segments));
  }

  // ------------------------------------------------------------- overlap

  predicate StartsWith(s: string, prefix: string) {
    |prefix| <= |s| && s[..|prefix|] == prefix
  }

  /** Two claims collide when they are equal or one lies below the other. */
  predicate PathsOverlap(a: string, b: string) {
    a == b || StartsWith(a, b + "/") || StartsWith(b, a + "/")
  }

  lemma {:induction false} JoinUnder(a: seq<string>, b: seq<string>)
    requires ClaimSegments(a) && ClaimSegments(b)
    ensures StartsWith(Join(a), Join(b) + "/") <==> |b| < |a| && b <= a
  {
    if StartsWith(Join(a), Join(b) + "/") {
      var rest := Join(a)[|Join(b)| + 1..];
      assert Join(a) == Join(b) + "/" + rest;
      SplitOfJoin(a);
      SplitUnder(b, rest);
      assert Split(Join(a)) == a;
    }
    if |b| < |a| && b <= a {
      JoinSplits(b, a[|b|..]);
      assert a == b + a[|b|..];
      assert Join(a) == (Join(b) + "/") + Join(a[|b|..]);
    }
  }

  lemma {:induction false} SplitUnder(b: seq<string>, rest: string)
    requires ClaimSegments(b)
    ensures Split(Join(b) + "/" + rest) == b + Split(rest)
  {
    hide Split, Join;
    if |b| == 1 {
      JoinOne(b[0]);
      SplitSegment(b[0], rest);
      assert b == [b[0]];
    } else {
      assert b == [b[0]] + b[1..];
      JoinMore(b[0], b[1..]);
      assert Join(b) + "/" + rest == b[0] + "/" + (Join(b[1..]) + "/" + rest);
      SplitSegment(b[0], Join(b[1..]) + "/" + rest);
      SplitUnder(b[1..], rest);
      assert b == [b[0]] + b[1..];
    }
  }

  lemma {:induction false} JoinSplits(a: seq<string>, b: seq<string>)
    requires a != [] && b != []
    ensures Join(a + b) == Join(a) + "/" + Join(b)
  {
    if |a| == 1 {
      assert (a + b)[1..] == b;
    } else {
      assert (a + b)[1..] == a[1..] + b;
      JoinSplits(a[1..], b);
      assert a[0] + "/" + (Join(a[1..]) + "/" + Join(b)) == a[0] + "/" + Join(a[1..]) + "/" + Join(b);
    }
  }

  /** On normalized paths, overlap is exactly: one list of segments is a prefix of the other. */
  lemma OverlapIsPrefix(a: string, b: string)
    requires IsClaim(a) && IsClaim(b)
    ensures PathsOverlap(a, b) <==> Split(a) <= Split(b) || Split(b) <= Split(a)
  {
    hide Join, Split, StartsWith;
    var s, t := Split(a), Split(b);
    JoinUnder(s, t);
    JoinUnder(t, s);
    if s <= t && |s| == |t| {
      assert s == t;
    }
    if t <= s && |s| == |t| {
      assert s == t;
    }
  }

  // --------------------------------------------------------- normal form

  lemma {:induction false} JoinLength(segments: seq<string>)
    ensures |Join(Kept(segments))| <= |Join(segments)|
    ensures Kept(segments) == [] ==> Join(Kept(segments)) == ""
  {
    if |segments| > 1 {
      var front, last := segments[..|segments| - 1], segments[|segments| - 1];
      JoinLength(front);
      assert segments == front + [last];
      JoinSplits(front, [last]);
      if Kept(front) != [] && Counts(last) {
        JoinSplits(Kept(front), [last]);
      } else if Counts(last) {
        assert [] + [last] == [last];
      } else {
        assert Kept(front) + [] == Kept(front);
      }
    } else if |segments| == 1 {
      assert segments[..0] == [];
      assert Kept(segments) == if Counts(segments[0]) then [] + [segments[0]] else [] + [];
    }
  }

  lemma NormalizeShrinks(raw: string)
    requires Normalize(raw).Path?
    ensures |Normalize(raw).path| <= |Trim(raw)|
  {
    hide Collapse, StripTail, HasDrive, Trim;
    var collapsed := StripTail(Collapse(Trim(raw)));
    JoinLength(Split(collapsed));
    JoinOfSplit(collapsed);
  }

  lemma {:induction false} KeptAll(segments: seq<string>)
    requires forall i | 0 <= i < |segments| :: Counts(segments[i])
    ensures Kept(segments) == segments
  {
    if segments != [] {
      KeptAll(segments[..|segments| - 1]);
      assert segments == segments[..|segments| - 1] + [segments[|segments| - 1]];
    }
  }

  /** A claim has no separator at its ends. */
  lemma {:induction false} ClaimEnds(segments: seq<string>)
    requires ClaimSegments(segments)
    ensures var p := Join(segments);
            p != "" && p[0] != '/' && p[|p| - 1] != '/' && StripTail(p) == p
  {
    if |segments| > 1 {
      ClaimEnds(segments[1..]);
      hide StripTail;
      var rest := Join(segments[1..]);
      assert Join(segments)[|Join(segments)| - 1] == rest[|rest| - 1];
      StripNothing(Join(segments));
    }
  }

  lemma StripNothing(s: string)
    requires s != "" && s[|s| - 1] != '/'
    ensures StripTail(s) == s
  {
  }

  /** A claim has no doubled separator. */
  lemma {:induction false} ClaimIsCollapsed(segments: seq<string>)
    requires ClaimSegments(segments)
    ensures Collapse(Join(segments)) == Join(segments)
  {
    hide Collapse;
    if |segments| == 1 {
      CollapsePlain(segments[0], "");
      assert segments[0] + "" == segments[0];
      CollapseNothing();
    } else {
      var rest := Join(segments[1..]);
      ClaimEnds(segments[1..]);
      ClaimIsCollapsed(segments[1..]);
      CollapsePlain(segments[0], "/" + rest);
      CollapseOne(rest);
      assert Join(segments) == segments[0] + ("/" + rest);
    }
  }

  lemma CollapseNothing()
    ensures Collapse("") == ""
  {
  }

  lemma CollapseOne(rest: string)
    requires rest != "" && rest[0] != '/'
    ensures Collapse("/" + rest) == "/" + Collapse(rest)
  {
    assert ("/" + rest)[1..] == rest;
  }

  lemma {:induction false} CollapsePlain(a: string, t: string)
    requires NoSlash(a)
    ensures Collapse(a + t) == a + Collapse(t)
  {
    if a == "" {
      assert a + t == t;
    } else {
      assert (a + t)[1..] == a[1..] + t;
      CollapsePlain(a[1..], t);
      assert [a[0]] + (a[1..] + Collapse(t)) == a + Collapse(t);
    }
  }

  ghost predicate NoControl(s: string) {
    forall i | 0 <= i < |s| :: !IsControl(s[i])
  }

  lemma {:induction false} CollapseNoControl(s: string)
    requires NoControl(s)
    ensures NoControl(Collapse(s)) && NoControl(StripTail(s))
  {
    if s != "" {
      CollapseNoControl(s[1..]);
      assert NoControl(s[..|s| - 1]);
      var t := StripTail(s);
      StripIsPrefix(s);
    }
  }

  lemma {:induction false} StripIsPrefix(s: string)
    ensures StripTail(s) == s[..|StripTail(s)|]
  {
    if s != "" && s[|s| - 1] == '/' {
      StripIsPrefix(s[..|s| - 1]);
    }
  }

  lemma {:induction false} SplitNoControl(s: string)
    requires NoControl(s)
    ensures forall i | 0 <= i < |Split(s)| :: NoControl(Split(s)[i])
  {
    if s != "" {
      SplitNoControl(s[1..]);
    }
  }

  lemma {:induction false} JoinNoControl(segments: seq<string>)
    requires forall i | 0 <= i < |segments| :: NoControl(segments[i])
    ensures NoControl(Join(segments))
  {
    if |segments| > 1 {
      JoinNoControl(segments[1..]);
    }
  }

  lemma TrimShrinks(s: string)
    ensures |Trim(s)| <= |s| && (|Trim(s)| == |s| ==> Trim(s) == s)
    ensures NoControl(s) ==> NoControl(Trim(s))
  {
    var t := TrimStart(s);
    assert TrimEnd(t) == t[..|TrimEnd(t)|];
  }

  /** The normal form is short enough and has no control character. */
  lemma NormalFormIsClean(raw: string)
    requires Normalize(raw).Path?
    ensures NoControl(Normalize(raw).path) && |Normalize(raw).path| <= MAX_PATH
  {
    hide Collapse, StripTail, HasDrive, Trim, Split, Join, IsControl;
    assert forall i | 0 <= i < |raw| :: raw[i] in raw;
    TrimShrinks(raw);
    CollapseNoControl(Trim(raw));
    CollapseNoControl(Collapse(Trim(raw)));
    var collapsed := StripTail(Collapse(Trim(raw)));
    SplitNoControl(collapsed);
    KeptMembers(Split(collapsed));
    JoinNoControl(Kept(Split(collapsed)));
    JoinLength(Split(collapsed));
    JoinOfSplit(collapsed);
  }

  // ------------------------------------------------------- drive letters

  /** The segments the normal form is made of. */
  function KeptOf(raw: string): seq<string> {
    Kept(SegmentsOf(raw))
  }

  function SegmentsOf(raw: string): seq<string> {
    Split(StripTail(Collapse(Trim(raw))))
  }

  /** A drive letter in front, seen in the segments. */
  predicate DriveFirst(segments: seq<string>) {
    && segments != []
    && var s := segments[0];
       && |s| >= 2 && IsLetter(s[0]) && s[1] == ':'
       && (if |s| == 2 then |segments| > 1 else s[2] == '\\')
  }

  lemma DriveOfJoin(segments: seq<string>)
    requires segments != [] && forall i | 0 <= i < |segments| :: NoSlash(segments[i])
    requires |segments| > 1 ==> segments[0] != ""
    ensures HasDrive(Join(segments)) <==> DriveFirst(segments)
  {
    hide HasDrive, IsLetter;
    var s := segments[0];
    if |segments| > 1 {
      DriveBeforeSlash(s, "/" + Join(segments[1..]));
      assert Join(segments) == s + ("/" + Join(segments[1..]));
    } else {
      DriveAlone(s);
    }
  }

  lemma DriveBeforeSlash(s: string, rest: string)
    requires s != "" && NoSlash(s) && rest != "" && rest[0] == '/'
    ensures HasDrive(s + rest) <==> |s| >= 2 && IsLetter(s[0]) && s[1] == ':' && (|s| == 2 || s[2] == '\\')
  {
    var p := s + rest;
    assert p[|s|] == '/' && forall i | 0 <= i < |s| :: p[i] == s[i];
  }

  lemma DriveAlone(s: string)
    requires NoSlash(s)
    ensures HasDrive(s) <==> |s| >= 3 && IsLetter(s[0]) && s[1] == ':' && s[2] == '\\'
  {
  }

  lemma {:induction false} KeptIsNoLonger(segments: seq<string>)
    ensures |Kept(segments)| <= |segments|
    ensures segments != [] && Counts(segments[0]) ==> Kept(segments) != [] && Kept(segments)[0] == segments[0]
  {
    if segments != [] {
      KeptIsNoLonger(segments[..|segments| - 1]);
    }
  }

  /**
   The drive test looks at the text with its "." segments still in it, so a
   drive letter behind one comes through: exactly when the first segment kept
   is a drive letter. The path then begins with a "." segment.
   */
  lemma DriveComesThrough(raw: string)
    requires Normalize(raw).Path?
    ensures HasDrive(Normalize(raw).path) <==> DriveFirst(KeptOf(raw))
    ensures HasDrive(Normalize(raw).path) ==> SegmentsOf(raw)[0] == "."
  {
    hide Trim, Collapse, StripTail, HasDrive, Join, Split, Kept, DriveFirst;
    var segments, kept := SegmentsOf(raw), KeptOf(raw);
    KeptMembers(segments);
    DriveOfJoin(kept);
    if DriveFirst(kept) {
      DriveNotInFront(raw);
    }
  }

  lemma DriveNotInFront(raw: string)
    requires Normalize(raw).Path? && DriveFirst(KeptOf(raw))
    ensures SegmentsOf(raw)[0] == "."
  {
    hide Trim, Collapse, StripTail, HasDrive, Kept;
    var segments := SegmentsOf(raw);
    JoinOfSplit(StripTail(Collapse(Trim(raw))));
    KeptIsNoLonger(segments);
    FirstSegment(segments);
    if Counts(segments[0]) {
      DriveOfJoin(segments);
    }
  }

  lemma FirstSegment(segments: seq<string>)
    requires segments != []
    ensures segments[0] == "" && Join(segments) != "" ==> Join(segments)[0] == '/'
  {
  }

  /** Every list of plain segments is a normal form, whatever its first one looks like: it only takes a "." in front. */
  lemma DotInFront(path: string)
    requires IsClaim(path) && NoControl(path) && |path| + 2 <= MAX_PATH && !IsSpace(path[|path| - 1])
    ensures Normalize("./" + path) == Path(path)
  {
    hide Collapse, StripTail, HasDrive, Trim, Split, Join, Kept;
    var raw, segments := "./" + path, Split(path);
    ClaimEnds(segments);
    TrimNothing(raw);
    assert raw == "." + ("/" + path) && "." + "/" + path == raw;
    CollapsePlain(".", "/" + path);
    CollapseOne(path);
    ClaimIsCollapsed(segments);
    StripNothing(raw);
    SplitSegment(".", path);
    KeptAll(segments);
    KeptWithout(".", segments);
    NotRefused(raw, path);
  }

  lemma NotRefused(raw: string, path: string)
    requires NoControl(path) && raw == "./" + path
    ensures !HasDrive(raw) && !(exists c :: c in raw && IsControl(c))
  {
    forall c | c in raw ensures !IsControl(c) {
      var i :| 0 <= i < |raw| && raw[i] == c;
      if i >= 2 {
        assert path[i - 2] == c;
      }
    }
  }

  lemma {:induction false} KeptWithout(first: string, segments: seq<string>)
    requires !Counts(first)
    ensures Kept([first] + segments) == Kept(segments)
    decreases |segments|
  {
    if segments == [] {
      assert ([first] + segments)[..0] == [];
    } else {
      var init := segments[..|segments| - 1];
      assert ([first] + segments)[..|segments|] == [first] + init;
      KeptWithout(first, init);
    }
  }

  /** It does happen: a drive path that is refused comes through behind a ".". */
  lemma DriveIsMissed()
    ensures Normalize("./C:/x") == Path("C:/x") && Normalize("C:/x") == Refused(NotRelative)
  {
    hide Collapse, StripTail, Trim, Split;
    DriveSegments();
    hide Join;
    assert "./" + "C:/x" == "./C:/x";
    DotInFront("C:/x");
    TrimNothing("C:/x");
    ClaimIsCollapsed(["C:", "x"]);
    StripNothing("C:/x");
    ClaimControls();
  }

  lemma DriveSegments()
    ensures Split("C:/x") == ["C:", "x"] && Join(["C:", "x"]) == "C:/x"
  {
    hide Split;
    assert "C:" + "/" + "x" == "C:/x";
    SplitSegment("C:", "x");
    SplitPlain("x");
    assert ["C:", "x"][1..] == ["x"];
  }

  lemma ClaimControls()
    ensures !(exists c :: c in "C:/x" && IsControl(c))
  {
  }

  // ------------------------------------------------------ a second time

  /** Normalizing again changes nothing exactly when the normal form has no white space at its edges and no drive letter in front. */
  lemma NormalizeTwice(raw: string)
    requires Normalize(raw).Path?
    ensures var p := Normalize(raw).path;
            Normalize(p) == Path(p) <==> Trim(p) == p && !HasDrive(p)
  {
    hide Collapse, StripTail, HasDrive, Trim, Split, Join;
    var p := Normalize(raw).path;
    NormalizedIsClaim(raw);
    NormalFormIsClean(raw);
    ClaimIsCollapsed(Split(p));
    ClaimEnds(Split(p));
    KeptAll(Split(p));
    TrimShrinks(p);
    if Normalize(p) == Path(p) {
      NormalizeShrinks(p);
    }
  }

  /** The first kept segment begins, or the last one ends, with white space. */
  predicate SpaceAtEdge(segments: seq<string>)
    requires segments != [] && forall i | 0 <= i < |segments| :: segments[i] != ""
  {
    var last := segments[|segments| - 1];
    IsSpace(segments[0][0]) || IsSpace(last[|last| - 1])
  }

  lemma {:induction false} JoinEdges(segments: seq<string>)
    requires segments != [] && forall i | 0 <= i < |segments| :: segments[i] != ""
    ensures var p, last := Join(segments), segments[|segments| - 1];
            p != "" && p[0] == segments[0][0] && p[|p| - 1] == last[|last| - 1]
  {
    if |segments| > 1 {
      JoinEdges(segments[1..]);
      var rest := Join(segments[1..]);
      assert Join(segments)[|Join(segments)| - 1] == rest[|rest| - 1];
    }
  }

  lemma TrimKeeps(s: string)
    requires s != ""
    ensures Trim(s) == s <==> !IsSpace(s[0]) && !IsSpace(s[|s| - 1])
  {
    hide Trim;
    if !IsSpace(s[0]) && !IsSpace(s[|s| - 1]) {
      TrimNothing(s);
    }
  }

  /** The same, said of the segments that are kept. */
  lemma NormalizeTwiceBySegments(raw: string)
    requires Normalize(raw).Path?
    ensures (forall i | 0 <= i < |KeptOf(raw)| :: KeptOf(raw)[i] != "") && KeptOf(raw) != []
    ensures var p := Normalize(raw).path;
            Normalize(p) == Path(p) <==> !SpaceAtEdge(KeptOf(raw)) && !DriveFirst(KeptOf(raw))
  {
    hide Collapse, StripTail, HasDrive, Trim, Split, Join, Kept, DriveFirst;
    KeptMembers(SegmentsOf(raw));
    NormalizeTwice(raw);
    DriveComesThrough(raw);
    JoinEdges(KeptOf(raw));
    TrimKeeps(Normalize(raw).path);
  }

  /** It does happen: a segment may begin with white space. */
  lemma NormalFormMayChange()
    ensures Normalize("./ a") == Path(" a") && Normalize(" a") != Path(" a")
  {
    hide Collapse, StripTail, Trim, Split;
    SplitPlain(" a");
    JoinOne(" a");
    hide Join;
    assert "./" + " a" == "./ a";
    DotInFront(" a");
    TrimKeeps(" a");
    NormalizeTwice("./ a");
  }
}
