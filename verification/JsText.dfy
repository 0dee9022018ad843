/** What JavaScript's string methods do to white space and to path separators. */
module JsText {

  /** White space as String.prototype.trim sees it. */
  predicate IsSpace(c: char) {
    var u := c as int;
    9 <= u <= 13 || u == 32 || u == 160 || u == 0x1680 || 0x2000 <= u <= 0x200a
    || u == 0x2028 || u == 0x2029 || u == 0x202f || u == 0x205f || u == 0x3000 || u == 0xfeff
  }

  function TrimStart(s: string): (t: string)
    ensures t == [] || !IsSpace(t[0])
    ensures |t| <= |s| && t == s[|s| - |t|..]
  {
    if s != [] && IsSpace(s[0]) then TrimStart(s[1..]) else s
  }

  function TrimEnd(s: string): (t: string)
    ensures t == [] || !IsSpace(t[|t| - 1])
    ensures |t| <= |s| && t == s[..|t|]
  {
    if s != [] && IsSpace(s[|s| - 1]) then TrimEnd(s[..|s| - 1]) else s
  }

  function Trim(s: string): (t: string)
    ensures t == [] || (!IsSpace(t[0]) && !IsSpace(t[|t| - 1]))
  {
    TrimEnd(TrimStart(s))
  }

  lemma TrimTwice(s: string)
    ensures Trim(Trim(s)) == Trim(s)
  {
  }

  lemma TrimNothing(s: string)
    requires s != "" && !IsSpace(s[0]) && !IsSpace(s[|s| - 1])
    ensures Trim(s) == s
    ensures Trim(s + " ") == s && Trim(" " + s) == s
  {
    assert (" " + s)[1..] == s;
    assert (s + " ")[..|s|] == s;
    assert TrimStart(s + " ") == s + " ";
  }

  function Split(s: string): (r: seq<string>)
    ensures r != [] && forall i | 0 <= i < |r| :: NoSlash(r[i])
  {
    if s == "" then [""]
    else
      var rest := Split(s[1..]);
      if s[0] == '/' then [""] + rest else [[s[0]] + rest[0]] + rest[1..]
  }

  function Join(segments: seq<string>): string {
    if segments == [] then "" else if |segments| == 1 then segments[0] else segments[0] + "/" + Join(segments[1..])
  }

  predicate NoSlash(s: string) {
    forall i | 0 <= i < |s| :: s[i] != '/'
  }

  lemma {:induction false} SplitSegment(a: string, s: string)
    requires NoSlash(a)
    ensures Split(a + "/" + s) == [a] + Split(s)
  {
    var t := a + "/" + s;
    if a == "" {
      assert t == "/" + s && t[1..] == s;
    } else {
      assert t[1..] == a[1..] + "/" + s;
      SplitSegment(a[1..], s);
      assert [a[0]] + a[1..] == a;
    }
  }

  lemma {:induction false} SplitPlain(a: string)
    requires NoSlash(a)
    ensures Split(a) == [a]
  {
    if a != "" {
      SplitPlain(a[1..]);
      assert [a[0]] + a[1..] == a;
    }
  }

  lemma {:induction false} SplitOfJoin(segments: seq<string>)
    requires segments != [] && forall i | 0 <= i < |segments| :: NoSlash(segments[i])
    ensures Split(Join(segments)) == segments
  {
    if |segments| == 1 {
      SplitPlain(segments[0]);
    } else {
      SplitSegment(segments[0], Join(segments[1..]));
      SplitOfJoin(segments[1..]);
    }
  }

  lemma {:induction false} JoinOfSplit(s: string)
    ensures Join(Split(s)) == s
  {
    hide Join;
    if s == "" {
      JoinOne("");
    } else {
      JoinOfSplit(s[1..]);
      var rest := Split(s[1..]);
      JoinEmptyFirst(rest);
      JoinLongerFirst(s[0], rest);
      assert s == [s[0]] + s[1..];
      assert "/" == ['/'];
    }
  }

  lemma JoinOne(a: string)
    ensures Join([a]) == a
  {
  }

  lemma JoinEmptyFirst(rest: seq<string>)
    requires rest != []
    ensures Join([""] + rest) == "/" + Join(rest)
  {
    assert ([""] + rest)[1..] == rest;
    assert "" + "/" == "/";
  }

  lemma JoinLongerFirst(c: char, rest: seq<string>)
    requires rest != []
    ensures Join([[c] + rest[0]] + rest[1..]) == [c] + Join(rest)
  {
    hide Join;
    var tail := rest[1..];
    if tail == [] {
      JoinOne([c] + rest[0]);
      JoinOne(rest[0]);
      assert rest == [rest[0]];
      assert [[c] + rest[0]] + tail == [[c] + rest[0]];
    } else {
      JoinMore([c] + rest[0], tail);
      JoinMore(rest[0], tail);
      assert rest == [rest[0]] + tail;
      assert ([c] + rest[0]) + "/" + Join(tail) == [c] + (rest[0] + "/" + Join(tail));
    }
  }

  lemma JoinMore(a: string, rest: seq<string>)
    requires rest != []
    ensures Join([a] + rest) == a + "/" + Join(rest)
  {
    assert ([a] + rest)[1..] == rest;
  }
}
