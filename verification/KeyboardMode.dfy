/**
 The streaming scanner that follows a pty child's keyboard modes: control
 sequences may be cut anywhere between two chunks.
 */
module KeyboardMode {
  import opened ControlText
  import opened Wrappers

  const MAX_KITTY_STACK := 8

  /** The modes the child asked for. */
  datatype Modes = Modes(modifyOtherKeys: nat, kittyStack: seq<nat>, applicationCursor: bool)

  datatype Csi = Csi(mark: Option<char>, params: seq<nat>, final: char, length: nat)

  /** A parse of what follows the introducer; `length` counts its characters. */
  datatype Parsed = Incomplete | Malformed | Sequence(csi: Csi)

  predicate IsMark(c: char) {
    c == '?' || c == '>' || c == '<' || c == '='
  }

  predicate IsParam(c: char) {
    IsDigit(c) || c == ';'
  }

  // ------------------------------------------------------ specification

  /** Leading parameter characters. */
  function ParamRun(s: string): (n: nat)
    ensures n <= |s| && (forall i | 0 <= i < n :: IsParam(s[i])) && (n < |s| ==> !IsParam(s[n]))
  {
    if s == "" || !IsParam(s[0]) then 0 else 1 + ParamRun(s[1..])
  }

  /** The values of the fields a parameter string separates by semicolons; an empty field counts as 0. */
  function Fields(s: string): (r: seq<nat>)
    requires forall i | 0 <= i < |s| :: IsParam(s[i])
    ensures r != []
  {
    if s == "" then [0]
    else
      var before, c := Fields(s[..|s| - 1]), s[|s| - 1];
      if c == ';' then before + [0]
      else before[|before| - 1 := before[|before| - 1] * 10 + DigitValue(c)]
  }

  function Params(s: string): seq<nat>
    requires forall i | 0 <= i < |s| :: IsParam(s[i])
  {
    if s == "" then [] else Fields(s)
  }

  function MarkLength(s: string): nat {
    if s != "" && IsMark(s[0]) then 1 else 0
  }

  function Parse(s: string): Parsed {
    var mark := MarkLength(s);
    var run := ParamRun(s[mark..]);
    if mark + run >= |s| then Incomplete
    else if !IsFinal(s[mark + run]) then Malformed
    else Sequence(Csi(if mark == 1 then Some(s[0]) else None, Params(s[mark..mark + run]), s[mark + run], mark + run + 1))
  }

  function ParamAt(params: seq<nat>, i: nat): nat {
    if i < |params| then params[i] else 0
  }

  function Push(stack: seq<nat>, flags: nat): seq<nat> {
    var pushed := stack + [flags];
    if |pushed| > MAX_KITTY_STACK then pushed[1..] else pushed
  }

  /** What one control sequence does to the modes. */
  function Apply(m: Modes, c: Csi): Modes {
    if c.mark == Some('?') && (c.final == 'h' || c.final == 'l') && 1 in c.params then m.(applicationCursor := c.final == 'h')
    else if c.mark == Some('>') && c.final == 'm' && |c.params| >= 2 && c.params[0] == 4 then
      m.(modifyOtherKeys := if c.params[1] == 1 || c.params[1] == 2 then c.params[1] else 0)
    else if c.final != 'u' then m
    else if c.mark == Some('>') then m.(kittyStack := Push(m.kittyStack, if c.params == [] then 1 else c.params[0]))
    else if c.mark == Some('<') then m.(kittyStack := if m.kittyStack == [] then [] else m.kittyStack[..|m.kittyStack| - 1])
    else if c.mark == Some('=') then m.(kittyStack := if ParamAt(c.params, 0) == 0 then [] else [c.params[0]])
    else m
  }

  datatype Scanned = Scanned(modes: Modes, partial: string)

  /** Scan a whole text: the modes it leads to, and the unfinished sequence at its end. */
  function Scan(m: Modes, t: string): Scanned
    decreases |t|
  {
    if t == "" then Scanned(m, "")
    else if t[0] != ESC then Scan(m, t[1..])
    else if |t| <= 2 then Scanned(m, t)
    else if t[1] != '[' then Scan(m, t[1..])
    else match Parse(t[2..])
      case Incomplete => Scanned(m, t)
      case Malformed => Scan(m, t[2..])
      case Sequence(c) => Scan(Apply(m, c), t[2 + c.length..])
  }

  datatype State = State(modes: Modes, remnant: string)

  /** One chunk: scan it after what was held back, hold back the new unfinished end unless it is too long. */
  function FeedChunk(s: State, chunk: string): State {
    if chunk == "" then s
    else
      var r := Scan(s.modes, s.remnant + chunk);
      State(r.modes, Hold(r.partial))
  }

  // ------------------------------------------------- streaming is batch

  lemma {:induction false} RunExtends(s: string, b: string)
    ensures ParamRun(s) < |s| ==> ParamRun(s + b) == ParamRun(s)
    ensures ParamRun(s + b) >= ParamRun(s)
  {
    if s != "" && IsParam(s[0]) {
      assert (s + b)[1..] == s[1..] + b;
      RunExtends(s[1..], b);
    }
  }

  /** A finished parse does not change when more text follows. */
  lemma ParseExtends(s: string, b: string)
    requires s != "" && !Parse(s).Incomplete?
    ensures Parse(s + b) == Parse(s)
  {
    var mark := MarkLength(s);
    assert (s + b)[mark..] == s[mark..] + b;
    RunExtends(s[mark..], b);
    var run := ParamRun(s[mark..]);
    assert (s + b)[mark..mark + run] == s[mark..mark + run];
  }

  /** Scanning on from the unfinished end of a text is scanning the longer text. */
  lemma {:induction false} ScanSplits(m: Modes, x: string, b: string)
    ensures Scan(m, x + b) == Scan(Scan(m, x).modes, Scan(m, x).partial + b)
    decreases |x|
  {
    hide Parse, Apply;
    if x == "" {
      assert x + b == b && "" + b == b;
    } else {
      assert (x + b)[0] == x[0] && (x + b)[1..] == x[1..] + b;
      if x[0] != ESC {
        ScanSplits(m, x[1..], b);
      } else if |x| > 2 {
        assert (x + b)[1] == x[1] && (x + b)[2..] == x[2..] + b;
        if x[1] != '[' {
          ScanSplits(m, x[1..], b);
        } else {
          if !Parse(x[2..]).Incomplete? {
            ParseExtends(x[2..], b);
          }
          match Parse(x[2..])
          case Incomplete =>
          case Malformed => ScanSplits(m, x[2..], b);
          case Sequence(c) =>
            ParsedLength(x[2..]);
            assert (x + b)[2 + c.length..] == x[2 + c.length..] + b;
            ScanSplits(Apply(m, c), x[2 + c.length..], b);
        }
      }
    }
  }

  lemma ParsedLength(s: string)
    ensures Parse(s).Sequence? ==> 1 <= Parse(s).csi.length <= |s|
  {
  }

  /** Two chunks, or one: the same, whenever the unfinished end between them fits the remnant. */
  lemma FeedSplits(s: State, a: string, b: string)
    requires |Scan(s.modes, s.remnant + a).partial| <= MAX_REMNANT
    ensures FeedChunk(FeedChunk(s, a), b) == FeedChunk(s, a + b)
  {
    hide Scan;
    if a == "" {
      assert a + b == b;
    } else if b == "" {
      assert a + b == a;
    } else {
      ScanSplits(s.modes, s.remnant + a, b);
      assert s.remnant + a + b == s.remnant + (a + b);
    }
  }

  /** An unfinished end longer than the remnant is forgotten, whatever it is: only what was scanned before it lasts. */
  lemma LongEndIsForgotten(s: State, a: string, b: string)
    requires a != "" && |Scan(s.modes, s.remnant + a).partial| > MAX_REMNANT
    ensures var r := Scan(s.modes, s.remnant + a);
            && FeedChunk(s, a) == State(r.modes, "")
            && FeedChunk(FeedChunk(s, a), b) == Held(Scan(r.modes, b))
            && FeedChunk(s, a + b) == Held(Scan(r.modes, r.partial + b))
  {
    hide Scan;
    var r := Scan(s.modes, s.remnant + a);
    ScanSplits(s.modes, s.remnant + a, b);
    assert s.remnant + a + b == s.remnant + (a + b) && "" + b == b;
    if b == "" {
      NothingToScan(r.modes);
      assert a + b == a;
    }
  }

  /** The state a scan is left as between chunks. */
  function Held(r: Scanned): State {
    State(r.modes, Hold(r.partial))
  }

  /** Exactly when two chunks leave what one would: the unfinished end fits the remnant, or forgetting it makes no difference. */
  lemma SplitsExactly(s: State, a: string, b: string)
    requires a != ""
    ensures var r := Scan(s.modes, s.remnant + a);
            FeedChunk(FeedChunk(s, a), b) == FeedChunk(s, a + b)
            <==> |r.partial| <= MAX_REMNANT || Held(Scan(r.modes, b)) == Held(Scan(r.modes, r.partial + b))
  {
    hide Scan, Held, FeedChunk;
    if |Scan(s.modes, s.remnant + a).partial| <= MAX_REMNANT {
      FeedSplits(s, a, b);
    } else {
      LongEndIsForgotten(s, a, b);
    }
  }

  // ------------------------------------------- what a long end would do

  lemma {:induction false} PartialIsShorter(m: Modes, t: string)
    ensures |Scan(m, t).partial| <= |t|
    decreases |t|
  {
    hide Parse, Apply;
    if t != "" {
      if t[0] != ESC {
        PartialIsShorter(m, t[1..]);
      } else if |t| > 2 {
        if t[1] != '[' {
          PartialIsShorter(m, t[1..]);
        } else {
          ParsedLength(t[2..]);
          match Parse(t[2..])
          case Incomplete =>
          case Malformed => PartialIsShorter(m, t[2..]);
          case Sequence(c) => PartialIsShorter(Apply(m, c), t[2 + c.length..]);
        }
      }
    }
  }

  /** What is left unfinished does not depend on the modes. */
  lemma {:induction false} PartialIsModeless(m: Modes, n: Modes, t: string)
    ensures Scan(m, t).partial == Scan(n, t).partial
    decreases |t|
  {
    hide Parse, Apply;
    if t != "" {
      if t[0] != ESC {
        PartialIsModeless(m, n, t[1..]);
      } else if |t| > 2 {
        if t[1] != '[' {
          PartialIsModeless(m, n, t[1..]);
        } else {
          ParsedLength(t[2..]);
          match Parse(t[2..])
          case Incomplete =>
          case Malformed => PartialIsModeless(m, n, t[2..]);
          case Sequence(c) => PartialIsModeless(Apply(m, c), Apply(n, c), t[2 + c.length..]);
        }
      }
    }
  }

  lemma {:induction false} ScanSkips(m: Modes, a: string, t: string)
    requires forall i | 0 <= i < |a| :: a[i] != ESC
    ensures Scan(m, a + t) == Scan(m, t)
  {
    if a == "" {
      assert a + t == t;
    } else {
      assert (a + t)[1..] == a[1..] + t;
      ScanSkips(m, a[1..], t);
    }
  }

  lemma {:induction false} RunThrough(a: string, b: string)
    requires forall i | 0 <= i < |a| :: IsParam(a[i])
    ensures ParamRun(a + b) == |a| + ParamRun(b)
  {
    if a == "" {
      assert a + b == b;
    } else {
      assert (a + b)[1..] == a[1..] + b;
      RunThrough(a[1..], b);
    }
  }

  /** A text that is unfinished as a whole is an introducer, a mark perhaps, and parameters. */
  lemma UnfinishedIs(m: Modes, x: string)
    requires Scan(m, x) == Scanned(m, x) && |x| > 2
    ensures x[0] == ESC && x[1] == '[' && Parse(x[2..]).Incomplete?
    ensures var s := x[2..];
            MarkLength(s) + ParamRun(s[MarkLength(s)..]) == |s|
  {
    hide Parse, Apply;
    PartialIsShorter(m, x[1..]);
    if x[0] == ESC && x[1] == '[' {
      ParsedLength(x[2..]);
      IncompleteIs(x[2..]);
      match Parse(x[2..])
      case Incomplete =>
      case Malformed => PartialIsShorter(m, x[2..]);
      case Sequence(c) => PartialIsShorter(Apply(m, c), x[2 + c.length..]);
    }
  }

  lemma IncompleteIs(s: string)
    ensures Parse(s).Incomplete? ==> MarkLength(s) + ParamRun(s[MarkLength(s)..]) == |s|
  {
  }

  /** How the text after an unfinished end parses: by the parameters it goes on with and the character behind them. */
  lemma GoesOn(s: string, b: string)
    requires s != "" && MarkLength(s) + ParamRun(s[MarkLength(s)..]) == |s|
    ensures var k := ParamRun(b);
            match Parse(s + b)
            case Incomplete => k == |b|
            case Malformed => k < |b| && !IsFinal(b[k])
            case Sequence(c) => k < |b| && IsFinal(b[k]) && c.length == |s| + k + 1
  {
    hide Parse, ParamRun, MarkLength;
    RunGoesOn(s, b);
    ParseShape(s + b);
    var k := ParamRun(b);
    if k < |b| {
      assert (s + b)[|s| + k] == b[k];
    }
  }

  lemma RunGoesOn(s: string, b: string)
    requires s != "" && MarkLength(s) + ParamRun(s[MarkLength(s)..]) == |s|
    ensures MarkLength(s + b) == MarkLength(s) && MarkLength(s + b) + ParamRun((s + b)[MarkLength(s + b)..]) == |s| + ParamRun(b)
  {
    hide ParamRun;
    var mark := MarkLength(s);
    assert (s + b)[mark..] == s[mark..] + b;
    RunThrough(s[mark..], b);
  }

  lemma ParseShape(t: string)
    ensures var mark, run := MarkLength(t), ParamRun(t[MarkLength(t)..]);
            match Parse(t)
            case Incomplete => mark + run >= |t|
            case Malformed => mark + run < |t| && !IsFinal(t[mark + run])
            case Sequence(c) => mark + run < |t| && IsFinal(t[mark + run]) && c.length == mark + run + 1
  {
    hide Params, IsParam;
  }

  /** What a text makes of an unfinished end in front of it: nothing, or one more sequence before the rest. */
  lemma EndMeets(m: Modes, x: string, b: string)
    requires Scan(m, x) == Scanned(m, x) && |x| > 2
    ensures var k := ParamRun(b);
            && (k == |b| ==> Scan(m, x + b) == Scanned(m, x + b) && Scan(m, b) == Scanned(m, ""))
            && (k < |b| && !IsFinal(b[k]) ==> Scan(m, x + b) == Scan(m, b))
            && (k < |b| && IsFinal(b[k]) ==>
                  && Parse(x[2..] + b).Sequence?
                  && Scan(m, b) == Scan(m, b[k + 1..])
                  && Scan(m, x + b) == Scan(Apply(m, Parse(x[2..] + b).csi), b[k + 1..]))
  {
    hide Parse, Apply, Scan, ParamRun, MarkLength;
    UnfinishedIs(m, x);
    GoesOn(x[2..], b);
    EndScans(m, x, b);
    RunSkipped(m, b);
    match Parse(x[2..] + b)
    case Incomplete =>
    case Malformed => MalformedEnd(m, x[2..], b);
    case Sequence(c) => assert (x[2..] + b)[c.length..] == b[c.length - |x[2..]|..];
  }

  /** The scan of an unfinished end with more text behind it, by how that parses. */
  lemma EndScans(m: Modes, x: string, b: string)
    requires |x| > 2 && x[0] == ESC && x[1] == '['
    ensures match Parse(x[2..] + b)
            case Incomplete => Scan(m, x + b) == Scanned(m, x + b)
            case Malformed => Scan(m, x + b) == Scan(m, x[2..] + b)
            case Sequence(c) => c.length > |x[2..] + b| || Scan(m, x + b) == Scan(Apply(m, c), (x[2..] + b)[c.length..])
  {
    hide Parse, Apply;
    var t := x + b;
    assert t[2..] == x[2..] + b && t[0] == ESC && t[1] == '[';
    ParsedLength(t[2..]);
    match Parse(t[2..])
    case Incomplete =>
    case Malformed =>
    case Sequence(c) => assert t[2 + c.length..] == t[2..][c.length..];
  }

  /** Parameters without an introducer in front of them are skipped, and so is a final character. */
  lemma RunSkipped(m: Modes, b: string)
    ensures var k := ParamRun(b);
            && Scan(m, b) == Scan(m, b[k..]) && (k == |b| ==> Scan(m, b) == Scanned(m, ""))
            && (k < |b| && IsFinal(b[k]) ==> Scan(m, b) == Scan(m, b[k + 1..]))
  {
    hide Parse, Apply;
    var k := ParamRun(b);
    assert b == b[..k] + b[k..];
    ScanSkips(m, b[..k], b[k..]);
    NothingToScan(m);
    if k < |b| {
      assert b[k..][1..] == b[k + 1..];
    }
  }

  lemma MalformedEnd(m: Modes, s: string, b: string)
    requires s != "" && MarkLength(s) + ParamRun(s[MarkLength(s)..]) == |s|
    ensures Scan(m, s + b) == Scan(m, b[ParamRun(b)..])
  {
    hide Scan;
    var k := ParamRun(b);
    assert s + b == (s + b[..k]) + b[k..];
    NoEscInside(s, b[..k]);
    ScanSkips(m, s + b[..k], b[k..]);
  }

  lemma NoEscInside(s: string, a: string)
    requires s != "" && MarkLength(s) + ParamRun(s[MarkLength(s)..]) == |s| && forall i | 0 <= i < |a| :: IsParam(a[i])
    ensures forall i | 0 <= i < |s + a| :: (s + a)[i] != ESC
  {
    var mark := MarkLength(s);
    assert forall i | mark <= i < |s| :: s[i] == s[mark..][i - mark];
  }

  /**
   Exactly when two chunks leave what one would, said of the texts: the
   unfinished end fits the remnant, or the second chunk leaves it unfinished or
   malformed, or the sequence it completes makes no difference to the modes
   what follows leads to.
   */
  lemma SplitsByText(s: State, a: string, b: string)
    requires a != ""
    ensures var r, k := Scan(s.modes, s.remnant + a), ParamRun(b);
            && (|r.partial| > MAX_REMNANT && k < |b| && IsFinal(b[k]) ==> Parse(r.partial[2..] + b).Sequence?)
            && (FeedChunk(FeedChunk(s, a), b) == FeedChunk(s, a + b)
                <==> || |r.partial| <= MAX_REMNANT || k == |b| || !IsFinal(b[k])
                     || Scan(Apply(r.modes, Parse(r.partial[2..] + b).csi), b[k + 1..]).modes == Scan(r.modes, b[k + 1..]).modes)
  {
    hide Scan, FeedChunk, Parse, Apply;
    var r, k := Scan(s.modes, s.remnant + a), ParamRun(b);
    SplitsExactly(s, a, b);
    if |r.partial| > MAX_REMNANT {
      PartialIsUnfinished(s.modes, s.remnant + a);
      EndMeets(r.modes, r.partial, b);
      if k < |b| && IsFinal(b[k]) {
        PartialIsModeless(r.modes, Apply(r.modes, Parse(r.partial[2..] + b).csi), b[k + 1..]);
      }
    }
  }

  /** The remnant is an unfinished sequence, as every feed leaves it. */
  ghost predicate ScanOf(s: State) {
    Scan(s.modes, s.remnant) == Scanned(s.modes, s.remnant)
  }

  /** What is held back is unfinished, and nothing before it is scanned twice. */
  lemma {:induction false} PartialIsUnfinished(m: Modes, t: string)
    ensures var r := Scan(m, t); Scan(r.modes, r.partial) == r
    decreases |t|
  {
    hide Parse, Apply;
    if t != "" {
      if t[0] != ESC {
        PartialIsUnfinished(m, t[1..]);
      } else if |t| > 2 {
        if t[1] != '[' {
          PartialIsUnfinished(m, t[1..]);
        } else {
          ParsedLength(t[2..]);
          match Parse(t[2..])
          case Incomplete =>
          case Malformed => PartialIsUnfinished(m, t[2..]);
          case Sequence(c) => PartialIsUnfinished(Apply(m, c), t[2 + c.length..]);
        }
      }
    }
  }

  lemma FeedKeepsScanOf(s: State, chunk: string)
    requires ScanOf(s)
    ensures ScanOf(FeedChunk(s, chunk))
  {
    hide Scan;
    if chunk != "" {
      PartialIsUnfinished(s.modes, s.remnant + chunk);
      NothingToScan(Scan(s.modes, s.remnant + chunk).modes);
    }
  }

  lemma NothingToScan(m: Modes)
    ensures Scan(m, "") == Scanned(m, "")
  {
  }

  function FeedAll(s: State, chunks: seq<string>): State
    decreases |chunks|
  {
    if chunks == [] then s else FeedAll(FeedChunk(s, chunks[0]), chunks[1..])
  }

  /** No unfinished end ever outgrows the remnant. */
  ghost predicate NeverOverflows(s: State, chunks: seq<string>)
    decreases |chunks|
  {
    chunks == [] || (|Scan(s.modes, s.remnant + chunks[0]).partial| <= MAX_REMNANT && NeverOverflows(FeedChunk(s, chunks[0]), chunks[1..]))
  }

  /** Any chunking of a text leaves the state one chunk would. */
  lemma {:induction false} AnyChunking(s: State, chunks: seq<string>)
    requires NeverOverflows(s, chunks)
    ensures FeedAll(s, chunks) == FeedChunk(s, Concat(chunks))
    decreases |chunks|
  {
    hide Scan, FeedChunk;
    if chunks == [] {
      NoChunk(s);
    } else {
      AnyChunking(FeedChunk(s, chunks[0]), chunks[1..]);
      FeedSplits(s, chunks[0], Concat(chunks[1..]));
    }
  }

  lemma NoChunk(s: State)
    ensures FeedChunk(s, "") == s
  {
  }

  /** It makes a difference for a mode sequence with leading zeros, say: in two chunks it is lost. */
  lemma LongPartialIsForgotten(m: Modes, digits: string)
    requires |digits| > MAX_REMNANT && (forall i | 0 <= i < |digits| :: IsDigit(digits[i]))
    requires Params(digits) == [1] && !m.applicationCursor
    ensures var s := State(m, "");
            var a := [ESC] + "[?" + digits;
            FeedChunk(FeedChunk(s, a), "h") == s && FeedChunk(s, a + "h").modes == m.(applicationCursor := true)
  {
    hide Params, Apply, Scan, Parse;
    var a := [ESC] + "[?" + digits;
    assert "" + a == a && "" + (a + "h") == a + "h" && "" + "h" == "h";
    ScanLong(m, digits);
    ScanLongDone(m, digits);
    ScanPlain(m);
  }

  lemma ScanLong(m: Modes, digits: string)
    requires forall i | 0 <= i < |digits| :: IsDigit(digits[i])
    ensures Scan(m, [ESC] + "[?" + digits) == Scanned(m, [ESC] + "[?" + digits)
  {
    var a := [ESC] + "[?" + digits;
    assert a[2..] == "?" + digits && ("?" + digits)[1..] == digits;
    AllDigits(digits);
  }

  lemma ScanLongDone(m: Modes, digits: string)
    requires (forall i | 0 <= i < |digits| :: IsDigit(digits[i])) && Params(digits) == [1]
    ensures Scan(m, [ESC] + "[?" + digits + "h") == Scanned(m.(applicationCursor := true), "")
  {
    hide Scan, Parse, Apply, Params;
    var a := [ESC] + "[?" + digits + "h";
    var c := Csi(Some('?'), [1], 'h', |digits| + 2);
    assert a[0..] == a && a[2..] == "?" + digits + "h" && a[2 + c.length..] == "";
    ParseLongDone(digits);
    ScanAtEsc(m, a, 0);
    ApplyCursorKeys(m, c);
    NothingToScan(Apply(m, c));
  }

  lemma ParseLongDone(digits: string)
    requires (forall i | 0 <= i < |digits| :: IsDigit(digits[i])) && Params(digits) == [1]
    ensures Parse("?" + digits + "h") == Sequence(Csi(Some('?'), [1], 'h', |digits| + 2))
  {
    hide Params;
    var t := "?" + digits + "h";
    assert t[1..] == digits + "h" && t[1..1 + |digits|] == digits;
    RunThenFinal(digits);
  }

  lemma ApplyCursorKeys(m: Modes, c: Csi)
    requires c.mark == Some('?') && c.final == 'h' && c.params == [1]
    ensures Apply(m, c) == m.(applicationCursor := true)
  {
    assert 1 in c.params;
  }

  lemma ScanPlain(m: Modes)
    ensures Scan(m, "h") == Scanned(m, "")
  {
    assert "h"[1..] == "";
  }

  lemma {:induction false} AllDigits(digits: string)
    requires forall i | 0 <= i < |digits| :: IsDigit(digits[i])
    ensures ParamRun(digits) == |digits|
  {
    if digits != "" {
      AllDigits(digits[1..]);
    }
  }

  lemma RunThenFinal(digits: string)
    requires forall i | 0 <= i < |digits| :: IsDigit(digits[i])
    ensures ParamRun(digits + "h") == |digits|
  {
    var t := digits + "h";
    assert t[|digits|] == 'h';
    assert forall i | 0 <= i < |digits| :: t[i] == digits[i];
  }

  // ------------------------------------------------------ what fields mean

  /** Fields of a parameter string are the fields of its two sides of a semicolon. */
  lemma {:induction false} FieldsSplit(a: string, b: string)
    requires (forall i | 0 <= i < |a| :: IsParam(a[i])) && (forall i | 0 <= i < |b| :: IsParam(b[i]))
    ensures Fields(a + ";" + b) == Fields(a) + Fields(b)
    decreases |b|
  {
    var s := a + ";" + b;
    if b == "" {
      assert s[..|s| - 1] == a && s[|s| - 1] == ';';
    } else {
      var front := b[..|b| - 1];
      assert s[..|s| - 1] == a + ";" + front && s[|s| - 1] == b[|b| - 1];
      FieldsSplit(a, front);
    }
  }

  // ------------------------------------------ what sequences do to the modes

  ghost predicate StackOk(m: Modes) {
    |m.kittyStack| <= MAX_KITTY_STACK && m.modifyOtherKeys <= 2
  }

  lemma {:induction false} ScanKeepsStack(m: Modes, t: string)
    requires StackOk(m)
    ensures StackOk(Scan(m, t).modes)
    decreases |t|
  {
    hide Parse;
    if t != "" {
      if t[0] != ESC {
        ScanKeepsStack(m, t[1..]);
      } else if |t| > 2 {
        if t[1] != '[' {
          ScanKeepsStack(m, t[1..]);
        } else {
          ParsedLength(t[2..]);
          match Parse(t[2..])
          case Incomplete =>
          case Malformed => ScanKeepsStack(m, t[2..]);
          case Sequence(c) => ScanKeepsStack(Apply(m, c), t[2 + c.length..]);
        }
      }
    }
  }

  /** The complete control sequences of a text, in order. */
  function Sequences(t: string): seq<Csi>
    decreases |t|
  {
    if t == "" then []
    else if t[0] != ESC then Sequences(t[1..])
    else if |t| <= 2 then []
    else if t[1] != '[' then Sequences(t[1..])
    else match Parse(t[2..])
      case Incomplete => []
      case Malformed => Sequences(t[2..])
      case Sequence(c) => [c] + Sequences(t[2 + c.length..])
  }

  function ApplyAll(m: Modes, cs: seq<Csi>): Modes
    decreases |cs|
  {
    if cs == [] then m else ApplyAll(Apply(m, cs[0]), cs[1..])
  }

  /** A text does to the modes what its sequences do, one after the other. */
  lemma {:induction false} ScanIsItsSequences(m: Modes, t: string)
    ensures Scan(m, t).modes == ApplyAll(m, Sequences(t))
    decreases |t|
  {
    hide Apply, Parse;
    if t == "" || (|t| <= 2 && t[0] == ESC) {
    } else if t[0] != ESC || t[1] != '[' {
      ScanIsItsSequences(m, t[1..]);
    } else {
      match Parse(t[2..])
      case Incomplete =>
      case Malformed => ScanIsItsSequences(m, t[2..]);
      case Sequence(c) =>
        ParsedLength(t[2..]);
        var rest := Sequences(t[2 + c.length..]);
        assert ([c] + rest)[1..] == rest;
        ScanIsItsSequences(Apply(m, c), t[2 + c.length..]);
    }
  }

  datatype Mode = CursorKeys | ModifyKeys | KittyStack

  predicate Addresses(c: Csi, mode: Mode) {
    match mode
    case CursorKeys => c.mark == Some('?') && (c.final == 'h' || c.final == 'l') && 1 in c.params
    case ModifyKeys => c.mark == Some('>') && c.final == 'm' && |c.params| >= 2 && c.params[0] == 4
    case KittyStack => c.final == 'u' && (c.mark == Some('>') || c.mark == Some('<') || c.mark == Some('='))
  }

  predicate SameMode(a: Modes, b: Modes, mode: Mode) {
    match mode
    case CursorKeys => a.applicationCursor == b.applicationCursor
    case ModifyKeys => a.modifyOtherKeys == b.modifyOtherKeys
    case KittyStack => a.kittyStack == b.kittyStack
  }

  /** Each mode follows its own sequences only: two runs that agree on those agree on the mode. */
  lemma {:induction false} ModesAreIndependent(a: Modes, b: Modes, cs: seq<Csi>, ds: seq<Csi>, mode: Mode)
    requires SameMode(a, b, mode) && Addressing(cs, mode) == Addressing(ds, mode)
    ensures SameMode(ApplyAll(a, cs), ApplyAll(b, ds), mode)
    decreases |cs| + |ds|
  {
    if cs != [] && !Addresses(cs[0], mode) {
      ModesAreIndependent(Apply(a, cs[0]), b, cs[1..], ds, mode);
    } else if ds != [] && !Addresses(ds[0], mode) {
      ModesAreIndependent(a, Apply(b, ds[0]), cs, ds[1..], mode);
    } else if cs != [] && ds != [] {
      var p, q := Addressing(cs[1..], mode), Addressing(ds[1..], mode);
      assert ([cs[0]] + p)[0] == cs[0] && ([cs[0]] + p)[1..] == p && ([ds[0]] + q)[0] == ds[0] && ([ds[0]] + q)[1..] == q;
      ModesAreIndependent(Apply(a, cs[0]), Apply(b, ds[0]), cs[1..], ds[1..], mode);
    }
  }

  /** The sequences that address a mode, in order. */
  function Addressing(cs: seq<Csi>, mode: Mode): seq<Csi> {
    if cs == [] then []
    else (if Addresses(cs[0], mode) then [cs[0]] else []) + Addressing(cs[1..], mode)
  }

  /** The last sequence that addresses the cursor keys, or the key level, decides it. */
  lemma {:induction false} LastSettingWins(m: Modes, cs: seq<Csi>, i: nat, mode: Mode)
    requires i < |cs| && Addresses(cs[i], mode) && forall j | i < j < |cs| :: !Addresses(cs[j], mode)
    ensures mode.CursorKeys? ==> ApplyAll(m, cs).applicationCursor == (cs[i].final == 'h')
    ensures mode.ModifyKeys? ==>
              var level := cs[i].params[1];
              ApplyAll(m, cs).modifyOtherKeys == if level == 1 || level == 2 then level else 0
    decreases |cs|
  {
    if i > 0 {
      LastSettingWins(Apply(m, cs[0]), cs[1..], i - 1, mode);
    } else {
      NoneAddressing(cs[1..], mode);
      ModesAreIndependent(Apply(m, cs[0]), Apply(m, cs[0]), cs[1..], [], mode);
    }
  }

  lemma {:induction false} NoneAddressing(cs: seq<Csi>, mode: Mode)
    requires forall j | 0 <= j < |cs| :: !Addresses(cs[j], mode)
    ensures Addressing(cs, mode) == []
  {
    if cs != [] {
      NoneAddressing(cs[1..], mode);
    }
  }

  predicate Pushes(c: Csi) {
    c.final == 'u' && c.mark == Some('>')
  }

  predicate Pops(c: Csi) {
    c.final == 'u' && c.mark == Some('<')
  }

  /** Every push is popped again and nothing below it is: `depth` pushes came before `cs`. */
  predicate Balanced(cs: seq<Csi>, depth: nat)
    decreases |cs|
  {
    if cs == [] then depth == 0
    else if Pushes(cs[0]) then Balanced(cs[1..], depth + 1)
    else if Pops(cs[0]) then depth > 0 && Balanced(cs[1..], depth - 1)
    else !Addresses(cs[0], KittyStack) && Balanced(cs[1..], depth)
  }

  /** How far the stack of a run rises above where it starts. */
  function Rise(cs: seq<Csi>): nat {
    if cs == [] then 0
    else
      var rest := Rise(cs[1..]);
      if Pushes(cs[0]) then rest + 1
      else if Pops(cs[0]) then if rest > 0 then rest - 1 else 0
      else rest
  }

  function Min(a: int, b: int): int {
    if a < b then a else b
  }

  function Max(a: int, b: int): int {
    if a < b then b else a
  }

  /**
   A child that pops what it pushed finds its stack again, less the oldest
   entries the bound of eight pushed out in between.
   */
  lemma BalancedRun(m: Modes, cs: seq<Csi>)
    requires StackOk(m) && Balanced(cs, 0)
    ensures var stack := m.kittyStack;
            && ApplyAll(m, cs).kittyStack == stack[Min(|stack|, Max(0, |stack| + Rise(cs) - MAX_KITTY_STACK))..]
            && (ApplyAll(m, cs).kittyStack == stack <==> stack == [] || |stack| + Rise(cs) <= MAX_KITTY_STACK)
  {
    var stack := m.kittyStack;
    assert stack[..|stack|] == stack && stack[0..] == stack;
    BalancedFrom(m, cs, stack, 0, 0);
  }

  predicate Sets(c: Csi) {
    c.final == 'u' && c.mark == Some('=')
  }

  lemma {:induction false} ApplyAllAppend(m: Modes, cs: seq<Csi>, ds: seq<Csi>)
    ensures ApplyAll(m, cs + ds) == ApplyAll(ApplyAll(m, cs), ds)
    ensures StackOk(m) ==> StackOk(ApplyAll(m, cs))
    decreases |cs|
  {
    if cs == [] {
      assert cs + ds == ds;
    } else {
      assert (cs + ds)[1..] == cs[1..] + ds;
      ApplyAllAppend(Apply(m, cs[0]), cs[1..], ds);
    }
  }

  /**
   Setting the flags forgets the whole stack: whatever came before, the flags
   are all there is, or nothing where they are 0, also after a child that pops
   what it pushed, unless the bound of eight pushed them out.
   */
  lemma SetForgetsTheStack(m: Modes, before: seq<Csi>, c: Csi, after: seq<Csi>)
    requires StackOk(m) && Sets(c) && Balanced(after, 0)
    ensures ApplyAll(m, before + [c] + after).kittyStack
         == if c.params == [] || c.params[0] == 0 || Rise(after) >= MAX_KITTY_STACK then [] else [c.params[0]]
  {
    hide Rise, Balanced;
    ApplyAllAppend(m, before + [c], after);
    ApplyAllAppend(m, before, [c]);
    var start := Apply(ApplyAll(m, before), c);
    assert [c][1..] == [] && ApplyAll(start, []) == start;
    BalancedRun(start, after);
  }

  lemma PushedEnd(deep: seq<nat>, lost: nat, flags: nat)
    requires lost <= |deep| && |deep| - lost <= MAX_KITTY_STACK
    ensures var gone := Max(lost, |deep| + 1 - MAX_KITTY_STACK);
            gone <= |deep| + 1 && Push(deep[lost..], flags) == (deep + [flags])[gone..]
  {
    assert deep[lost..] + [flags] == (deep + [flags])[lost..];
  }

  lemma PoppedEnd(deep: seq<nat>, lost: nat)
    requires lost <= |deep| && deep != []
    ensures var rest, kept := deep[..|deep| - 1], deep[lost..];
            (if kept == [] then [] else kept[..|kept| - 1]) == rest[Min(lost, |rest|)..]
  {
  }

  /** What one sequence does to a stack of which `lost` entries are gone. */
  lemma StackStep(m: Modes, c: Csi, deep: seq<nat>, lost: nat)
    requires lost <= |deep| && m.kittyStack == deep[lost..] && StackOk(m)
    ensures StackOk(Apply(m, c))
    ensures Pushes(c) ==>
              var flags := if c.params == [] then 1 else c.params[0];
              Apply(m, c).kittyStack == (deep + [flags])[Min(|deep| + 1, Max(lost, |deep| + 1 - MAX_KITTY_STACK))..]
    ensures Pops(c) && deep != [] ==> Apply(m, c).kittyStack == deep[..|deep| - 1][Min(lost, |deep| - 1)..]
    ensures !Addresses(c, KittyStack) ==> Apply(m, c).kittyStack == deep[lost..]
  {
    PushedEnd(deep, lost, if c.params == [] then 1 else c.params[0]);
    if deep != [] {
      PoppedEnd(deep, lost);
    }
  }

  /** How much of the stack below is gone after a run: `size` entries deep at its start, `lost` of them gone then. */
  function Gone(below: nat, lost: nat, size: nat, rise: nat): (n: nat)
    ensures n <= below
  {
    Min(below, Max(lost, size + rise - MAX_KITTY_STACK))
  }

  lemma GoneAfterPush(below: nat, lost: nat, size: nat, rise: nat)
    ensures Gone(below, Max(lost, size + 1 - MAX_KITTY_STACK), size + 1, rise) == Gone(below, lost, size, rise + 1)
  {
  }

  lemma GoneAfterPop(below: nat, lost: nat, size: nat, rise: nat)
    requires below < size && size - lost <= MAX_KITTY_STACK
    ensures Gone(below, Min(lost, size - 1), size - 1, rise) == Gone(below, lost, size, if rise > 0 then rise - 1 else 0)
  {
  }

  /** A run leaves of the stack what was below its pushes, `deep` being the stack as it were without the bound. */
  ghost predicate Leaves(m: Modes, cs: seq<Csi>, deep: seq<nat>, lost: nat, depth: nat) {
    && depth <= |deep|
    && var below := |deep| - depth;
       ApplyAll(m, cs).kittyStack == deep[..below][Gone(below, lost, |deep|, Rise(cs))..]
  }

  lemma PushLeaves(m: Modes, cs: seq<Csi>, deep: seq<nat>, lost: nat, depth: nat, flags: nat)
    requires cs != [] && Pushes(cs[0]) && depth <= |deep|
    requires Leaves(Apply(m, cs[0]), cs[1..], deep + [flags], Max(lost, |deep| + 1 - MAX_KITTY_STACK), depth + 1)
    ensures Leaves(m, cs, deep, lost, depth)
  {
    hide Apply, Gone;
    SameBelow(deep, deep + [flags], |deep| - depth);
    GoneAfterPush(|deep| - depth, lost, |deep|, Rise(cs[1..]));
  }

  lemma PopLeaves(m: Modes, cs: seq<Csi>, deep: seq<nat>, lost: nat, depth: nat)
    requires cs != [] && !Pushes(cs[0]) && Pops(cs[0]) && 0 < depth <= |deep| && lost <= |deep| && |deep| - lost <= MAX_KITTY_STACK
    requires Leaves(Apply(m, cs[0]), cs[1..], deep[..|deep| - 1], Min(lost, |deep| - 1), depth - 1)
    ensures Leaves(m, cs, deep, lost, depth)
  {
    hide Apply, Gone;
    SameBelow(deep[..|deep| - 1], deep, |deep| - depth);
    GoneAfterPop(|deep| - depth, lost, |deep|, Rise(cs[1..]));
  }

  lemma NothingLeft(m: Modes, deep: seq<nat>, lost: nat)
    requires lost <= |deep| && m.kittyStack == deep[lost..] && StackOk(m)
    ensures Leaves(m, [], deep, lost, 0)
  {
    EndIsBounded(m, deep, lost);
    assert deep[..|deep|] == deep;
  }

  /** Of the stack as it were without the bound, the oldest `lost` entries are gone. */
  lemma {:induction false} BalancedFrom(m: Modes, cs: seq<Csi>, deep: seq<nat>, lost: nat, depth: nat)
    requires lost <= |deep| && depth <= |deep| && m.kittyStack == deep[lost..] && StackOk(m) && Balanced(cs, depth)
    ensures Leaves(m, cs, deep, lost, depth)
    decreases |cs|
  {
    hide Apply, StackOk, ApplyAll, Rise, Gone;
    if cs == [] {
      NothingLeft(m, deep, lost);
    } else {
      EndIsBounded(m, deep, lost);
      StackStep(m, cs[0], deep, lost);
      var next, rest := Apply(m, cs[0]), cs[1..];
      if Pushes(cs[0]) {
        hide Leaves;
        var flags := if cs[0].params == [] then 1 else cs[0].params[0];
        BalancedFrom(next, rest, deep + [flags], Max(lost, |deep| + 1 - MAX_KITTY_STACK), depth + 1);
        PushLeaves(m, cs, deep, lost, depth, flags);
      } else if Pops(cs[0]) {
        hide Leaves;
        BalancedFrom(next, rest, deep[..|deep| - 1], Min(lost, |deep| - 1), depth - 1);
        PopLeaves(m, cs, deep, lost, depth);
      } else {
        BalancedFrom(next, rest, deep, lost, depth);
        SkipLeaves(m, cs, deep, lost, depth);
      }
    }
  }

  lemma SkipLeaves(m: Modes, cs: seq<Csi>, deep: seq<nat>, lost: nat, depth: nat)
    requires cs != [] && !Pushes(cs[0]) && !Pops(cs[0]) && Leaves(Apply(m, cs[0]), cs[1..], deep, lost, depth)
    ensures Leaves(m, cs, deep, lost, depth)
  {
    hide Apply, Gone;
  }

  lemma SameBelow(a: seq<nat>, b: seq<nat>, n: nat)
    requires a <= b && n <= |a|
    ensures a[..n] == b[..n]
  {
  }

  lemma EndIsBounded(m: Modes, deep: seq<nat>, lost: nat)
    requires lost <= |deep| && m.kittyStack == deep[lost..] && StackOk(m)
    ensures |deep| - lost <= MAX_KITTY_STACK
  {
    assert |deep[lost..]| == |deep| - lost;
  }

  /** Either way of asking for modifiers: a key level, or flags on top of the stack. */
  predicate Reporting(m: Modes) {
    m.modifyOtherKeys > 0 || TopFlags(m.kittyStack) != 0
  }

  function TopFlags(stack: seq<nat>): nat {
    if stack == [] then 0 else stack[|stack| - 1]
  }

  /**
   A program that pops what it pushed and sets no key level leaves reporting as
   its parent had it, unless it rose by eight or more over flags that were the
   only thing that asked for it.
   */
  lemma ReportingSurvives(m: Modes, cs: seq<Csi>)
    requires StackOk(m) && Balanced(cs, 0) && forall c | c in cs :: !Addresses(c, ModifyKeys)
    ensures Reporting(ApplyAll(m, cs)) == Reporting(m)
        <==> m.modifyOtherKeys > 0 || TopFlags(m.kittyStack) == 0 || Rise(cs) < MAX_KITTY_STACK
  {
    hide ApplyAll, Balanced, Rise, Addresses, Addressing;
    BalancedRun(m, cs);
    NoneAddressing(cs, ModifyKeys);
    NoneAddressing([], ModifyKeys);
    ModesAreIndependent(m, m, cs, [], ModifyKeys);
    NothingApplied(m);
  }

  lemma NothingApplied(m: Modes)
    ensures ApplyAll(m, []) == m
  {
  }

  // --------------------------------------------------------- the tracker

  /** Parse the characters from `start` on. */
  method ParseCsi(text: string, start: nat) returns (r: Parsed)
    requires start < |text|
    ensures r == Parse(text[start..])
  {
    hide ParamRun, Params;
    var begin := start;
    var mark: Option<char> := None;
    if text[begin] == '?' || text[begin] == '>' || text[begin] == '<' || text[begin] == '=' {
      mark := Some(text[begin]);
      begin := begin + 1;
    }
    var i, params := ReadParams(text, begin);
    AfterMark(text, start, begin, i);
    if i >= |text| {
      return Incomplete;
    }
    if text[i] < '@' || text[i] > '~' {
      return Malformed;
    }
    r := Sequence(Csi(mark, params, text[i], i + 1 - start));
  }

  /** The parameter characters from `begin` on, and their values. */
  method ReadParams(text: string, begin: nat) returns (i: nat, params: seq<nat>)
    requires begin <= |text|
    ensures begin <= i <= |text| && (forall k | begin <= k < i :: IsParam(text[k])) && (i < |text| ==> !IsParam(text[i]))
    ensures params == Params(text[begin..i])
  {
    hide Fields;
    i := begin;
    params := [];
    var n: nat := 0;
    var digits: nat := 0;
    var sawParam := false;
    assert text[begin..begin] == "" && params + [n] == [0];
    NoFields();
    while i < |text|
      invariant begin <= i <= |text|
      invariant forall k | begin <= k < i :: IsParam(text[k])
      invariant params + [n] == Fields(text[begin..i]) && (digits == 0 ==> n == 0)
      invariant sawParam <==> i > begin
    {
      var c := text[i];
      if c != ';' && !('0' <= c <= '9') {
        break;
      }
      FieldsNext(text, begin, i);
      sawParam := true;
      if '0' <= c <= '9' {
        assert (params + [n])[|params + [n]| - 1 := n * 10 + DigitValue(c)] == params + [n * 10 + DigitValue(c)];
        n := n * 10 + (c as int - '0' as int);
        digits := digits + 1;
      } else {
        params := params + [if digits > 0 then n else 0];
        n := 0;
        digits := 0;
      }
      i := i + 1;
    }
    if sawParam {
      params := params + [if digits > 0 then n else 0];
    }
  }

  lemma NoFields()
    ensures Fields("") == [0]
  {
  }

  lemma FieldsNext(text: string, begin: nat, i: nat)
    requires begin <= i < |text| && forall k | begin <= k <= i :: IsParam(text[k])
    ensures var before := Fields(text[begin..i]);
            Fields(text[begin..i + 1])
            == if text[i] == ';' then before + [0] else before[|before| - 1 := before[|before| - 1] * 10 + DigitValue(text[i])]
  {
    assert text[begin..i + 1][..i - begin] == text[begin..i];
  }

  lemma AfterMark(text: string, start: nat, begin: nat, i: nat)
    requires start < |text| && begin == (if IsMark(text[start]) then start + 1 else start)
    requires begin <= i <= |text| && (forall k | begin <= k < i :: IsParam(text[k])) && (i < |text| ==> !IsParam(text[i]))
    ensures var s := text[start..];
            && MarkLength(s) == begin - start && ParamRun(s[MarkLength(s)..]) == i - begin
            && s[MarkLength(s)..MarkLength(s) + (i - begin)] == text[begin..i]
            && (i < |text| ==> s[i - start] == text[i])
  {
    hide ParamRun, IsParam;
    var s := text[start..];
    assert MarkLength(s) == begin - start;
    assert s[begin - start..] == text[begin..];
    assert text[begin..][..i - begin] == text[begin..i];
    RunOf(text, begin, i);
  }

  lemma {:induction false} RunOf(text: string, begin: nat, end: nat)
    requires begin <= end <= |text| && (forall k | begin <= k < end :: IsParam(text[k]))
    requires end == |text| || !IsParam(text[end])
    ensures ParamRun(text[begin..]) == end - begin
  {
    var s := text[begin..];
    var n := ParamRun(s);
    assert n < |s| ==> !IsParam(text[begin + n]);
    assert end < |text| ==> s[end - begin] == text[end];
  }

  class PtyKeyboardModeTracker {
    var modifyOtherKeys: nat
    var kittyStack: seq<nat>
    var applicationCursor: bool
    var remnant: string

    function Now(): State
      reads this
    {
      State(Modes(modifyOtherKeys, kittyStack, applicationCursor), remnant)
    }

    ghost predicate Valid()
      reads this
    {
      StackOk(Now().modes) && ScanOf(Now()) && |remnant| <= MAX_REMNANT
    }

    constructor ()
      ensures Valid() && Now() == State(Modes(0, [], false), "")
    {
      modifyOtherKeys, kittyStack, applicationCursor, remnant := 0, [], false, "";
    }

    /** The child wants modifier-parameter sequences. */
    function ModifierReporting(): (r: bool)
      reads this
      ensures r <==> Reporting(Now().modes)
    {
      modifyOtherKeys > 0 || (kittyStack != [] && kittyStack[|kittyStack| - 1] != 0)
    }

    method ApplyCsi(c: Csi)
      modifies `modifyOtherKeys, `kittyStack, `applicationCursor
      ensures Now().modes == Apply(old(Now()).modes, c)
    {
      if c.mark == Some('?') && (c.final == 'h' || c.final == 'l') && 1 in c.params {
        applicationCursor := c.final == 'h';
        return;
      }
      if c.mark == Some('>') && c.final == 'm' && |c.params| >= 2 && c.params[0] == 4 {
        var level := c.params[1];
        modifyOtherKeys := if level == 1 || level == 2 then level else 0;
        return;
      }
      if c.final != 'u' {
        return;
      }
      if c.mark == Some('>') {
        kittyStack := kittyStack + [if c.params == [] then 1 else c.params[0]];
        if |kittyStack| > MAX_KITTY_STACK {
          kittyStack := kittyStack[1..];
        }
        return;
      }
      if c.mark == Some('<') {
        if kittyStack != [] {
          kittyStack := kittyStack[..|kittyStack| - 1];
        }
        return;
      }
      if c.mark == Some('=') {
        var flags := if c.params == [] then 0 else c.params[0];
        kittyStack := [];
        if flags != 0 {
          kittyStack := kittyStack + [flags];
        }
      }
    }

    /** One chunk leaves the state the batch scan of remnant and chunk leads to. */
    method Feed(chunk: string)
      requires Valid()
      modifies this
      ensures Valid() && Now() == FeedChunk(old(Now()), chunk)
    {
      hide Scan, Parse, Apply;
      if chunk == "" {
        return;
      }
      ghost var before := Now();
      var text := if remnant != "" then remnant + chunk else chunk;
      assert text == before.remnant + chunk;
      FeedKeepsScanOf(before, chunk);
      ScanKeepsStack(before.modes, text);
      remnant := "";
      var i := 0;
      assert text[0..] == text;
      while i < |text|
        invariant i <= |text| && remnant == ""
        invariant Scan(Now().modes, text[i..]) == Scan(before.modes, text)
      {
        var esc := IndexOfEsc(text, i);
        SkipToEsc(Now().modes, text, i, esc);
        if esc == |text| {
          return;
        }
        ScanAtEsc(Now().modes, text, esc);
        if esc + 2 >= |text| {
          remnant := Hold(text[esc..]);
          return;
        }
        if text[esc + 1] != '[' {
          i := esc + 1;
          continue;
        }
        var parsed := ParseCsi(text, esc + 2);
        ParsedLength(text[esc + 2..]);
        match parsed
        case Incomplete =>
          remnant := Hold(text[esc..]);
          return;
        case Malformed =>
          i := esc + 2;
        case Sequence(c) =>
          ApplyCsi(c);
          i := esc + 2 + c.length;
      }
      assert text[i..] == "";
      NothingToScan(Now().modes);
    }
  }

  lemma {:induction false} SkipToEsc(m: Modes, text: string, i: nat, esc: nat)
    requires i <= esc <= |text| && forall j | i <= j < esc :: text[j] != ESC
    ensures Scan(m, text[i..]) == Scan(m, text[esc..]) && (esc == |text| ==> Scan(m, text[i..]) == Scanned(m, ""))
    decreases esc - i
  {
    if i < esc {
      assert text[i..][1..] == text[i + 1..];
      SkipToEsc(m, text, i + 1, esc);
    }
  }

  /** What the scan does at an escape character. */
  lemma ScanAtEsc(m: Modes, text: string, esc: nat)
    requires esc < |text| && text[esc] == ESC
    ensures esc + 2 >= |text| ==> Scan(m, text[esc..]) == Scanned(m, text[esc..])
    ensures esc + 2 < |text| && text[esc + 1] != '[' ==> Scan(m, text[esc..]) == Scan(m, text[esc + 1..])
    ensures esc + 2 < |text| && text[esc + 1] == '[' ==>
              match Parse(text[esc + 2..])
              case Incomplete => Scan(m, text[esc..]) == Scanned(m, text[esc..])
              case Malformed => Scan(m, text[esc..]) == Scan(m, text[esc + 2..])
              case Sequence(c) => esc + 2 + c.length <= |text| && Scan(m, text[esc..]) == Scan(Apply(m, c), text[esc + 2 + c.length..])
  {
    hide Parse, Apply;
    var t := text[esc..];
    assert t[1..] == text[esc + 1..];
    if esc + 2 < |text| {
      assert t[2..] == text[esc + 2..];
      ParsedLength(t[2..]);
      if Parse(t[2..]).Sequence? {
        assert t[2 + Parse(t[2..]).csi.length..] == text[esc + 2 + Parse(t[2..]).csi.length..];
      }
    }
  }
}
