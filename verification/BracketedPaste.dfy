/**
 The streaming scanner for DECSET 2004 (bracketed paste) in pty output.
 */
module BracketedPaste {
  import opened ControlText

  const MODE: nat := 2004

  /** Parameter bytes of a control sequence (section 5.4 of ECMA-48). */
  predicate IsParam(c: char) {
    '0' <= c <= '?'
  }

  // -------------------------------------------------------- parameters

  function Value(s: string): nat
    requires forall i | 0 <= i < |s| :: IsDigit(s[i])
  {
    if s == "" then 0 else Value(s[..|s| - 1]) * 10 + DigitValue(s[|s| - 1])
  }

  /** `s[i..j]` is a number of its own: digits up to a semicolon or the end, not preceded by a digit. */
  ghost predicate NumberAt(s: string, i: nat, j: nat) {
    && i < j <= |s| && (forall k | i <= k < j :: IsDigit(s[k]))
    && (i == 0 || !IsDigit(s[i - 1])) && (j == |s| || s[j] == ';')
  }

  ghost predicate HasNumber(s: string, value: nat) {
    exists i: nat, j: nat :: NumberAt(s, i, j) && Value(s[i..j]) == value
  }

  /** The same among the numbers that end before `n`. */
  ghost predicate NumberBefore(s: string, n: nat, value: nat) {
    exists i: nat, j: nat :: j < n && NumberAt(s, i, j) && Value(s[i..j]) == value
  }

  method HasDecParam(s: string, value: nat) returns (r: bool)
    ensures r <==> HasNumber(s, value)
  {
    var n: nat := 0;
    var digits: nat := 0;
    for i := 0 to |s|
      invariant digits <= i && (forall k | i - digits <= k < i :: IsDigit(s[k]))
      invariant digits < i ==> !IsDigit(s[i - digits - 1])
      invariant n == Value(s[i - digits..i])
      invariant !NumberBefore(s, i, value)
    {
      var c := s[i];
      NumberEnds(s, i, digits, value);
      if c == ';' {
        if digits > 0 && n == value {
          return true;
        }
        n := 0;
        digits := 0;
        continue;
      }
      if c < '0' || c > '9' {
        n := 0;
        digits := 0;
        continue;
      }
      assert s[i - digits..i + 1][..digits] == s[i - digits..i];
      n := n * 10 + (c as int - '0' as int);
      digits := digits + 1;
    }
    NumberEnds(s, |s|, digits, value);
    r := digits > 0 && n == value;
  }

  /** A number can end here only as the digits just read. */
  lemma NumberEnds(s: string, i: nat, digits: nat, value: nat)
    requires digits <= i <= |s| && (forall k | i - digits <= k < i :: IsDigit(s[k])) && (digits < i ==> !IsDigit(s[i - digits - 1]))
    ensures var here := digits > 0 && (i == |s| || s[i] == ';') && Value(s[i - digits..i]) == value;
            && (NumberBefore(s, i + 1, value) <==> NumberBefore(s, i, value) || here)
            && (i == |s| ==> (HasNumber(s, value) <==> NumberBefore(s, i, value) || here))
            && (here ==> HasNumber(s, value))
  {
    forall a: nat, b: nat | b == i && NumberAt(s, a, b) ensures a == i - digits {
    }
    if digits > 0 && (i == |s| || s[i] == ';') {
      assert NumberAt(s, i - digits, i);
    }
    forall a: nat, b: nat | b < i + 1 && NumberAt(s, a, b) ensures b < i || (b == i && a == i - digits && digits > 0) {
    }
  }

  // --------------------------------------------------------------- scan

  /** Leading parameter characters. */
  function Run(s: string): (n: nat)
    ensures n <= |s| && (forall i | 0 <= i < n :: IsParam(s[i])) && (n < |s| ==> !IsParam(s[n]))
  {
    if s == "" || !IsParam(s[0]) then 0 else 1 + Run(s[1..])
  }

  datatype Scanned = Scanned(enabled: bool, partial: string)

  ghost function Apply(enabled: bool, params: string, final: char): bool {
    if (final == 'h' || final == 'l') && HasNumber(params, MODE) then final == 'h' else enabled
  }

  /** Scan a whole text: the mode it leads to, and the unfinished sequence at its end. */
  ghost function Scan(enabled: bool, t: string): Scanned
    decreases |t|
  {
    if t == "" then Scanned(enabled, "")
    else if t[0] != ESC then Scan(enabled, t[1..])
    else if |t| <= 2 then Scanned(enabled, t)
    else if t[1] != '[' then Scan(enabled, t[1..])
    else if t[2] != '?' then Scan(enabled, t[2..])
    else
      var j := 3 + Run(t[3..]);
      if j >= |t| then Scanned(enabled, t)
      else if !IsFinal(t[j]) then Scan(enabled, t[j..])
      else Scan(Apply(enabled, t[3..j], t[j]), t[j + 1..])
  }

  datatype State = State(enabled: bool, remnant: string)

  /** One chunk: scan it after what was held back, hold back the new unfinished end unless it is too long. */
  ghost function FeedChunk(s: State, chunk: string): State {
    if chunk == "" then s
    else
      var r := Scan(s.enabled, s.remnant + chunk);
      State(r.enabled, Hold(r.partial))
  }

  lemma {:induction false} RunExtends(s: string, b: string)
    ensures Run(s) < |s| ==> Run(s + b) == Run(s)
  {
    if s != "" && IsParam(s[0]) {
      assert (s + b)[1..] == s[1..] + b;
      RunExtends(s[1..], b);
    }
  }

  /** Scanning on from the unfinished end of a text is scanning the longer text. */
  lemma {:induction false} ScanSplits(enabled: bool, x: string, b: string)
    ensures Scan(enabled, x + b) == Scan(Scan(enabled, x).enabled, Scan(enabled, x).partial + b)
    decreases |x|
  {
    hide Apply;
    if x == "" {
      assert x + b == b && "" + b == b;
    } else {
      assert (x + b)[0] == x[0] && (x + b)[1..] == x[1..] + b;
      if x[0] != ESC {
        ScanSplits(enabled, x[1..], b);
      } else if |x| > 2 {
        assert (x + b)[1] == x[1] && (x + b)[2] == x[2] && (x + b)[2..] == x[2..] + b && (x + b)[3..] == x[3..] + b;
        if x[1] != '[' {
          ScanSplits(enabled, x[1..], b);
        } else if x[2] != '?' {
          ScanSplits(enabled, x[2..], b);
        } else {
          RunExtends(x[3..], b);
          var j := 3 + Run(x[3..]);
          if j < |x| {
            assert (x + b)[j] == x[j] && (x + b)[3..j] == x[3..j];
            assert (x + b)[j..] == x[j..] + b && (x + b)[j + 1..] == x[j + 1..] + b;
            if !IsFinal(x[j]) {
              ScanSplits(enabled, x[j..], b);
            } else {
              ScanSplits(Apply(enabled, x[3..j], x[j]), x[j + 1..], b);
            }
          }
        }
      }
    }
  }

  /** Two chunks, or one: the same, whenever the unfinished end between them fits the remnant. */
  lemma FeedSplits(s: State, a: string, b: string)
    requires |Scan(s.enabled, s.remnant + a).partial| <= MAX_REMNANT
    ensures FeedChunk(FeedChunk(s, a), b) == FeedChunk(s, a + b)
  {
    hide Scan;
    if a == "" {
      assert a + b == b;
    } else if b == "" {
      assert a + b == a;
    } else {
      ScanSplits(s.enabled, s.remnant + a, b);
      assert s.remnant + a + b == s.remnant + (a + b);
    }
  }

  /** An unfinished end longer than the remnant is forgotten, whatever it is: only what was scanned before it lasts. */
  lemma LongEndIsForgotten(s: State, a: string, b: string)
    requires a != "" && |Scan(s.enabled, s.remnant + a).partial| > MAX_REMNANT
    ensures var r := Scan(s.enabled, s.remnant + a);
            && FeedChunk(s, a) == State(r.enabled, "")
            && FeedChunk(FeedChunk(s, a), b) == Held(Scan(r.enabled, b))
            && FeedChunk(s, a + b) == Held(Scan(r.enabled, r.partial + b))
  {
    hide Scan;
    var r := Scan(s.enabled, s.remnant + a);
    ScanSplits(s.enabled, s.remnant + a, b);
    assert s.remnant + a + b == s.remnant + (a + b) && "" + b == b;
    if b == "" {
      NothingToScan(r.enabled);
      assert a + b == a;
    }
  }

  /** The state a scan is left as between chunks. */
  ghost function Held(r: Scanned): State {
    State(r.enabled, Hold(r.partial))
  }

  /** Exactly when two chunks leave what one would: the unfinished end fits the remnant, or forgetting it makes no difference. */
  lemma SplitsExactly(s: State, a: string, b: string)
    requires a != ""
    ensures var r := Scan(s.enabled, s.remnant + a);
            FeedChunk(FeedChunk(s, a), b) == FeedChunk(s, a + b)
            <==> |r.partial| <= MAX_REMNANT || Held(Scan(r.enabled, b)) == Held(Scan(r.enabled, r.partial + b))
  {
    hide Scan, Held, FeedChunk;
    if |Scan(s.enabled, s.remnant + a).partial| <= MAX_REMNANT {
      FeedSplits(s, a, b);
    } else {
      LongEndIsForgotten(s, a, b);
    }
  }

  // ------------------------------------------- what a long end would do

  predicate Introduced(t: string) {
    |t| > 2 && t[0] == ESC && t[1] == '[' && t[2] == '?'
  }

  lemma ScanIntroduced(enabled: bool, t: string)
    requires Introduced(t)
    ensures var j := 3 + Run(t[3..]);
            && (j >= |t| ==> Scan(enabled, t) == Scanned(enabled, t))
            && (j < |t| && !IsFinal(t[j]) ==> Scan(enabled, t) == Scan(enabled, t[j..]))
            && (j < |t| && IsFinal(t[j]) ==> Scan(enabled, t) == Scan(Apply(enabled, t[3..j], t[j]), t[j + 1..]))
  {
    hide Run, Apply;
  }

  /** How far the scan skips where no sequence is introduced. */
  function Skips(t: string): nat {
    if |t| > 2 && t[0] == ESC && t[1] == '[' then 2 else 1
  }

  lemma ScanOther(enabled: bool, t: string)
    requires t != "" && !Introduced(t) && (t[0] != ESC || |t| > 2)
    ensures Scan(enabled, t) == Scan(enabled, t[Skips(t)..])
  {
    hide Run, Apply;
  }

  lemma {:induction false} PartialIsShorter(enabled: bool, t: string)
    ensures |Scan(enabled, t).partial| <= |t|
    decreases |t|
  {
    hide Apply;
    if t != "" {
      if t[0] != ESC {
        PartialIsShorter(enabled, t[1..]);
      } else if |t| > 2 {
        if t[1] != '[' {
          PartialIsShorter(enabled, t[1..]);
        } else if t[2] != '?' {
          PartialIsShorter(enabled, t[2..]);
        } else {
          var j := 3 + Run(t[3..]);
          if j < |t| {
            PartialIsShorter(enabled, t[j..]);
            PartialIsShorter(Apply(enabled, t[3..j], t[j]), t[j + 1..]);
          }
        }
      }
    }
  }

  /** What is left unfinished does not depend on the mode. */
  lemma {:induction false} PartialIsModeless(e: bool, f: bool, t: string)
    ensures Scan(e, t).partial == Scan(f, t).partial
    decreases |t|
  {
    if t == "" || (t[0] == ESC && |t| <= 2) {
    } else {
      hide Scan, Apply, Run;
      if !Introduced(t) {
        ScanOther(e, t);
        ScanOther(f, t);
        PartialIsModeless(e, f, t[Skips(t)..]);
      } else {
        ScanIntroduced(e, t);
        ScanIntroduced(f, t);
        var j := 3 + Run(t[3..]);
        if j < |t| {
          PartialIsModeless(e, f, t[j..]);
          PartialIsModeless(Apply(e, t[3..j], t[j]), Apply(f, t[3..j], t[j]), t[j + 1..]);
        }
      }
    }
  }

  /** What is held back is unfinished as a whole. */
  lemma {:induction false} PartialIsUnfinished(enabled: bool, t: string)
    ensures var r := Scan(enabled, t); Scan(r.enabled, r.partial) == r
    decreases |t|
  {
    hide Apply;
    if t != "" {
      if t[0] != ESC {
        PartialIsUnfinished(enabled, t[1..]);
      } else if |t| > 2 {
        if t[1] != '[' {
          PartialIsUnfinished(enabled, t[1..]);
        } else if t[2] != '?' {
          PartialIsUnfinished(enabled, t[2..]);
        } else {
          var j := 3 + Run(t[3..]);
          if j < |t| {
            PartialIsUnfinished(enabled, t[j..]);
            PartialIsUnfinished(Apply(enabled, t[3..j], t[j]), t[j + 1..]);
          }
        }
      }
    }
  }

  lemma {:induction false} ScanSkips(enabled: bool, a: string, t: string)
    requires forall i | 0 <= i < |a| :: a[i] != ESC
    ensures Scan(enabled, a + t) == Scan(enabled, t)
  {
    if a == "" {
      assert a + t == t;
    } else {
      assert (a + t)[1..] == a[1..] + t;
      ScanSkips(enabled, a[1..], t);
    }
  }

  lemma {:induction false} RunThrough(a: string, b: string)
    requires Run(a) == |a|
    ensures Run(a + b) == |a| + Run(b)
  {
    if a == "" {
      assert a + b == b;
    } else {
      assert (a + b)[1..] == a[1..] + b;
      RunThrough(a[1..], b);
    }
  }

  /** A text that is unfinished as a whole is an introducer with parameters. */
  lemma UnfinishedIs(enabled: bool, x: string)
    requires Scan(enabled, x) == Scanned(enabled, x) && |x| > 2
    ensures Introduced(x) && Run(x[3..]) == |x[3..]|
  {
    hide Apply, Scan, Run;
    PartialIsShorter(enabled, x[1..]);
    PartialIsShorter(enabled, x[2..]);
    if !Introduced(x) {
      ScanOther(enabled, x);
    } else {
      ScanIntroduced(enabled, x);
      var j := 3 + Run(x[3..]);
      if j < |x| {
        PartialIsShorter(enabled, x[j..]);
        PartialIsShorter(Apply(enabled, x[3..j], x[j]), x[j + 1..]);
      }
    }
  }

  /** What a text makes of an unfinished end in front of it: nothing, or one more sequence before the rest. */
  lemma EndMeets(enabled: bool, x: string, b: string)
    requires Scan(enabled, x) == Scanned(enabled, x) && |x| > 2
    ensures var k := Run(b);
            && (k == |b| ==> Scan(enabled, x + b) == Scanned(enabled, x + b) && Scan(enabled, b) == Scanned(enabled, ""))
            && (k < |b| && !IsFinal(b[k]) ==> Scan(enabled, x + b) == Scan(enabled, b))
            && (k < |b| && IsFinal(b[k]) ==>
                  && Scan(enabled, b) == Scan(enabled, b[k + 1..])
                  && Scan(enabled, x + b) == Scan(Apply(enabled, x[3..] + b[..k], b[k]), b[k + 1..]))
  {
    hide Apply, Run, Scan, Introduced;
    UnfinishedIs(enabled, x);
    RunSkipped(enabled, b);
    IntroducedMeets(enabled, x, b, Run(b));
  }

  lemma IntroducedMeets(enabled: bool, x: string, b: string, k: nat)
    requires Introduced(x) && Run(x[3..]) == |x[3..]| && k == Run(b)
    ensures k == |b| ==> Scan(enabled, x + b) == Scanned(enabled, x + b)
    ensures k < |b| && !IsFinal(b[k]) ==> Scan(enabled, x + b) == Scan(enabled, b[k..])
    ensures k < |b| && IsFinal(b[k]) ==> Scan(enabled, x + b) == Scan(Apply(enabled, x[3..] + b[..k], b[k]), b[k + 1..])
  {
    hide Apply, Run, Scan, IsFinal;
    EndSlices(x, b, k);
    hide Introduced;
    RunThrough(x[3..], b);
    ScanIntroduced(enabled, x + b);
  }

  lemma EndSlices(x: string, b: string, k: nat)
    requires Introduced(x) && k <= |b|
    ensures var t, j := x + b, |x| + k;
            && Introduced(t) && t[3..] == x[3..] + b && t[3..j] == x[3..] + b[..k] && t[j..] == b[k..]
            && (k < |b| ==> t[j] == b[k] && t[j + 1..] == b[k + 1..])
  {
  }

  /** Parameters without an introducer in front of them are skipped, and so is a final character. */
  lemma RunSkipped(enabled: bool, b: string)
    ensures var k := Run(b);
            && Scan(enabled, b) == Scan(enabled, b[k..]) && (k == |b| ==> Scan(enabled, b) == Scanned(enabled, ""))
            && (k < |b| && IsFinal(b[k]) ==> Scan(enabled, b) == Scan(enabled, b[k + 1..]))
  {
    hide Apply;
    var k := Run(b);
    assert b == b[..k] + b[k..];
    ScanSkips(enabled, b[..k], b[k..]);
    NothingToScan(enabled);
    if k < |b| {
      assert b[k..][1..] == b[k + 1..];
    }
  }

  /**
   Exactly when two chunks leave what one would, said of the texts: the
   unfinished end fits the remnant, or the second chunk leaves it unfinished or
   malformed, or the sequence it completes makes no difference to the mode what
   follows leads to.
   */
  lemma SplitsByText(s: State, a: string, b: string)
    requires a != ""
    ensures var r, k := Scan(s.enabled, s.remnant + a), Run(b);
            FeedChunk(FeedChunk(s, a), b) == FeedChunk(s, a + b)
            <==> || |r.partial| <= MAX_REMNANT || k == |b| || !IsFinal(b[k])
                 || Scan(Apply(r.enabled, r.partial[3..] + b[..k], b[k]), b[k + 1..]).enabled == Scan(r.enabled, b[k + 1..]).enabled
  {
    hide Scan, FeedChunk, Apply;
    var r, k := Scan(s.enabled, s.remnant + a), Run(b);
    SplitsExactly(s, a, b);
    if |r.partial| > MAX_REMNANT {
      PartialIsUnfinished(s.enabled, s.remnant + a);
      EndMeets(r.enabled, r.partial, b);
      if k < |b| && IsFinal(b[k]) {
        PartialIsModeless(r.enabled, Apply(r.enabled, r.partial[3..] + b[..k], b[k]), b[k + 1..]);
      }
    }
  }

  /** It makes a difference for the mode's number with leading zeros, say: in two chunks it is lost. */
  lemma LongPartialIsForgotten(digits: string)
    requires |digits| > MAX_REMNANT && (forall i | 0 <= i < |digits| :: IsDigit(digits[i])) && Value(digits) == MODE
    ensures var s := State(false, "");
            var a := [ESC] + "[?" + digits;
            FeedChunk(FeedChunk(s, a), "h") == s && FeedChunk(s, a + "h") == State(true, "")
  {
    hide Scan, Apply, HasNumber, Run;
    var s := State(false, "");
    var a := [ESC] + "[?" + digits;
    assert "" + a == a && "" + (a + "h") == a + "h" && "" + "h" == "h";
    ScanLong(digits);
    ScanLongDone(digits);
    assert "h"[1..] == "";
    SkipToEsc(false, "h", 0, 1);
    NothingToScan(false);
    assert "h"[0..] == "h";
  }

  lemma ScanLong(digits: string)
    requires forall i | 0 <= i < |digits| :: IsDigit(digits[i])
    ensures var a := [ESC] + "[?" + digits; Scan(false, a) == Scanned(false, a)
  {
    var a := [ESC] + "[?" + digits;
    assert a[3..] == digits;
    AllParams(digits);
  }

  lemma ScanLongDone(digits: string)
    requires (forall i | 0 <= i < |digits| :: IsDigit(digits[i])) && digits != "" && Value(digits) == MODE
    ensures Scan(false, [ESC] + "[?" + digits + "h") == Scanned(true, "")
  {
    hide Run, Apply;
    var a := [ESC] + "[?" + digits + "h";
    assert a[0..] == a && a[3..] == digits + "h" && a[3..3 + |digits|] == digits && a[3 + |digits| + 1..] == "";
    RunThenFinal(digits);
    ScanAtEsc(false, a, 0);
    assert digits[0..|digits|] == digits;
    assert NumberAt(digits, 0, |digits|);
    TheMode(digits);
    NothingToScan(true);
  }

  lemma TheMode(digits: string)
    requires HasNumber(digits, MODE)
    ensures Apply(false, digits, 'h')
  {
  }

  lemma {:induction false} AllParams(digits: string)
    requires forall i | 0 <= i < |digits| :: IsDigit(digits[i])
    ensures Run(digits) == |digits|
  {
    if digits != "" {
      AllParams(digits[1..]);
    }
  }

  lemma RunThenFinal(digits: string)
    requires forall i | 0 <= i < |digits| :: IsDigit(digits[i])
    ensures Run(digits + "h") == |digits|
  {
    var t := digits + "h";
    assert t[|digits|] == 'h';
    assert forall i | 0 <= i < |digits| :: t[i] == digits[i];
  }

  ghost function FeedAll(s: State, chunks: seq<string>): State
    decreases |chunks|
  {
    if chunks == [] then s else FeedAll(FeedChunk(s, chunks[0]), chunks[1..])
  }

  /** No unfinished end ever outgrows the remnant. */
  ghost predicate NeverOverflows(s: State, chunks: seq<string>)
    decreases |chunks|
  {
    chunks == [] || (|Scan(s.enabled, s.remnant + chunks[0]).partial| <= MAX_REMNANT && NeverOverflows(FeedChunk(s, chunks[0]), chunks[1..]))
  }

  /** Any chunking of a text leaves the state one chunk would. */
  lemma {:induction false} AnyChunking(s: State, chunks: seq<string>)
    requires NeverOverflows(s, chunks)
    ensures FeedAll(s, chunks) == FeedChunk(s, Concat(chunks))
    decreases |chunks|
  {
    hide Scan;
    if chunks != [] {
      AnyChunking(FeedChunk(s, chunks[0]), chunks[1..]);
      FeedSplits(s, chunks[0], Concat(chunks[1..]));
    }
  }

  // --------------------------------------------------------- the tracker

  class BracketedPasteModeTracker {
    var enabled: bool
    var remnant: string

    function Now(): State
      reads this
    {
      State(enabled, remnant)
    }

    constructor ()
      ensures Now() == State(false, "")
    {
      enabled, remnant := false, "";
    }

    /** One chunk leaves the state the batch scan of remnant and chunk leads to. */
    method Feed(chunk: string)
      modifies this
      ensures Now() == FeedChunk(old(Now()), chunk)
      ensures |old(remnant)| <= MAX_REMNANT ==> |remnant| <= MAX_REMNANT
    {
      hide Scan, Apply, HasNumber, Run;
      if chunk == "" {
        return;
      }
      ghost var before := Now();
      var text := if remnant != "" then remnant + chunk else chunk;
      assert text == before.remnant + chunk;
      remnant := "";
      var i := 0;
      assert text[0..] == text;
      while i < |text|
        invariant i <= |text| && remnant == ""
        invariant Scan(enabled, text[i..]) == Scan(before.enabled, text)
      {
        var esc := IndexOfEsc(text, i);
        SkipToEsc(enabled, text, i, esc);
        if esc == |text| {
          return;
        }
        ScanAtEsc(enabled, text, esc);
        if esc + 2 >= |text| {
          remnant := Hold(text[esc..]);
          return;
        }
        if text[esc + 1] != '[' || text[esc + 2] != '?' {
          assert Scan(enabled, text[(if text[esc + 1] == '[' then esc + 2 else esc + 1)..]) == Scan(enabled, text[esc..]);
          i := if text[esc + 1] == '[' then esc + 2 else esc + 1;
          continue;
        }
        var j := SkipParams(text, esc + 3);
        if j >= |text| {
          remnant := Hold(text[esc..]);
          return;
        }
        if text[j] < '@' || text[j] > '~' {
          i := j;
          continue;
        }
        Switch(text[esc + 3..j], text[j]);
        i := j + 1;
      }
      assert text[i..] == "";
      NothingToScan(enabled);
    }

    /** A complete private mode sequence. */
    method Switch(params: string, final: char)
      modifies `enabled
      ensures enabled == Apply(old(enabled), params, final)
    {
      hide HasNumber;
      if final == 'h' || final == 'l' {
        var has := HasDecParam(params, MODE);
        if has {
          enabled := final == 'h';
        }
      }
    }
  }

  lemma NothingToScan(enabled: bool)
    ensures Scan(enabled, "") == Scanned(enabled, "")
  {
  }

  method SkipParams(text: string, from: nat) returns (j: nat)
    requires from <= |text|
    ensures j == from + Run(text[from..])
  {
    j := from;
    while j < |text| && '0' <= text[j] <= '?'
      invariant from <= j <= |text| && j + Run(text[j..]) == from + Run(text[from..])
    {
      assert text[j..][1..] == text[j + 1..];
      j := j + 1;
    }
  }

  lemma {:induction false} SkipToEsc(enabled: bool, text: string, i: nat, esc: nat)
    requires i <= esc <= |text| && forall j | i <= j < esc :: text[j] != ESC
    ensures Scan(enabled, text[i..]) == Scan(enabled, text[esc..])
    ensures esc == |text| ==> Scan(enabled, text[i..]) == Scanned(enabled, "")
    decreases esc - i
  {
    if i < esc {
      assert text[i..][1..] == text[i + 1..];
      SkipToEsc(enabled, text, i + 1, esc);
    }
  }

  /** What the scan does at an escape character. */
  lemma ScanAtEsc(enabled: bool, text: string, esc: nat)
    requires esc < |text| && text[esc] == ESC
    ensures esc + 2 >= |text| ==> Scan(enabled, text[esc..]) == Scanned(enabled, text[esc..])
    ensures esc + 2 < |text| && text[esc + 1] != '[' ==> Scan(enabled, text[esc..]) == Scan(enabled, text[esc + 1..])
    ensures esc + 2 < |text| && text[esc + 1] == '[' && text[esc + 2] != '?' ==>
              Scan(enabled, text[esc..]) == Scan(enabled, text[esc + 2..])
    ensures esc + 2 < |text| && text[esc + 1] == '[' && text[esc + 2] == '?' ==>
              var j := esc + 3 + Run(text[esc + 3..]);
              Scan(enabled, text[esc..])
              == if j >= |text| then Scanned(enabled, text[esc..])
                 else if !IsFinal(text[j]) then Scan(enabled, text[j..])
                 else Scan(Apply(enabled, text[esc + 3..j], text[j]), text[j + 1..])
  {
    hide Apply;
    var t := text[esc..];
    assert t[1..] == text[esc + 1..];
    if esc + 2 < |text| {
      assert t[2..] == text[esc + 2..] && t[3..] == text[esc + 3..];
      var j := 3 + Run(t[3..]);
      if j < |t| {
        assert t[j..] == text[esc + j..] && t[j + 1..] == text[esc + j + 1..] && t[3..j] == text[esc + 3..esc + j];
      }
    }
  }
}
