/**
 The syntax-only repair of tool-call arguments: commas right before a closing
 bracket are dropped, outside string literals only.
 */
module JsonRepair {
  import opened Wrappers

  predicate IsBlank(c: char) {
    c == ' ' || c == '\t' || c == '\r' || c == '\n'
  }

  predicate Blank(s: string) {
    forall i | 0 <= i < |s| :: IsBlank(s[i])
  }

  predicate Closes(c: char) {
    c == '}' || c == ']'
  }

  /** The first character that is not white space closes a container. */
  predicate ClosesNext(s: string) {
    s != "" && (if IsBlank(s[0]) then ClosesNext(s[1..]) else Closes(s[0]))
  }

  /** Where the scan stands: outside literals, inside one, or right after a backslash in one. */
  datatype Mode = Outside | Quoted | Escaped

  function NextMode(m: Mode, c: char): Mode {
    match m
    case Outside => if c == '"' then Quoted else Outside
    case Quoted => if c == '\\' then Escaped else if c == '"' then Outside else Quoted
    case Escaped => Quoted
  }

  /** `s` without the trailing commas that lie outside literals, when the scan enters it in mode `m`. */
  function Repair(s: string, m: Mode): string {
    if s == "" then ""
    else if m == Outside && s[0] == ',' && ClosesNext(s[1..]) then Repair(s[1..], m)
    else [s[0]] + Repair(s[1..], NextMode(m, s[0]))
  }

  // ---------------------------------------------------------------- scan

  function Join(parts: seq<string>): string {
    if parts == [] then "" else Join(parts[..|parts| - 1]) + parts[|parts| - 1]
  }

  lemma JoinPush(parts: seq<string>, p: string)
    ensures Join(parts + [p]) == Join(parts) + p
  {
    assert (parts + [p])[..|parts|] == parts;
  }

  function ModeOf(quoted: bool, escaped: bool): Mode {
    if !quoted then Outside else if escaped then Escaped else Quoted
  }

  method SkipBlanks(raw: string, start: nat) returns (next: nat)
    requires start <= |raw|
    ensures start <= next <= |raw| && (ClosesNext(raw[start..]) <==> next < |raw| && Closes(raw[next]))
  {
    next := start;
    while next < |raw| && IsBlank(raw[next])
      invariant start <= next <= |raw| && ClosesNext(raw[start..]) == ClosesNext(raw[next..])
    {
      assert raw[next..][1..] == raw[next + 1..];
      next := next + 1;
    }
  }

  method WithoutTrailingCommas(raw: string) returns (r: string)
    ensures r == Repair(raw, Outside)
  {
    assert Join([]) == "";
    hide Join;
    var parts: seq<string> := [];
    var start := 0;
    var quoted, escaped := false, false;
    var index := 0;
    ghost var kept := "";
    while index < |raw|
      invariant start <= index <= |raw| && (escaped ==> quoted)
      invariant kept == Join(parts) + raw[start..index]
      invariant kept + Repair(raw[index..], ModeOf(quoted, escaped)) == Repair(raw, Outside)
      invariant parts == [] ==> start == 0
    {
      var c := raw[index];
      Advance(raw, start, index, Join(parts), kept, Repair(raw[index + 1..], NextMode(ModeOf(quoted, escaped), c)));
      ghost var goes := ModeOf(quoted, escaped) == Outside && c == ',' && ClosesNext(raw[index + 1..]);
      if quoted {
        if escaped {
          escaped := false;
        } else if c == '\\' {
          escaped := true;
        } else if c == '"' {
          quoted := false;
        }
      } else if c == '"' {
        quoted := true;
      } else if c == ',' {
        var next := SkipBlanks(raw, index + 1);
        if next < |raw| && (raw[next] == '}' || raw[next] == ']') {
          JoinPush(parts, raw[start..index]);
          parts := parts + [raw[start..index]];
          start := index + 1;
        }
      }
      kept := if goes then kept else kept + [c];
      index := index + 1;
    }
    assert raw[start..index] == raw[start..];
    if parts != [] {
      r := Join(parts) + raw[start..];
    } else {
      r := raw;
    }
  }

  lemma Advance(raw: string, start: nat, index: nat, joined: string, kept: string, tail: string)
    requires start <= index < |raw| && kept == joined + raw[start..index]
    ensures raw[index..][0] == raw[index] && raw[index..][1..] == raw[index + 1..]
    ensures joined + raw[start..index + 1] == kept + [raw[index]]
    ensures kept + ([raw[index]] + tail) == kept + [raw[index]] + tail
    ensures kept + raw[index + 1..index + 1] == kept
  {
    assert raw[start..index + 1] == raw[start..index] + [raw[index]];
  }

  // ---------------------------------------------- documents and printing

  /**
   A JSON document together with its layout. `Node` is an array or an object
   (then every entry has a key); `trailing` puts a comma after the last entry.
   */
  datatype Doc =
    | Atom(text: string)
    | Literal(body: string)
    | Node(isObject: bool, entries: seq<Entry>, trailing: bool, pad: string)

  /** One entry: white space, an optional key with its colon, the value, white space. */
  datatype Entry = Entry(before: string, key: Option<Key>, value: Doc, after: string)

  datatype Key = Key(body: string, beforeColon: string, afterColon: string)

  /** The inside of a string literal: no bare quote, no dangling backslash. */
  predicate LiteralBody(s: string) {
    if s == "" then true
    else if s[0] == '\\' then |s| >= 2 && LiteralBody(s[2..])
    else s[0] != '"' && LiteralBody(s[1..])
  }

  predicate AtomText(s: string) {
    s != "" && forall i | 0 <= i < |s| :: s[i] != '"' && s[i] != ',' && !Closes(s[i]) && !IsBlank(s[i])
  }

  predicate WellFormed(d: Doc) {
    match d
    case Atom(text) => AtomText(text)
    case Literal(body) => LiteralBody(body)
    case Node(isObject, entries, trailing, pad) => EntriesOk(entries, isObject) && Blank(pad) && (trailing ==> entries != [])
  }

  predicate EntriesOk(entries: seq<Entry>, isObject: bool) {
    if entries == [] then true
    else
      && Blank(entries[0].before) && Blank(entries[0].after) && WellFormed(entries[0].value)
      && (entries[0].key.Some? <==> isObject)
      && (entries[0].key.Some? ==> KeyOk(entries[0].key.value))
      && EntriesOk(entries[1..], isObject)
  }

  predicate KeyOk(k: Key) {
    LiteralBody(k.body) && Blank(k.beforeColon) && Blank(k.afterColon)
  }

  function Quote(body: string): string {
    "\"" + body + "\""
  }

  function KeyText(k: Option<Key>): string {
    if k.None? then "" else Quote(k.value.body) + k.value.beforeColon + ":" + k.value.afterColon
  }

  /** The text of a document; `lenient` prints its trailing commas, otherwise they are left out. */
  function Print(d: Doc, lenient: bool): string {
    match d
    case Atom(text) => text
    case Literal(body) => Quote(body)
    case Node(isObject, entries, trailing, pad) =>
      (if isObject then "{" else "[") + PrintEntries(entries, lenient)
      + (if trailing && lenient then "," else "") + pad + (if isObject then "}" else "]")
  }

  function PrintEntry(e: Entry, lenient: bool): string {
    e.before + KeyText(e.key) + Print(e.value, lenient) + e.after
  }

  function PrintEntries(entries: seq<Entry>, lenient: bool): string {
    if entries == [] then ""
    else PrintEntry(entries[0], lenient) + (if |entries| == 1 then "" else "," + PrintEntries(entries[1..], lenient))
  }

  // ------------------------------------------------ repair undoes layout

  /** Whatever follows, repairing `a` outside literals yields `b`. */
  ghost predicate Becomes(a: string, b: string) {
    forall rest: string :: Repair(a + rest, Outside) == b + Repair(rest, Outside)
  }

  lemma BecomesConcat(a: string, b: string, c: string, d: string)
    requires Becomes(a, b) && Becomes(c, d)
    ensures Becomes(a + c, b + d)
  {
    forall rest: string ensures Repair(a + c + rest, Outside) == b + d + Repair(rest, Outside) {
      assert a + c + rest == a + (c + rest);
      assert b + d + Repair(rest, Outside) == b + (d + Repair(rest, Outside));
    }
  }

  lemma BecomesNothing()
    ensures Becomes("", "")
  {
    forall rest: string ensures Repair("" + rest, Outside) == "" + Repair(rest, Outside) {
      assert "" + rest == rest;
    }
  }

  predicate IsPlain(s: string) {
    forall i | 0 <= i < |s| :: s[i] != '"' && s[i] != ','
  }

  lemma {:induction false} PlainRepair(s: string, rest: string)
    requires IsPlain(s)
    ensures Repair(s + rest, Outside) == s + Repair(rest, Outside)
  {
    if s == "" {
      assert s + rest == rest;
    } else {
      PlainRepair(s[1..], rest);
      assert (s + rest)[0] == s[0] && (s + rest)[1..] == s[1..] + rest;
      assert s == [s[0]] + s[1..];
    }
  }

  lemma PlainStays(s: string)
    requires IsPlain(s)
    ensures Becomes(s, s)
  {
    hide Repair, IsPlain;
    forall rest: string ensures Repair(s + rest, Outside) == s + Repair(rest, Outside) {
      PlainRepair(s, rest);
    }
  }

  lemma {:induction false} LiteralStays(body: string, rest: string)
    requires LiteralBody(body)
    ensures Repair(body + "\"" + rest, Quoted) == body + "\"" + Repair(rest, Outside)
  {
    var s := body + "\"" + rest;
    if body == "" {
      assert s == ['"'] + rest && s[1..] == rest;
    } else if body[0] == '\\' {
      assert s[2..] == body[2..] + "\"" + rest;
      assert s[1..][1..] == s[2..];
      assert s[0] == '\\' && s[1] == body[1] && s[1..][0] == body[1];
      LiteralStays(body[2..], rest);
      assert body == [body[0]] + ([body[1]] + body[2..]);
    } else {
      assert s[1..] == body[1..] + "\"" + rest;
      LiteralStays(body[1..], rest);
      assert body == [body[0]] + body[1..];
    }
  }

  lemma QuoteStays(body: string)
    requires LiteralBody(body)
    ensures Becomes(Quote(body), Quote(body))
  {
    forall rest: string ensures Repair(Quote(body) + rest, Outside) == Quote(body) + Repair(rest, Outside) {
      LiteralStays(body, rest);
      assert (Quote(body) + rest)[1..] == body + "\"" + rest;
    }
  }

  lemma {:induction false} BlanksDoNotClose(pad: string, s: string)
    requires Blank(pad)
    ensures ClosesNext(pad + s) == ClosesNext(s)
  {
    if pad == "" {
      assert pad + s == s;
    } else {
      assert (pad + s)[1..] == pad[1..] + s;
      BlanksDoNotClose(pad[1..], s);
    }
  }

  /** The comma before a closing bracket goes. */
  lemma TrailingCommaGoes(pad: string, close: char)
    requires Blank(pad) && Closes(close)
    ensures Becomes("," + pad + [close], pad + [close])
  {
    var tail := pad + [close];
    forall rest: string ensures Repair("," + pad + [close] + rest, Outside) == tail + Repair(rest, Outside) {
      assert "," + pad + [close] + rest == "," + (tail + rest);
      assert ("," + (tail + rest))[1..] == tail + rest;
      assert tail + rest == pad + ([close] + rest);
      BlanksDoNotClose(pad, [close] + rest);
      PlainRepair(tail, rest);
    }
  }

  /** A text that does not open with white space and then a closing bracket, whatever follows. */
  ghost predicate Opens(a: string) {
    forall rest: string :: !ClosesNext(a + rest)
  }

  /** A separating comma stays. */
  lemma SeparatorStays(a: string, b: string)
    requires Becomes(a, b) && Opens(a)
    ensures Becomes("," + a, "," + b)
  {
    forall rest: string ensures Repair("," + a + rest, Outside) == "," + b + Repair(rest, Outside) {
      assert "," + a + rest == "," + (a + rest);
      assert ("," + (a + rest))[1..] == a + rest;
      assert "," + b + Repair(rest, Outside) == "," + (b + Repair(rest, Outside));
    }
  }

  lemma StartOpens(a: string, lead: string, c: char, tail: string)
    requires a == lead + [c] + tail && Blank(lead) && !IsBlank(c) && !Closes(c)
    ensures Opens(a)
  {
    forall rest: string ensures !ClosesNext(a + rest) {
      assert a + rest == lead + ([c] + (tail + rest));
      BlanksDoNotClose(lead, [c] + (tail + rest));
    }
  }

  /** A value starts with a character that neither is white space nor closes. */
  lemma ValueStarts(d: Doc, lenient: bool)
    requires WellFormed(d)
    ensures Print(d, lenient) != "" && !IsBlank(Print(d, lenient)[0]) && !Closes(Print(d, lenient)[0])
  {
  }

  lemma FirstOf(before: string, body: string, after: string, more: string)
    requires body != ""
    ensures before + body + after + more == before + [body[0]] + (body[1..] + after + more)
  {
    assert body == [body[0]] + body[1..];
  }

  lemma EntryOpens(e: Entry, isObject: bool, lenient: bool, more: string)
    requires EntriesOk([e], isObject)
    ensures Opens(PrintEntry(e, lenient) + more)
  {
    hide Opens, WellFormed, LiteralBody, Blank;
    var value := Print(e.value, lenient);
    ValueStarts(e.value, lenient);
    hide Print;
    var body := KeyText(e.key) + value;
    FirstOf(e.before, body, e.after, more);
    StartOpens(PrintEntry(e, lenient) + more, e.before, body[0], body[1..] + e.after + more);
  }

  lemma KeyStays(k: Option<Key>)
    requires k.Some? ==> KeyOk(k.value)
    ensures Becomes(KeyText(k), KeyText(k))
  {
    hide Repair, Becomes, LiteralBody, Quote;
    if k.None? {
      BecomesNothing();
    } else {
      QuoteStays(k.value.body);
      var tail := k.value.beforeColon + ":" + k.value.afterColon;
      PlainStays(tail);
      BecomesConcat(Quote(k.value.body), Quote(k.value.body), tail, tail);
      assert KeyText(k) == Quote(k.value.body) + tail;
    }
  }

  /** Repairing the lenient text of a document gives its strict text. */
  lemma {:induction false} RepairUndoesDoc(d: Doc)
    requires WellFormed(d)
    ensures Becomes(Print(d, true), Print(d, false))
    decreases d
  {
    hide Repair, Becomes;
    match d
    case Atom(text) => PlainStays(text);
    case Literal(body) => QuoteStays(body);
    case Node(isObject, entries, trailing, pad) =>
      RepairUndoesEntries(entries, isObject);
      RepairUndoesNode(if isObject then "{" else "[", PrintEntries(entries, true), PrintEntries(entries, false), trailing, pad,
                       if isObject then '}' else ']');
  }

  lemma RepairUndoesNode(open: string, inner: string, strict: string, trailing: bool, pad: string, close: char)
    requires Becomes(inner, strict) && IsPlain(open) && Blank(pad) && Closes(close)
    ensures Becomes(open + inner + (if trailing then "," else "") + pad + [close], open + strict + "" + pad + [close])
  {
    hide Repair, Becomes;
    PlainStays(open);
    BecomesConcat(open, open, inner, strict);
    assert open + strict + "" + pad + [close] == open + strict + (pad + [close]);
    if trailing {
      TrailingCommaGoes(pad, close);
      BecomesConcat(open + inner, open + strict, "," + pad + [close], pad + [close]);
      assert open + inner + "," + pad + [close] == open + inner + ("," + pad + [close]);
    } else {
      PlainStays(pad + [close]);
      BecomesConcat(open + inner, open + strict, pad + [close], pad + [close]);
      assert open + inner + "" + pad + [close] == open + inner + (pad + [close]);
    }
  }

  lemma {:induction false} RepairUndoesEntry(e: Entry, isObject: bool)
    requires EntriesOk([e], isObject)
    ensures Becomes(PrintEntry(e, true), PrintEntry(e, false))
    decreases e
  {
    hide Repair, Becomes, KeyText, Print;
    PlainStays(e.before);
    KeyStays(e.key);
    BecomesConcat(e.before, e.before, KeyText(e.key), KeyText(e.key));
    RepairUndoesDoc(e.value);
    BecomesConcat(e.before + KeyText(e.key), e.before + KeyText(e.key), Print(e.value, true), Print(e.value, false));
    PlainStays(e.after);
    BecomesConcat(e.before + KeyText(e.key) + Print(e.value, true), e.before + KeyText(e.key) + Print(e.value, false), e.after, e.after);
  }

  lemma {:induction false} RepairUndoesEntries(entries: seq<Entry>, isObject: bool)
    requires EntriesOk(entries, isObject)
    ensures Becomes(PrintEntries(entries, true), PrintEntries(entries, false))
    decreases entries
  {
    hide Repair, Becomes, PrintEntry, Opens;
    if entries == [] {
      BecomesNothing();
    } else {
      var first, strict := PrintEntry(entries[0], true), PrintEntry(entries[0], false);
      RepairUndoesEntry(entries[0], isObject);
      if |entries| == 1 {
        assert first + "" == first && strict + "" == strict;
      } else {
        var rest := entries[1..];
        RepairUndoesEntries(rest, isObject);
        var more := if |rest| == 1 then "" else "," + PrintEntries(rest[1..], true);
        EntryOpens(rest[0], isObject, true, more);
        SeparatorStays(PrintEntries(rest, true), PrintEntries(rest, false));
        BecomesConcat(first, strict, "," + PrintEntries(rest, true), "," + PrintEntries(rest, false));
      }
    }
  }

  /** The repair inverts the lenient printer, and leaves strict JSON text alone. */
  lemma RepairInvertsLenientPrinter(d: Doc)
    requires WellFormed(d)
    ensures Repair(Print(d, true), Outside) == Print(d, false)
    ensures Repair(Print(d, false), Outside) == Print(d, false)
  {
    RepairUndoesDoc(d);
    StripIsStrict(d);
    RepairUndoesDoc(Strip(d));
    assert Repair("", Outside) == "";
    assert Print(d, true) + "" == Print(d, true) && Print(d, false) + "" == Print(d, false);
    assert Repair(Print(d, true) + "", Outside) == Print(d, false) + "";
    assert Repair(Print(Strip(d), true) + "", Outside) == Print(Strip(d), false) + "";
  }

  /** The same document without trailing commas. */
  function Strip(d: Doc): Doc {
    match d
    case Node(isObject, entries, _, pad) => Node(isObject, StripEntries(entries), false, pad)
    case _ => d
  }

  function StripEntries(entries: seq<Entry>): (r: seq<Entry>)
    ensures |r| == |entries|
  {
    if entries == [] then []
    else [Entry(entries[0].before, entries[0].key, Strip(entries[0].value), entries[0].after)] + StripEntries(entries[1..])
  }

  lemma {:induction false} StripIsStrict(d: Doc)
    requires WellFormed(d)
    ensures WellFormed(Strip(d)) && Print(Strip(d), true) == Print(d, false) && Print(Strip(d), false) == Print(d, false)
    decreases d
  {
    if d.Node? {
      StripEntriesStrict(d.entries, d.isObject);
    }
  }

  lemma {:induction false} StripEntriesStrict(entries: seq<Entry>, isObject: bool)
    requires EntriesOk(entries, isObject)
    ensures EntriesOk(StripEntries(entries), isObject)
    ensures PrintEntries(StripEntries(entries), true) == PrintEntries(entries, false)
    ensures PrintEntries(StripEntries(entries), false) == PrintEntries(entries, false)
    decreases entries
  {
    if entries != [] {
      StripIsStrict(entries[0].value);
      StripEntriesStrict(entries[1..], isObject);
      assert StripEntries(entries)[1..] == StripEntries(entries[1..]);
    }
  }

  // ------------------------------------------------------ literals stay

  /** Everything the scan sees inside literals, in order, for any text, JSON or not. */
  function Literals(s: string, m: Mode): string {
    if s == "" then ""
    else (if m == Outside then "" else [s[0]]) + Literals(s[1..], NextMode(m, s[0]))
  }

  lemma {:induction false} LiteralsNeverChange(s: string, m: Mode)
    ensures Literals(Repair(s, m), m) == Literals(s, m)
  {
    if s != "" {
      if m == Outside && s[0] == ',' && ClosesNext(s[1..]) {
        LiteralsNeverChange(s[1..], m);
      } else {
        LiteralsNeverChange(s[1..], NextMode(m, s[0]));
        var tail := Repair(s[1..], NextMode(m, s[0]));
        assert ([s[0]] + tail)[1..] == tail;
      }
    }
  }

  /** Only commas go: without its commas the text is the same before and after. */
  function Commaless(s: string): string {
    if s == "" then "" else (if s[0] == ',' then "" else [s[0]]) + Commaless(s[1..])
  }

  lemma {:induction false} OnlyCommasGo(s: string, m: Mode)
    ensures Commaless(Repair(s, m)) == Commaless(s) && |Repair(s, m)| <= |s|
  {
    if s != "" {
      if m == Outside && s[0] == ',' && ClosesNext(s[1..]) {
        OnlyCommasGo(s[1..], m);
      } else {
        OnlyCommasGo(s[1..], NextMode(m, s[0]));
        var tail := Repair(s[1..], NextMode(m, s[0]));
        assert ([s[0]] + tail)[1..] == tail;
      }
    }
  }

  // ------------------------------------------------------- repairing twice

  /** After white space comes one comma, and then what closes a container. */
  predicate CommaCloses(s: string) {
    s != "" && (if IsBlank(s[0]) then CommaCloses(s[1..]) else s[0] == ',' && ClosesNext(s[1..]))
  }

  /** Outside literals, two commas with only white space between stand before a closing bracket. */
  predicate DoubleComma(s: string, m: Mode) {
    s != "" && ((m == Outside && s[0] == ',' && CommaCloses(s[1..])) || DoubleComma(s[1..], NextMode(m, s[0])))
  }

  lemma {:induction false} RepairedCloses(s: string)
    ensures ClosesNext(Repair(s, Outside)) <==> ClosesNext(s) || CommaCloses(s)
    ensures !(ClosesNext(s) && CommaCloses(s))
  {
    if s != "" {
      RepairedCloses(s[1..]);
      var tail := Repair(s[1..], NextMode(Outside, s[0]));
      assert ([s[0]] + tail)[1..] == tail;
    }
  }

  /** Repairing a second time changes nothing exactly when no container had two trailing commas. */
  lemma {:induction false} RepairTwice(s: string, m: Mode)
    ensures Repair(Repair(s, m), m) == Repair(s, m) <==> !DoubleComma(s, m)
  {
    hide ClosesNext, CommaCloses;
    if s != "" {
      RepairedCloses(s[1..]);
      if m == Outside && s[0] == ',' && ClosesNext(s[1..]) {
        RepairTwice(s[1..], m);
      } else {
        var next := NextMode(m, s[0]);
        var tail := Repair(s[1..], next);
        RepairTwice(s[1..], next);
        assert ([s[0]] + tail)[1..] == tail;
        OnlyCommasGo(tail, next);
        assert [s[0]] + Repair(tail, next) == [s[0]] + tail <==> Repair(tail, next) == tail by {
          SameTail(s[0], Repair(tail, next), tail);
        }
      }
    }
  }

  lemma SameTail(c: char, a: string, b: string)
    ensures [c] + a == [c] + b <==> a == b
  {
    assert ([c] + a)[1..] == a && ([c] + b)[1..] == b;
  }

  /** One comma per container is repaired; a second one survives, so the repair is not idempotent. */
  lemma TwoTrailingCommasAreNotRepaired()
    ensures Repair("[1,,]", Outside) == "[1,]" && Repair("[1,]", Outside) == "[1]"
  {
    assert "[1,,]"[1..] == "1,,]" && "1,,]"[1..] == ",,]" && ",,]"[1..] == ",]" && ",]"[1..] == "]" && "]"[1..] == "";
    assert "[1,]"[1..] == "1,]" && "1,]"[1..] == ",]";
    assert ClosesNext("]") && !ClosesNext(",]");
    assert Repair("]", Outside) == "]";
    assert Repair(",]", Outside) == "]";
    assert Repair(",,]", Outside) == ",]";
  }

  // -------------------------------------------------------------- decode

  datatype Raw = NotText | RawText(text: string)

  /** How arguments are read: as they are, else repaired once if that changes anything. `parse` is JSON.parse. */
  method DecodeArguments<V>(raw: Raw, allowRepair: bool, parse: string -> Option<V>) returns (parsed: Option<V>)
    ensures raw.NotText? ==> parsed == None
    ensures raw.RawText? && parse(raw.text).Some? ==> parsed == parse(raw.text)
    ensures raw.RawText? && parse(raw.text).None? ==>
              parsed == if allowRepair then parse(Repair(raw.text, Outside)) else None
    ensures forall d: Doc :: WellFormed(d) && raw == RawText(Print(d, true)) && allowRepair && parse(raw.text).None? ==>
              parsed == parse(Print(d, false))
  {
    if raw.NotText? {
      return None;
    }
    forall d: Doc | WellFormed(d) ensures Repair(Print(d, true), Outside) == Print(d, false) {
      RepairInvertsLenientPrinter(d);
    }
    parsed := parse(raw.text);
    if parsed.None? && allowRepair {
      var repaired := WithoutTrailingCommas(raw.text);
      if repaired != raw.text {
        parsed := parse(repaired);
      }
    }
  }
}
