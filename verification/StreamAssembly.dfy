/**
 Assembling the content blocks of a provider stream. The reader keeps one entry
 per block index in several maps and is fed one event at a time; the
 specification groups the events by index and looks at each group alone.
 */
module StreamAssembly {
  import opened Wrappers
  import opened Utf8
  import opened JsText
  import JsonRepair

  const MAX_EVENTS := 4096
  const MAX_EVENT_BYTES := 4 * 1024 * 1024
  const MAX_INDEX := 10000
  const MAX_JSON_PARTS := 64
  const MAX_JSON_PART_BYTES := 256 * 1024
  const MAX_AGGREGATE_BYTES := 256 * 1024
  const MAX_AGGREGATE_TOTAL := 1024 * 1024
  const MAX_CITATIONS := 256
  const MAX_CITATION_BYTES := 128 * 1024

  /** How a block starts; `OtherKind` covers every further named type, `Unnamed` a start without one. */
  datatype Start =
    | StartTool(id: string, name: string, server: bool)
    | StartText(citations: seq<string>)
    | StartThinking
    | StartSearchResult(callId: string)
    | OtherKind(kind: string)
    | Unnamed

  datatype Delta =
    | TextDelta(text: string)
    | ThinkingDelta(thinking: string)
    | SignatureDelta(signature: string)
    | CitationsDelta(citation: Option<string>)
    | JsonDelta(fragment: Option<string>)
    | OtherDelta
    | MalformedDelta

  datatype Kind =
    | MessageStart
    | BlockStart(startIndex: int, start: Start)
    | BlockDelta(deltaIndex: int, delta: Delta)
    | BlockStop(stopIndex: int)
    | MessageStop
    | Ignored
    | MalformedJson

  /** One event and the size of its payload. */
  datatype Event = Event(kind: Kind, bytes: nat)

  // ------------------------------------------------- one block on its own

  datatype Progress =
    | Absent
    | Building(start: Start, open: bool, text: string, thinking: string, signature: string, json: string, citations: seq<string>)
    | Bad

  function Size(s: string): nat {
    |EncodeText(s)|
  }

  predicate StartOk(s: Start) {
    match s
    case StartTool(id, name, _) => Trim(id) != "" && Trim(name) != ""
    case Unnamed => false
    case _ => true
  }

  /** What one event does to the block it is addressed to. */
  function Advance(b: Progress, k: Kind): Progress {
    match k
    case BlockStart(_, start) =>
      if !b.Absent? || !StartOk(start) then Bad
      else Building(start, true, "", "", "", "", if start.StartText? then start.citations else [])
    case BlockDelta(_, delta) => if !b.Building? || !b.open then Bad else Extend(b, delta)
    case BlockStop(_) => if !b.Building? || !b.open then Bad else b.(open := false)
    case _ => b
  }

  function Extend(b: Progress, delta: Delta): Progress
    requires b.Building?
  {
    match delta
    case TextDelta(s) => if !b.start.StartText? || Size(b.text + s) > MAX_AGGREGATE_BYTES then Bad else b.(text := b.text + s)
    case ThinkingDelta(s) => if !b.start.StartThinking? || Size(b.thinking + s) > MAX_AGGREGATE_BYTES then Bad else b.(thinking := b.thinking + s)
    case SignatureDelta(s) => if !b.start.StartThinking? || Size(b.signature + s) > MAX_AGGREGATE_BYTES then Bad else b.(signature := b.signature + s)
    case CitationsDelta(c) => if !b.start.StartText? then Bad else if c.Some? then b.(citations := b.citations + [c.value]) else b
    case JsonDelta(f) =>
      if !b.start.StartTool? || f.None? || Size(b.json + f.value) > MAX_JSON_PART_BYTES then Bad else b.(json := b.json + f.value)
    case OtherDelta => b
    case MalformedDelta => Bad
  }

  function Address(k: Kind): Option<int> {
    match k
    case BlockStart(i, _) => Some(i)
    case BlockDelta(i, _) => Some(i)
    case BlockStop(i) => Some(i)
    case _ => None
  }

  /** The events addressed to one index, in order. */
  function Group(events: seq<Event>, index: int): seq<Kind> {
    if events == [] then []
    else Group(events[..|events| - 1], index)
         + (if Address(events[|events| - 1].kind) == Some(index) then [events[|events| - 1].kind] else [])
  }

  function Fold(ks: seq<Kind>): Progress {
    if ks == [] then Absent else Advance(Fold(ks[..|ks| - 1]), ks[|ks| - 1])
  }

  // ------------------------------------------------------- whole streams

  /** What one event adds to the running totals. */
  function AggregateBytes(k: Kind): nat {
    if !k.BlockDelta? then 0
    else match k.delta
      case TextDelta(s) => Size(s)
      case ThinkingDelta(s) => Size(s)
      case SignatureDelta(s) => Size(s)
      case _ => 0
  }

  function JsonBytes(k: Kind): nat {
    if k.BlockDelta? && k.delta.JsonDelta? && k.delta.fragment.Some? then Size(k.delta.fragment.value) else 0
  }

  function Cited(k: Kind): seq<string> {
    if k.BlockStart? && k.start.StartText? then k.start.citations
    else if k.BlockDelta? && k.delta.CitationsDelta? && k.delta.citation.Some? then [k.delta.citation.value]
    else []
  }

  function SizeAll(ss: seq<string>): nat {
    if ss == [] then 0 else SizeAll(ss[..|ss| - 1]) + Size(ss[|ss| - 1])
  }

  datatype Totals = Totals(events: nat, bytes: nat, aggregate: nat, json: nat, parts: nat, citations: nat, citationBytes: nat)

  function Add(t: Totals, e: Event): Totals {
    Totals(t.events + 1, t.bytes + e.bytes, t.aggregate + AggregateBytes(e.kind), t.json + JsonBytes(e.kind),
           t.parts + (if e.kind.BlockStart? && e.kind.start.StartTool? then 1 else 0),
           t.citations + |Cited(e.kind)|, t.citationBytes + SizeAll(Cited(e.kind)))
  }

  const Nothing := Totals(0, 0, 0, 0, 0, 0, 0)

  function Sum(events: seq<Event>): Totals {
    if events == [] then Nothing else Add(Sum(events[..|events| - 1]), events[|events| - 1])
  }

  predicate Within(t: Totals) {
    && t.events <= MAX_EVENTS && t.bytes <= MAX_EVENT_BYTES && t.aggregate <= MAX_AGGREGATE_TOTAL
    && t.json <= MAX_EVENT_BYTES && t.parts <= MAX_JSON_PARTS && t.citations <= MAX_CITATIONS && t.citationBytes <= MAX_CITATION_BYTES
  }

  predicate AddressOk(k: Kind) {
    Address(k).Some? ==> 0 <= Address(k).value <= MAX_INDEX
  }

  predicate HasTerminal(events: seq<Event>) {
    exists i :: 0 <= i < |events| && events[i].kind.MessageStop?
  }

  predicate HasMessageStart(events: seq<Event>) {
    exists i :: 0 <= i < |events| && events[i].kind.MessageStart?
  }

  /** The stream so far was taken: nothing malformed, nothing after the end, limits kept, and every group in order. */
  ghost predicate Taken(events: seq<Event>) {
    && Within(Sum(events))
    && (forall i | 0 <= i < |events| :: !events[i].kind.MalformedJson? && AddressOk(events[i].kind))
    && (forall i | 0 <= i < |events| - 1 :: !events[i].kind.MessageStop?)
    && (forall index | 0 <= index <= MAX_INDEX :: !Fold(Group(events, index)).Bad?)
  }

  lemma GroupNext(events: seq<Event>, e: Event, index: int)
    ensures Group(events + [e], index) == Group(events, index) + (if Address(e.kind) == Some(index) then [e.kind] else [])
    ensures Fold(Group(events + [e], index))
         == if Address(e.kind) == Some(index) then Advance(Fold(Group(events, index)), e.kind) else Fold(Group(events, index))
  {
    assert (events + [e])[..|events|] == events;
    var g := Group(events, index);
    assert (g + [e.kind])[..|g|] == g;
    assert g + [] == g;
  }

  lemma SumNext(events: seq<Event>, e: Event)
    ensures Sum(events + [e]) == Add(Sum(events), e)
  {
    assert (events + [e])[..|events|] == events;
  }

  /** Whether one more event is taken depends on it, the totals and its own group. */
  ghost predicate TakesNext(events: seq<Event>, e: Event) {
    && Within(Add(Sum(events), e)) && !e.kind.MalformedJson? && AddressOk(e.kind) && !HasTerminal(events)
    && (Address(e.kind).Some? ==> !Advance(Fold(Group(events, Address(e.kind).value)), e.kind).Bad?)
  }

  /** A refused event cannot be made up for: exactly the streams all of whose events were taken in turn are taken. */
  lemma TakenStep(events: seq<Event>, e: Event)
    ensures Taken(events + [e]) <==> Taken(events) && TakesNext(events, e)
  {
    hide Fold, Group, Advance, Within, Sum;
    var all := events + [e];
    SumNext(events, e);
    WithinBefore(Sum(events), e);
    forall index | 0 <= index <= MAX_INDEX
      ensures Fold(Group(all, index)) == if Address(e.kind) == Some(index) then Advance(Fold(Group(events, index)), e.kind) else Fold(Group(events, index))
      ensures !Fold(Group(all, index)).Bad? ==> !Fold(Group(events, index)).Bad?
    {
      GroupNext(events, e, index);
      BadStays(Fold(Group(events, index)), e.kind);
    }
    assert all[|events|] == e && forall i | 0 <= i < |events| :: all[i] == events[i];
    if Taken(all) {
      assert forall i | 0 <= i < |events| :: !all[i].kind.MalformedJson? && AddressOk(all[i].kind) && !all[i].kind.MessageStop?;
    }
  }

  lemma BadStays(b: Progress, k: Kind)
    ensures b.Bad? && Address(k).Some? ==> Advance(b, k).Bad?
  {
  }

  lemma WithinBefore(t: Totals, e: Event)
    ensures Within(Add(t, e)) ==> Within(t)
  {
    hide AggregateBytes, JsonBytes, Cited, SizeAll;
  }

  // ---------------------------------------------- the shape of one group

  datatype Part = TextPart | ThinkingPart | SignaturePart | JsonPart

  /** What one event contributes to a part of its block. */
  function Piece(k: Kind, part: Part): string {
    if !k.BlockDelta? then ""
    else match k.delta
      case TextDelta(s) => if part.TextPart? then s else ""
      case ThinkingDelta(s) => if part.ThinkingPart? then s else ""
      case SignatureDelta(s) => if part.SignaturePart? then s else ""
      case JsonDelta(f) => if part.JsonPart? && f.Some? then f.value else ""
      case _ => ""
  }

  /** The concatenation of a block's own pieces. */
  function Joined(ks: seq<Kind>, part: Part): string {
    if ks == [] then "" else Joined(ks[..|ks| - 1], part) + Piece(ks[|ks| - 1], part)
  }

  function AllCited(ks: seq<Kind>): seq<string> {
    if ks == [] then [] else AllCited(ks[..|ks| - 1]) + Cited(ks[|ks| - 1])
  }

  /** The delta has the type its block was started with. */
  predicate Fits(start: Start, delta: Delta) {
    match delta
    case TextDelta(_) => start.StartText?
    case ThinkingDelta(_) => start.StartThinking?
    case SignatureDelta(_) => start.StartThinking?
    case CitationsDelta(_) => start.StartText?
    case JsonDelta(f) => start.StartTool? && f.Some?
    case OtherDelta => true
    case MalformedDelta => false
  }

  /** One start, then matching deltas, then at most one stop, in this order and nothing else. */
  ghost predicate WellOrdered(ks: seq<Kind>, closed: bool) {
    && ks != [] && ks[0].BlockStart? && StartOk(ks[0].start)
    && (closed ==> |ks| >= 2 && ks[|ks| - 1].BlockStop?)
    && forall i | 1 <= i < |ks| - (if closed then 1 else 0) :: ks[i].BlockDelta? && Fits(ks[0].start, ks[i].delta)
  }

  /** No part of the block outgrew its limit. */
  predicate PartsFit(ks: seq<Kind>) {
    && Size(Joined(ks, TextPart)) <= MAX_AGGREGATE_BYTES && Size(Joined(ks, ThinkingPart)) <= MAX_AGGREGATE_BYTES
    && Size(Joined(ks, SignaturePart)) <= MAX_AGGREGATE_BYTES && Size(Joined(ks, JsonPart)) <= MAX_JSON_PART_BYTES
  }

  ghost function Built(ks: seq<Kind>, closed: bool): Progress
    requires WellOrdered(ks, closed)
  {
    Building(ks[0].start, !closed, Joined(ks, TextPart), Joined(ks, ThinkingPart), Joined(ks, SignaturePart), Joined(ks, JsonPart), AllCited(ks))
  }

  ghost predicate OneBlock(ks: seq<Kind>) {
    forall i | 0 <= i < |ks| :: Address(ks[i]).Some?
  }

  lemma {:induction false} EncodeAppend(a: string, b: string)
    ensures EncodeText(a + b) == EncodeText(a) + EncodeText(b)
  {
    if a == "" {
      assert a + b == b;
    } else {
      assert (a + b)[1..] == a[1..] + b;
      EncodeAppend(a[1..], b);
    }
  }

  lemma JoinedNext(ks: seq<Kind>, k: Kind, part: Part)
    ensures Joined(ks + [k], part) == Joined(ks, part) + Piece(k, part)
    ensures Size(Joined(ks + [k], part)) >= Size(Joined(ks, part))
    ensures AllCited(ks + [k]) == AllCited(ks) + Cited(k)
  {
    assert (ks + [k])[..|ks|] == ks;
    EncodeAppend(Joined(ks, part), Piece(k, part));
  }

  lemma AllJoinedNext(ks: seq<Kind>, k: Kind)
    ensures forall part :: Joined(ks + [k], part) == Joined(ks, part) + Piece(k, part)
    ensures PartsFit(ks + [k]) ==> PartsFit(ks)
    ensures AllCited(ks + [k]) == AllCited(ks) + Cited(k)
  {
    hide Joined, Piece, AllCited;
    forall part ensures Joined(ks + [k], part) == Joined(ks, part) + Piece(k, part) && Size(Joined(ks + [k], part)) >= Size(Joined(ks, part)) {
      JoinedNext(ks, k, part);
    }
    JoinedNext(ks, k, TextPart);
  }

  lemma OrderNext(ks: seq<Kind>, k: Kind)
    requires Address(k).Some?
    ensures WellOrdered(ks + [k], true) <==> WellOrdered(ks, false) && k.BlockStop?
    ensures WellOrdered(ks + [k], false)
        <==> (ks == [] && k.BlockStart? && StartOk(k.start)) || (WellOrdered(ks, false) && k.BlockDelta? && Fits(ks[0].start, k.delta))
  {
    hide StartOk, Fits;
    var all := ks + [k];
    assert all[|ks|] == k && forall i | 0 <= i < |ks| :: all[i] == ks[i];
    if WellOrdered(all, true) {
      assert forall i | 1 <= i < |ks| :: all[i] == ks[i];
    }
    if WellOrdered(all, false) && ks != [] {
      assert forall i | 1 <= i < |ks| :: all[i] == ks[i];
      assert all[|ks|].BlockDelta?;
    }
  }

  lemma NotBoth(ks: seq<Kind>)
    ensures !(WellOrdered(ks, true) && WellOrdered(ks, false))
  {
    if WellOrdered(ks, true) {
      assert ks[|ks| - 1].BlockStop? && 1 <= |ks| - 1 < |ks|;
    }
  }

  /** A group makes a block exactly when it is well ordered and within the limits; then the block's parts are its own pieces, concatenated. */
  lemma {:induction false} FoldShape(ks: seq<Kind>)
    requires OneBlock(ks)
    ensures Fold(ks)
         == if ks == [] then Absent
            else if WellOrdered(ks, false) && PartsFit(ks) then Built(ks, false)
            else if WellOrdered(ks, true) && PartsFit(ks) then Built(ks, true)
            else Bad
  {
    if ks != [] {
      var init, k := ks[..|ks| - 1], ks[|ks| - 1];
      assert ks == init + [k];
      assert OneBlock(init);
      FoldShape(init);
      assert Fold(ks) == Advance(Fold(init), k);
      OrderNext(init, k);
      AllJoinedNext(init, k);
      NotBoth(init);
      NotBoth(ks);
      if init == [] {
        FirstShape(k);
      } else if PartsFit(init) && WellOrdered(init, false) {
        NextShape(init, k);
      }
    }
  }

  lemma FirstShape(k: Kind)
    requires Address(k).Some?
    ensures PartsFit([k]) || !k.BlockStart?
    ensures Advance(Absent, k) == if k.BlockStart? && StartOk(k.start) then Building(k.start, true, "", "", "", "", Cited(k)) else Bad
    ensures k.BlockStart? ==> forall part :: Joined([k], part) == ""
    ensures AllCited([k]) == Cited(k)
  {
    assert [k][..0] == [];
    assert AllCited([k]) == [] + Cited(k);
    if k.BlockStart? {
      forall part ensures Joined([k], part) == "" {
        assert Joined([k], part) == "" + "";
      }
    }
  }

  /** One more event in a group that is open. */
  lemma NextShape(init: seq<Kind>, k: Kind)
    requires WellOrdered(init, false) && PartsFit(init) && Address(k).Some?
    ensures k.BlockStop? ==> WellOrdered(init + [k], true) && PartsFit(init + [k]) && Advance(Built(init, false), k) == Built(init + [k], true)
    ensures k.BlockStart? || (k.BlockDelta? && !Fits(init[0].start, k.delta)) ==> Advance(Built(init, false), k) == Bad
    ensures k.BlockDelta? && Fits(init[0].start, k.delta) ==>
              && WellOrdered(init + [k], false)
              && Advance(Built(init, false), k) == if PartsFit(init + [k]) then Built(init + [k], false) else Bad
  {
    hide Joined, AllCited, Size, WellOrdered, StartOk, Piece;
    OrderNext(init, k);
    PartsAfter(init, k);
    StartsSame(init, k);
  }

  /** One event lengthens at most the one part it belongs to. */
  lemma PartsAfter(ks: seq<Kind>, k: Kind)
    requires k.BlockDelta? || k.BlockStop? || k.BlockStart?
    ensures Joined(ks + [k], TextPart) == if k.BlockDelta? && k.delta.TextDelta? then Joined(ks, TextPart) + k.delta.text else Joined(ks, TextPart)
    ensures Joined(ks + [k], ThinkingPart)
         == if k.BlockDelta? && k.delta.ThinkingDelta? then Joined(ks, ThinkingPart) + k.delta.thinking else Joined(ks, ThinkingPart)
    ensures Joined(ks + [k], SignaturePart)
         == if k.BlockDelta? && k.delta.SignatureDelta? then Joined(ks, SignaturePart) + k.delta.signature else Joined(ks, SignaturePart)
    ensures Joined(ks + [k], JsonPart)
         == if k.BlockDelta? && k.delta.JsonDelta? && k.delta.fragment.Some? then Joined(ks, JsonPart) + k.delta.fragment.value else Joined(ks, JsonPart)
    ensures !k.BlockStart? ==>
              AllCited(ks + [k])
              == if k.BlockDelta? && k.delta.CitationsDelta? && k.delta.citation.Some? then AllCited(ks) + [k.delta.citation.value] else AllCited(ks)
  {
    hide Joined, AllCited, EncodeText;
    JoinedNext(ks, k, TextPart);
    JoinedNext(ks, k, ThinkingPart);
    JoinedNext(ks, k, SignaturePart);
    JoinedNext(ks, k, JsonPart);
    assert Joined(ks, TextPart) + "" == Joined(ks, TextPart) && Joined(ks, ThinkingPart) + "" == Joined(ks, ThinkingPart);
    assert Joined(ks, SignaturePart) + "" == Joined(ks, SignaturePart) && Joined(ks, JsonPart) + "" == Joined(ks, JsonPart);
    assert AllCited(ks) + [] == AllCited(ks);
  }

  lemma StartsSame(init: seq<Kind>, k: Kind)
    requires WellOrdered(init, false)
    ensures init != [] && (init + [k])[0] == init[0]
  {
  }

  // -------------------------------------------------------------- reader

  datatype Lifecycle = Lifecycle(open: bool, tool: bool)

  function Get(m: map<int, string>, i: int): string {
    if i in m then m[i] else ""
  }

  function GetAll(m: map<int, seq<string>>, i: int): seq<string> {
    if i in m then m[i] else []
  }

  /** The maps of starts, life cycles and tool arguments have the same blocks in them. */
  ghost predicate Agree(slots: map<int, Start>, lifecycles: map<int, Lifecycle>, jsonParts: map<int, string>, jsonPartBytes: map<int, nat>) {
    && (forall i :: i in slots <==> i in lifecycles)
    && (forall i :: i in jsonParts <==> i in jsonPartBytes)
    && (forall i :: i in jsonParts <==> i in lifecycles && lifecycles[i].tool)
    && (forall i | i in lifecycles :: 0 <= i <= MAX_INDEX && (lifecycles[i].tool <==> slots[i].StartTool?))
    && (forall i | i in jsonParts :: jsonPartBytes[i] == Size(jsonParts[i]))
  }

  /** Only known blocks have aggregates. */
  ghost predicate Owned(lifecycles: map<int, Lifecycle>, texts: map<int, string>, thinkings: map<int, string>,
                        signatures: map<int, string>, citations: map<int, seq<string>>) {
    forall i | i in texts || i in thinkings || i in signatures || i in citations :: i in lifecycles
  }

  lemma AgreeRegister(slots: map<int, Start>, lifecycles: map<int, Lifecycle>, jsonParts: map<int, string>, jsonPartBytes: map<int, nat>,
                      i: int, start: Start)
    requires Agree(slots, lifecycles, jsonParts, jsonPartBytes) && i !in lifecycles && 0 <= i <= MAX_INDEX
    ensures i !in slots && i !in jsonParts
    ensures Agree(slots[i := start], lifecycles[i := Lifecycle(true, start.StartTool?)],
                  if start.StartTool? then jsonParts[i := ""] else jsonParts, if start.StartTool? then jsonPartBytes[i := 0] else jsonPartBytes)
  {
    NoBytes();
    hide Size;
  }

  lemma OwnedRegister(lifecycles: map<int, Lifecycle>, texts: map<int, string>, thinkings: map<int, string>,
                      signatures: map<int, string>, citations: map<int, seq<string>>, i: int, l: Lifecycle)
    requires Owned(lifecycles, texts, thinkings, signatures, citations)
    ensures Owned(lifecycles[i := l], texts, thinkings, signatures, citations)
    ensures i !in lifecycles ==> i !in texts && i !in thinkings && i !in signatures && i !in citations
  {
  }

  ghost predicate Bounded(m: map<int, string>) {
    forall i | i in m :: Size(m[i]) <= MAX_AGGREGATE_BYTES
  }

  // -------------------------------------------------------------- results

  /** A block as the reader returns it; `V` is a tool call's parsed argument object. */
  datatype Finished<V> =
    | TextBlock(text: string, citations: seq<string>)
    | ThinkingBlock(thinking: string, signature: string)
    | ToolBlock(id: string, name: string, server: bool, input: V)
    | OtherBlock(start: Start)

  /** A call's arguments: as they are, or repaired once when the client runs the tool. */
  function Decoded<V>(json: string, server: bool, parse: string -> Option<V>): Option<V> {
    if parse(json).Some? then parse(json) else if server then None else parse(JsonRepair.Repair(json, JsonRepair.Outside))
  }

  /** The block is there and over, and a tool call's arguments decode; or there is none. */
  ghost predicate Closed<V>(b: Progress, parse: string -> Option<V>) {
    b.Absent? || (b.Building? && !b.open && (b.start.StartTool? ==> Decoded(b.json, b.start.server, parse).Some?))
  }

  ghost function FinishedOf<V>(b: Progress, parse: string -> Option<V>): Finished<V>
    requires b.Building? && Closed(b, parse)
  {
    match b.start
    case StartText(_) => TextBlock(b.text, b.citations)
    case StartThinking => ThinkingBlock(b.thinking, b.signature)
    case StartTool(id, name, server) => ToolBlock(id, name, server, Decoded(b.json, server, parse).value)
    case _ => OtherBlock(b.start)
  }

  /** The reader has what it needs to return the message. */
  ghost predicate Complete<V>(events: seq<Event>, parse: string -> Option<V>) {
    HasMessageStart(events) && HasTerminal(events) && forall i | 0 <= i <= MAX_INDEX :: Closed(Fold(Group(events, i)), parse)
  }

  /** The blocks from index `i` on, in index order, each made from its own group. */
  ghost function InIndexOrder<V>(events: seq<Event>, parse: string -> Option<V>, i: nat): seq<Finished<V>>
    decreases MAX_INDEX + 1 - i
  {
    if i > MAX_INDEX then []
    else
      var b := Fold(Group(events, i));
      (if b.Building? && Closed(b, parse) then [FinishedOf(b, parse)] else []) + InIndexOrder(events, parse, i + 1)
  }

  lemma IndexOrderEnd<V>(events: seq<Event>, parse: string -> Option<V>)
    ensures InIndexOrder(events, parse, MAX_INDEX + 1) == []
  {
  }

  lemma IndexOrderStep<V>(events: seq<Event>, parse: string -> Option<V>, i: nat)
    requires i <= MAX_INDEX
    ensures var b := Fold(Group(events, i));
            InIndexOrder(events, parse, i)
            == if b.Building? && Closed(b, parse) then [FinishedOf(b, parse)] + InIndexOrder(events, parse, i + 1)
               else InIndexOrder(events, parse, i + 1)
  {
    assert [] + InIndexOrder(events, parse, i + 1) == InIndexOrder(events, parse, i + 1);
  }

  class StreamReader {
    var slots: map<int, Start>
    var lifecycles: map<int, Lifecycle>
    var jsonParts: map<int, string>
    var jsonPartBytes: map<int, nat>
    var texts: map<int, string>
    var thinkings: map<int, string>
    var signatures: map<int, string>
    var citations: map<int, seq<string>>
    var jsonPartTotalBytes: nat
    var aggregateTotalBytes: nat
    var citationCount: nat
    var citationBytes: nat
    var eventCount: nat
    var eventBytes: nat
    var sawMessageStart: bool
    var sawTerminal: bool

    /** Every event taken so far. */
    ghost var seen: seq<Event>

    /** What the maps hold about one index. */
    ghost function View(i: int): Progress
      reads `slots, `lifecycles, `jsonParts, `texts, `thinkings, `signatures, `citations
    {
      if i !in lifecycles || i !in slots then Absent
      else Building(slots[i], lifecycles[i].open, Get(texts, i), Get(thinkings, i), Get(signatures, i), Get(jsonParts, i), GetAll(citations, i))
    }

    /** The maps agree on which blocks there are and which of them are tool calls. */
    ghost predicate Consistent()
      reads `slots, `lifecycles, `jsonParts, `jsonPartBytes, `texts, `thinkings, `signatures, `citations
    {
      && Agree(slots, lifecycles, jsonParts, jsonPartBytes)
      && Owned(lifecycles, texts, thinkings, signatures, citations)
      && Bounded(texts) && Bounded(thinkings) && Bounded(signatures)
    }

    ghost function Counted(): Totals
      reads `eventCount, `eventBytes, `aggregateTotalBytes, `jsonPartTotalBytes, `jsonParts, `citationCount, `citationBytes
    {
      Totals(eventCount, eventBytes, aggregateTotalBytes, jsonPartTotalBytes, |jsonParts.Keys|, citationCount, citationBytes)
    }

    ghost predicate Valid()
      reads this
    {
      && Taken(seen) && Consistent() && Counted() == Sum(seen)
      && (sawMessageStart <==> HasMessageStart(seen)) && (sawTerminal <==> HasTerminal(seen))
      && forall i | 0 <= i <= MAX_INDEX :: View(i) == Fold(Group(seen, i))
    }

    constructor ()
      ensures Valid() && seen == []
    {
      slots, lifecycles, jsonParts, jsonPartBytes := map[], map[], map[], map[];
      texts, thinkings, signatures, citations := map[], map[], map[], map[];
      jsonPartTotalBytes, aggregateTotalBytes, citationCount, citationBytes := 0, 0, 0, 0;
      eventCount, eventBytes, sawMessageStart, sawTerminal := 0, 0, false, false;
      seen := [];
    }

    /** Only the block at `i` may differ from the old state, and it advanced by `k`. */
    twostate predicate Advanced(i: int, k: Kind)
      reads `slots, `lifecycles, `jsonParts, `texts, `thinkings, `signatures, `citations
    {
      View(i) == Advance(old(View(i)), k) && forall j :: j != i ==> View(j) == old(View(j))
    }

    /** Citations are counted against their own limits, one by one. */
    method PushCitations(i: int, values: seq<string>) returns (ok: bool)
      requires citationCount <= MAX_CITATIONS && citationBytes <= MAX_CITATION_BYTES
      modifies `citations, `citationCount, `citationBytes
      ensures ok <==> old(citationCount) + |values| <= MAX_CITATIONS && old(citationBytes) + SizeAll(values) <= MAX_CITATION_BYTES
      ensures ok ==> citationCount == old(citationCount) + |values| && citationBytes == old(citationBytes) + SizeAll(values)
      ensures ok ==> GetAll(citations, i) == old(GetAll(citations, i)) + values
      ensures ok ==> forall j :: j != i ==> GetAll(citations, j) == old(GetAll(citations, j))
      ensures forall j :: j in citations ==> j in old(citations) || j == i
    {
      hide Size, SizeAll, GetAll;
      NoSizes();
      assert GetAll(citations, i) + [] == GetAll(citations, i) && values[..0] == [];
      var n := 0;
      while n < |values|
        invariant 0 <= n <= |values|
        invariant citationCount == old(citationCount) + n && citationBytes == old(citationBytes) + SizeAll(values[..n])
        invariant citationCount <= MAX_CITATIONS && citationBytes <= MAX_CITATION_BYTES
        invariant GetAll(citations, i) == old(GetAll(citations, i)) + values[..n]
        invariant forall j :: j != i ==> GetAll(citations, j) == old(GetAll(citations, j))
        invariant forall j :: j in citations ==> j in old(citations) || j == i
      {
        SizeAllNext(values, n);
        var bytes := Size(values[n]);
        if citationCount >= MAX_CITATIONS || citationBytes + bytes > MAX_CITATION_BYTES {
          return false;
        }
        citationCount := citationCount + 1;
        citationBytes := citationBytes + bytes;
        PutAll(citations, i, GetAll(citations, i) + [values[n]]);
        assert GetAll(citations, i) + [values[n]] == old(GetAll(citations, i)) + values[..n + 1];
        citations := citations[i := GetAll(citations, i) + [values[n]]];
        n := n + 1;
      }
      assert values[..n] == values;
      ok := true;
    }

    /** Enter a new block into the maps. */
    method Register(i: int, start: Start)
      requires Consistent() && 0 <= i <= MAX_INDEX && i !in lifecycles
      modifies `slots, `lifecycles, `jsonParts, `jsonPartBytes
      ensures Consistent() && View(i) == Building(start, true, "", "", "", "", []) && i in lifecycles
      ensures forall j :: j != i ==> View(j) == old(View(j))
      ensures |jsonParts.Keys| == old(|jsonParts.Keys|) + (if start.StartTool? then 1 else 0)
    {
      hide Size, Bounded, Agree, Owned;
      AgreeRegister(slots, lifecycles, jsonParts, jsonPartBytes, i, start);
      OwnedRegister(lifecycles, texts, thinkings, signatures, citations, i, Lifecycle(true, start.StartTool?));
      slots := slots[i := start];
      lifecycles := lifecycles[i := Lifecycle(true, start.StartTool?)];
      if start.StartTool? {
        OneMoreKey(jsonParts, i);
        jsonParts := jsonParts[i := ""];
        jsonPartBytes := jsonPartBytes[i := 0];
      }
    }

    /** One start event. */
    method OnStart(i: int, start: Start) returns (ok: bool)
      requires Consistent() && 0 <= i <= MAX_INDEX && Within(Counted())
      modifies `slots, `lifecycles, `jsonParts, `jsonPartBytes, `citations, `citationCount, `citationBytes
      ensures var k := BlockStart(i, start);
              && (ok <==> !Advance(old(View(i)), k).Bad? && StartWithin(old(Counted()), start))
              && (ok ==> Consistent() && Advanced(i, k))
      ensures ok ==>
                && |jsonParts.Keys| == old(|jsonParts.Keys|) + (if start.StartTool? then 1 else 0)
                && citationCount == old(citationCount) + |Cited(BlockStart(i, start))|
                && citationBytes == old(citationBytes) + SizeAll(Cited(BlockStart(i, start)))
    {
      hide Size, Trim, Bounded, SizeAll, Agree, Owned, Extend, Get, GetAll;
      NoSizes();
      KnownSlot(i);
      if i in lifecycles || i in slots {
        return false;
      }
      if start.StartTool? {
        if Trim(start.id) == "" || Trim(start.name) == "" {
          return false;
        }
      } else if start.Unnamed? {
        return false;
      }
      if start.StartTool? && |jsonParts.Keys| >= MAX_JSON_PARTS {
        return false;
      }
      Register(i, start);
      ok := true;
      if start.StartText? {
        label registered:
        ok := PushCitations(i, start.citations);
        OwnedCited(lifecycles, texts, thinkings, signatures, old@registered(citations), citations, i);
        assert [] + start.citations == start.citations;
      }
    }

    method OnStop(i: int) returns (ok: bool)
      requires Consistent()
      modifies `lifecycles
      ensures ok <==> !Advance(old(View(i)), BlockStop(i)).Bad?
      ensures ok ==> Consistent() && Advanced(i, BlockStop(i))
    {
      hide EncodeText;
      if i !in lifecycles || !lifecycles[i].open {
        return false;
      }
      lifecycles := lifecycles[i := lifecycles[i].(open := false)];
      ok := true;
    }

    /** Add one piece to an aggregate, within its own limit and the total. */
    method PushAggregate(m: map<int, string>, i: int, value: string) returns (ok: bool, m': map<int, string>)
      requires Bounded(m) && aggregateTotalBytes <= MAX_AGGREGATE_TOTAL
      modifies `aggregateTotalBytes
      ensures ok <==> Size(Get(m, i) + value) <= MAX_AGGREGATE_BYTES && old(aggregateTotalBytes) + Size(value) <= MAX_AGGREGATE_TOTAL
      ensures ok ==> aggregateTotalBytes == old(aggregateTotalBytes) + Size(value) && Bounded(m')
      ensures ok ==> Get(m', i) == Get(m, i) + value && forall j :: j != i ==> Get(m', j) == Get(m, j)
      ensures forall j :: j in m' ==> j in m || j == i
    {
      hide Size;
      SizeAppend(Get(m, i), value);
      NoBytes();
      m' := m;
      if value == "" {
        assert Get(m, i) + "" == Get(m, i);
        return true, m;
      }
      var bytes := Size(value);
      if Size(Get(m, i)) + bytes > MAX_AGGREGATE_BYTES || aggregateTotalBytes + bytes > MAX_AGGREGATE_TOTAL {
        return false, m;
      }
      aggregateTotalBytes := aggregateTotalBytes + bytes;
      m' := m[i := Get(m, i) + value];
      ok := true;
    }

    /** Add one fragment to a tool call's arguments. */
    method PushJson(i: int, fragment: string) returns (ok: bool)
      requires Consistent() && i in jsonParts && jsonPartTotalBytes <= MAX_EVENT_BYTES
      modifies `jsonParts, `jsonPartBytes, `jsonPartTotalBytes
      ensures ok <==> Size(old(jsonParts[i]) + fragment) <= MAX_JSON_PART_BYTES && old(jsonPartTotalBytes) + Size(fragment) <= MAX_EVENT_BYTES
      ensures ok ==> Consistent() && jsonPartTotalBytes == old(jsonPartTotalBytes) + Size(fragment)
      ensures ok ==> jsonParts == old(jsonParts)[i := old(jsonParts[i]) + fragment] && jsonParts.Keys == old(jsonParts.Keys)
    {
      hide Size, Bounded;
      SizeAppend(jsonParts[i], fragment);
      var bytes := Size(fragment);
      if jsonPartBytes[i] + bytes > MAX_JSON_PART_BYTES || jsonPartTotalBytes + bytes > MAX_EVENT_BYTES {
        return false;
      }
      jsonParts := jsonParts[i := jsonParts[i] + fragment];
      jsonPartBytes := jsonPartBytes[i := jsonPartBytes[i] + bytes];
      jsonPartTotalBytes := jsonPartTotalBytes + bytes;
      ok := true;
    }

    /** A piece of text, thinking or signature. */
    method OnPiece(i: int, delta: Delta) returns (ok: bool)
      requires Consistent() && Within(Counted()) && i in lifecycles && i in slots && lifecycles[i].open
      requires delta.TextDelta? || delta.ThinkingDelta? || delta.SignatureDelta?
      modifies `texts, `thinkings, `signatures, `aggregateTotalBytes
      ensures var k := BlockDelta(i, delta);
              && (ok <==> !Advance(old(View(i)), k).Bad? && DeltaWithin(old(Counted()), delta))
              && (ok ==> Consistent() && Advanced(i, k))
      ensures ok ==> aggregateTotalBytes == old(aggregateTotalBytes) + AggregateBytes(BlockDelta(i, delta))
    {
      hide Size, SizeAll, Bounded, Agree, Owned;
      NoSizes();
      match delta
      case TextDelta(text) =>
        if !slots[i].StartText? {
          return false;
        }
        ok := PushText(i, text);
      case ThinkingDelta(thinking) =>
        if !slots[i].StartThinking? {
          return false;
        }
        ok := PushThinking(i, thinking);
      case SignatureDelta(signature) =>
        if !slots[i].StartThinking? {
          return false;
        }
        ok := PushSignature(i, signature);
    }

    /** A citation, a fragment of arguments, or a delta of no known type. */
    method OnExtra(i: int, delta: Delta) returns (ok: bool)
      requires Consistent() && Within(Counted()) && i in lifecycles && i in slots && lifecycles[i].open
      requires !delta.TextDelta? && !delta.ThinkingDelta? && !delta.SignatureDelta?
      modifies `jsonParts, `jsonPartBytes, `citations, `jsonPartTotalBytes, `citationCount, `citationBytes
      ensures var k := BlockDelta(i, delta);
              && (ok <==> !Advance(old(View(i)), k).Bad? && DeltaWithin(old(Counted()), delta))
              && (ok ==> Consistent() && Advanced(i, k))
      ensures ok ==>
                && jsonParts.Keys == old(jsonParts.Keys)
                && jsonPartTotalBytes == old(jsonPartTotalBytes) + JsonBytes(BlockDelta(i, delta))
                && citationCount == old(citationCount) + |Cited(BlockDelta(i, delta))|
                && citationBytes == old(citationBytes) + SizeAll(Cited(BlockDelta(i, delta)))
    {
      hide Size, SizeAll, Bounded, Agree, Owned;
      NoSizes();
      AgreeAt(slots, lifecycles, jsonParts, jsonPartBytes, i);
      match delta
      case CitationsDelta(citation) =>
        if !slots[i].StartText? {
          return false;
        }
        ok := true;
        if citation.Some? {
          ok := PushCitations(i, [citation.value]);
          OwnedCited(lifecycles, texts, thinkings, signatures, old(citations), citations, i);
        }
      case JsonDelta(fragment) =>
        if !lifecycles[i].tool || fragment.None? {
          return false;
        }
        ok := PushJson(i, fragment.value);
      case _ =>
        ok := delta.OtherDelta?;
    }

    /** One delta event. */
    method OnDelta(i: int, delta: Delta) returns (ok: bool)
      requires Consistent() && Within(Counted())
      modifies `texts, `thinkings, `signatures, `jsonParts, `jsonPartBytes, `citations
      modifies `aggregateTotalBytes, `jsonPartTotalBytes, `citationCount, `citationBytes
      ensures var k := BlockDelta(i, delta);
              && (ok <==> !Advance(old(View(i)), k).Bad? && DeltaWithin(old(Counted()), delta))
              && (ok ==> Consistent() && Advanced(i, k))
      ensures ok ==>
                && jsonParts.Keys == old(jsonParts.Keys)
                && aggregateTotalBytes == old(aggregateTotalBytes) + AggregateBytes(BlockDelta(i, delta))
                && jsonPartTotalBytes == old(jsonPartTotalBytes) + JsonBytes(BlockDelta(i, delta))
                && citationCount == old(citationCount) + |Cited(BlockDelta(i, delta))|
                && citationBytes == old(citationBytes) + SizeAll(Cited(BlockDelta(i, delta)))
    {
      hide Size, SizeAll, Consistent, Within, Extend, DeltaWithin, Get, GetAll;
      NoSizes();
      KnownSlot(i);
      if i !in lifecycles || !lifecycles[i].open {
        return false;
      }
      if delta.TextDelta? || delta.ThinkingDelta? || delta.SignatureDelta? {
        ok := OnPiece(i, delta);
      } else {
        ok := OnExtra(i, delta);
      }
    }

    lemma KnownSlot(i: int)
      requires Consistent()
      ensures i in slots <==> i in lifecycles
    {
      hide Owned, Bounded;
      AgreeAt(slots, lifecycles, jsonParts, jsonPartBytes, i);
    }

    method PushText(i: int, text: string) returns (ok: bool)
      requires Consistent() && i in lifecycles && i in slots && aggregateTotalBytes <= MAX_AGGREGATE_TOTAL
      modifies `texts, `aggregateTotalBytes
      ensures ok <==> Size(old(Get(texts, i)) + text) <= MAX_AGGREGATE_BYTES && old(aggregateTotalBytes) + Size(text) <= MAX_AGGREGATE_TOTAL
      ensures ok ==> Consistent() && aggregateTotalBytes == old(aggregateTotalBytes) + Size(text)
      ensures ok ==> Get(texts, i) == old(Get(texts, i)) + text && forall j :: j != i ==> Get(texts, j) == old(Get(texts, j))
    {
      hide Size, Bounded, Agree;
      var m;
      ok, m := PushAggregate(texts, i, text);
      if ok {
        texts := m;
      }
    }

    method PushThinking(i: int, thinking: string) returns (ok: bool)
      requires Consistent() && i in lifecycles && i in slots && aggregateTotalBytes <= MAX_AGGREGATE_TOTAL
      modifies `thinkings, `aggregateTotalBytes
      ensures ok <==> Size(old(Get(thinkings, i)) + thinking) <= MAX_AGGREGATE_BYTES && old(aggregateTotalBytes) + Size(thinking) <= MAX_AGGREGATE_TOTAL
      ensures ok ==> Consistent() && aggregateTotalBytes == old(aggregateTotalBytes) + Size(thinking)
      ensures ok ==> Get(thinkings, i) == old(Get(thinkings, i)) + thinking && forall j :: j != i ==> Get(thinkings, j) == old(Get(thinkings, j))
    {
      hide Size, Bounded, Agree;
      var m;
      ok, m := PushAggregate(thinkings, i, thinking);
      if ok {
        thinkings := m;
      }
    }

    method PushSignature(i: int, signature: string) returns (ok: bool)
      requires Consistent() && i in lifecycles && i in slots && aggregateTotalBytes <= MAX_AGGREGATE_TOTAL
      modifies `signatures, `aggregateTotalBytes
      ensures ok <==> Size(old(Get(signatures, i)) + signature) <= MAX_AGGREGATE_BYTES && old(aggregateTotalBytes) + Size(signature) <= MAX_AGGREGATE_TOTAL
      ensures ok ==> Consistent() && aggregateTotalBytes == old(aggregateTotalBytes) + Size(signature)
      ensures ok ==> Get(signatures, i) == old(Get(signatures, i)) + signature && forall j :: j != i ==> Get(signatures, j) == old(Get(signatures, j))
    {
      hide Size, Bounded, Agree;
      var m;
      ok, m := PushAggregate(signatures, i, signature);
      if ok {
        signatures := m;
      }
    }

    /** What one event does to the maps and the totals, sizes of payloads aside. */
    method Apply(k: Kind) returns (ok: bool)
      requires Consistent() && Within(Counted())
      modifies `slots, `lifecycles, `jsonParts, `jsonPartBytes, `texts, `thinkings, `signatures, `citations
      modifies `aggregateTotalBytes, `jsonPartTotalBytes, `citationCount, `citationBytes, `sawMessageStart, `sawTerminal
      ensures ok <==> AddressOk(k) && (Address(k).Some? ==> !Advance(old(View(Address(k).value)), k).Bad?) && KindWithin(old(Counted()), k)
      ensures ok ==> Consistent() && Counted() == Add(old(Counted()), Event(k, 0)).(events := eventCount)
      ensures ok ==> forall i :: View(i) == if Address(k) == Some(i) then Advance(old(View(i)), k) else old(View(i))
      ensures ok ==> sawMessageStart == (old(sawMessageStart) || k.MessageStart?) && sawTerminal == (old(sawTerminal) || k.MessageStop?)
    {
      hide Consistent, Advance, AggregateBytes, JsonBytes, Cited, SizeAll, StartWithin, DeltaWithin, View;
      NextTotals(Counted(), Event(k, 0));
      if Address(k).Some? && !(0 <= Address(k).value <= MAX_INDEX) {
        return false;
      }
      ok := true;
      match k {
        case BlockStart(i, start) => ok := OnStart(i, start);
        case BlockDelta(i, delta) => ok := OnDelta(i, delta);
        case BlockStop(i) => ok := OnStop(i);
        case MessageStart => sawMessageStart := true;
        case MessageStop => sawTerminal := true;
        case _ =>
      }
    }

    /** One parsed event of the stream; false means that the whole stream fails. */
    method Feed(e: Event) returns (ok: bool)
      requires Valid()
      modifies this
      ensures ok <==> TakesNext(old(seen), e)
      ensures ok ==> Valid() && seen == old(seen) + [e]
    {
      hide Taken, Consistent, Fold, Group, Advance, AggregateBytes, JsonBytes, Cited, SizeAll, View, KindWithin, StartOk, Extend;
      hide HasTerminal, HasMessageStart, Sum, TakesNext, AddressOk;
      ghost var before := seen;
      TakenWithin(seen);
      Ahead(e);
      SameLimits(Sum(seen), Sum(seen).(events := eventCount + 1, bytes := eventBytes + e.bytes), e.kind);
      eventCount := eventCount + 1;
      eventBytes := eventBytes + e.bytes;
      if eventCount > MAX_EVENTS || eventBytes > MAX_EVENT_BYTES || e.kind.MalformedJson? || sawTerminal {
        return false;
      }
      ok := Apply(e.kind);
      seen := before + [e];
      if ok {
        ValidAfter(before, e);
      }
    }

    /** Whether the next event will be taken, in terms of the reader's own fields. */
    lemma Ahead(e: Event)
      requires Valid()
      ensures TakesNext(seen, e)
          <==> eventCount + 1 <= MAX_EVENTS && eventBytes + e.bytes <= MAX_EVENT_BYTES && KindWithin(Counted(), e.kind)
               && !e.kind.MalformedJson? && !sawTerminal && AddressOk(e.kind)
               && (Address(e.kind).Some? ==> !Advance(View(Address(e.kind).value), e.kind).Bad?)
    {
      hide Taken, Consistent, Fold, Group, Advance, View, KindWithin, Sum, Add, HasTerminal, HasMessageStart;
      TakenWithin(seen);
      NextTotals(Sum(seen), e);
    }

    lemma ValidAfter(before: seq<Event>, e: Event)
      requires Taken(before) && TakesNext(before, e) && seen == before + [e] && Consistent() && Counted() == Add(Sum(before), e)
      requires sawMessageStart <==> HasMessageStart(before) || e.kind.MessageStart?
      requires sawTerminal <==> HasTerminal(before) || e.kind.MessageStop?
      requires forall i | 0 <= i <= MAX_INDEX ::
                 View(i) == if Address(e.kind) == Some(i) then Advance(Fold(Group(before, i)), e.kind) else Fold(Group(before, i))
      ensures Valid()
    {
      hide Taken, TakesNext, Consistent, Fold, Group, Advance, View, Counted, HasTerminal, HasMessageStart, Sum, Add;
      TakenStep(before, e);
      SumNext(before, e);
      SeenNext(before, e);
    }

    /** The end of the stream: every block must be closed, every tool call's arguments must decode. */
    method Finish<V>(parse: string -> Option<V>) returns (r: Option<seq<Finished<V>>>)
      requires Valid()
      ensures r.Some? <==> Complete(seen, parse)
      ensures r.Some? ==> r.value == InIndexOrder(seen, parse, 0)
    {
      hide Taken, Consistent, Fold, Group, View, Closed, FinishedOf, InIndexOrder, HasTerminal, HasMessageStart;
      if !sawMessageStart || !sawTerminal {
        return None;
      }
      var blocks: seq<Finished<V>> := [];
      var i := MAX_INDEX + 1;
      IndexOrderEnd(seen, parse);
      while i > 0
        invariant 0 <= i <= MAX_INDEX + 1
        invariant forall j | i <= j <= MAX_INDEX :: Closed(Fold(Group(seen, j)), parse)
        invariant blocks == InIndexOrder(seen, parse, i)
      {
        i := i - 1;
        var next := FinishAt(i, parse, blocks);
        if next.None? {
          return None;
        }
        blocks := next.value;
      }
      r := Some(blocks);
    }

    /** Put the block at index `i`, if there is one, before those after it. */
    method FinishAt<V>(i: nat, parse: string -> Option<V>, blocks: seq<Finished<V>>) returns (r: Option<seq<Finished<V>>>)
      requires Valid() && i <= MAX_INDEX && blocks == InIndexOrder(seen, parse, i + 1)
      ensures r.Some? <==> Closed(Fold(Group(seen, i)), parse)
      ensures r.Some? ==> r.value == InIndexOrder(seen, parse, i)
    {
      hide Taken, Consistent, Fold, Group, View, Valid, Decoded, FinishedOf, InIndexOrder;
      IndexOrderStep(seen, parse, i);
      ViewIs(i);
      if i !in lifecycles {
        return Some(blocks);
      }
      var block := FinishBlock(i, parse);
      r := if block.None? then None else Some([block.value] + blocks);
    }

    lemma ViewIs(i: int)
      requires Valid() && 0 <= i <= MAX_INDEX
      ensures View(i) == Fold(Group(seen, i))
      ensures i in lifecycles ==> i in slots && View(i).Building?
      ensures i !in lifecycles ==> View(i).Absent?
      ensures i in lifecycles ==> (lifecycles[i].tool <==> slots[i].StartTool?) && (lifecycles[i].tool <==> i in jsonParts)
    {
      hide Taken, Fold, Group, Owned, Bounded;
      AgreeAt(slots, lifecycles, jsonParts, jsonPartBytes, i);
    }

    /** Give one block its text, thinking, signature or arguments. */
    method FinishBlock<V>(i: int, parse: string -> Option<V>) returns (r: Option<Finished<V>>)
      requires i in lifecycles && i in slots && (lifecycles[i].tool <==> slots[i].StartTool?) && (lifecycles[i].tool <==> i in jsonParts)
      ensures r.Some? <==> Closed(View(i), parse)
      ensures r.Some? ==> r.value == FinishedOf(View(i), parse)
    {
      if lifecycles[i].open {
        return None;
      }
      match slots[i] {
        case StartText(_) => r := Some(TextBlock(Get(texts, i), GetAll(citations, i)));
        case StartThinking => r := Some(ThinkingBlock(Get(thinkings, i), Get(signatures, i)));
        case StartTool(id, name, server) =>
          var input := JsonRepair.DecodeArguments(JsonRepair.RawText(jsonParts[i]), !server, parse);
          r := if input.None? then None else Some(ToolBlock(id, name, server, input.value));
        case _ => r := Some(OtherBlock(slots[i]));
      }
    }
  }

  lemma {:induction false} SizeAllGrows(ss: seq<string>, n: nat)
    requires n <= |ss|
    ensures SizeAll(ss[..n]) <= SizeAll(ss)
  {
    if n < |ss| {
      assert ss[..|ss| - 1][..n] == ss[..n];
      SizeAllGrows(ss[..|ss| - 1], n);
    } else {
      assert ss[..n] == ss;
    }
  }

  /** The limits a start event can run into. */
  predicate StartWithin(t: Totals, start: Start) {
    && (start.StartTool? ==> t.parts < MAX_JSON_PARTS)
    && (start.StartText? ==> t.citations + |start.citations| <= MAX_CITATIONS && t.citationBytes + SizeAll(start.citations) <= MAX_CITATION_BYTES)
  }

  /** The limits a delta event can run into. */
  predicate DeltaWithin(t: Totals, delta: Delta) {
    var k := BlockDelta(0, delta);
    && t.aggregate + AggregateBytes(k) <= MAX_AGGREGATE_TOTAL && t.json + JsonBytes(k) <= MAX_EVENT_BYTES
    && t.citations + |Cited(k)| <= MAX_CITATIONS && t.citationBytes + SizeAll(Cited(k)) <= MAX_CITATION_BYTES
  }

  /** The limits an event can run into by what it carries. */
  predicate KindWithin(t: Totals, k: Kind) {
    (k.BlockStart? ==> StartWithin(t, k.start)) && (k.BlockDelta? ==> DeltaWithin(t, k.delta))
  }

  lemma SameLimits(t: Totals, u: Totals, k: Kind)
    requires u == t.(events := u.events, bytes := u.bytes)
    ensures KindWithin(t, k) <==> KindWithin(u, k)
  {
  }

  /** The totals stay within their limits exactly when the event's own limits hold. */
  lemma NextTotals(t: Totals, e: Event)
    requires Within(t)
    ensures Within(Add(t, e))
        <==> t.events + 1 <= MAX_EVENTS && t.bytes + e.bytes <= MAX_EVENT_BYTES
             && KindWithin(t, e.kind)
    ensures !e.kind.BlockStart? && !e.kind.BlockDelta? ==>
              Add(t, e) == t.(events := t.events + 1, bytes := t.bytes + e.bytes)
    ensures e.kind.BlockDelta? ==> AggregateBytes(e.kind) == AggregateBytes(BlockDelta(0, e.kind.delta))
    ensures e.kind.BlockStart? ==> AggregateBytes(e.kind) == 0 && JsonBytes(e.kind) == 0
  {
    hide Size;
    NoSizes();
  }

  lemma TakenWithin(events: seq<Event>)
    requires Taken(events)
    ensures Within(Sum(events))
  {
  }

  lemma SeenNext(events: seq<Event>, e: Event)
    ensures HasTerminal(events + [e]) <==> HasTerminal(events) || e.kind.MessageStop?
    ensures HasMessageStart(events + [e]) <==> HasMessageStart(events) || e.kind.MessageStart?
    ensures forall i :: Fold(Group(events + [e], i))
                        == if Address(e.kind) == Some(i) then Advance(Fold(Group(events, i)), e.kind) else Fold(Group(events, i))
  {
    var all := events + [e];
    assert all[|events|] == e && forall i | 0 <= i < |events| :: all[i] == events[i];
    hide Fold, Group, Advance;
    forall i ensures Fold(Group(all, i)) == if Address(e.kind) == Some(i) then Advance(Fold(Group(events, i)), e.kind) else Fold(Group(events, i)) {
      GroupNext(events, e, i);
    }
  }

  lemma AgreeAt(slots: map<int, Start>, lifecycles: map<int, Lifecycle>, jsonParts: map<int, string>, jsonPartBytes: map<int, nat>, i: int)
    requires Agree(slots, lifecycles, jsonParts, jsonPartBytes)
    ensures i in slots <==> i in lifecycles
    ensures i in lifecycles ==> (lifecycles[i].tool <==> slots[i].StartTool?) && (i in jsonParts <==> lifecycles[i].tool)
  {
  }

  lemma OwnedCited(lifecycles: map<int, Lifecycle>, texts: map<int, string>, thinkings: map<int, string>, signatures: map<int, string>,
                   before: map<int, seq<string>>, after: map<int, seq<string>>, i: int)
    requires Owned(lifecycles, texts, thinkings, signatures, before) && i in lifecycles
    requires forall j :: j in after ==> j in before || j == i
    ensures Owned(lifecycles, texts, thinkings, signatures, after)
  {
  }

  lemma SizeAppend(a: string, b: string)
    ensures Size(a + b) == Size(a) + Size(b)
  {
    EncodeAppend(a, b);
  }

  lemma NoSizes()
    ensures SizeAll([]) == 0
  {
  }

  lemma OneMoreKey(m: map<int, string>, i: int)
    requires i !in m
    ensures |m[i := ""].Keys| == |m.Keys| + 1
  {
    assert m[i := ""].Keys == m.Keys + {i};
  }

  lemma NoBytes()
    ensures Size("") == 0
  {
  }

  lemma SizeAllNext(ss: seq<string>, n: nat)
    requires n < |ss|
    ensures SizeAll(ss[..n + 1]) == SizeAll(ss[..n]) + Size(ss[n]) && SizeAll(ss[..n + 1]) <= SizeAll(ss)
    ensures ss[..n + 1] == ss[..n] + [ss[n]]
  {
    hide SizeAll, Size;
    TakeNext(ss, n);
    SizeAllSnoc(ss[..n], ss[n]);
    SizeAllGrows(ss, n + 1);
  }

  lemma TakeNext(ss: seq<string>, n: nat)
    requires n < |ss|
    ensures ss[..n + 1] == ss[..n] + [ss[n]]
  {
  }

  lemma PutAll(m: map<int, seq<string>>, i: int, values: seq<string>)
    ensures GetAll(m[i := values], i) == values && forall j :: j != i ==> GetAll(m[i := values], j) == GetAll(m, j)
  {
  }

  lemma SizeAllSnoc(ss: seq<string>, s: string)
    ensures SizeAll(ss + [s]) == SizeAll(ss) + Size(s)
  {
    hide Size;
    assert (ss + [s])[..|ss|] == ss;
  }

  /**
   Read a whole stream: it succeeds exactly when every event is taken and the
   message is complete; then every block is what its own group makes it.
   */
  method Assemble<V>(events: seq<Event>, parse: string -> Option<V>) returns (r: Option<seq<Finished<V>>>)
    ensures r.Some? <==> Taken(events) && Complete(events, parse)
    ensures r.Some? ==> r.value == InIndexOrder(events, parse, 0)
  {
    hide Taken, TakesNext, Complete;
    var reader := new StreamReader();
    var n := 0;
    while n < |events|
      invariant 0 <= n <= |events| && fresh(reader) && reader.Valid() && reader.seen == events[..n]
    {
      ReadNext(events, n);
      var ok := reader.Feed(events[n]);
      if !ok {
        return None;
      }
      n := n + 1;
    }
    assert events[..n] == events;
    ReaderTaken(reader);
    r := reader.Finish(parse);
  }

  lemma ReaderTaken(reader: StreamReader)
    requires reader.Valid()
    ensures Taken(reader.seen)
  {
  }

  lemma ReadNext(events: seq<Event>, n: nat)
    requires n < |events|
    ensures events[..n + 1] == events[..n] + [events[n]]
    ensures Taken(events) ==> TakesNext(events[..n], events[n])
  {
    hide Taken, TakesNext;
    TakenPrefix(events, n + 1);
    TakenStep(events[..n], events[n]);
  }

  lemma {:induction false} TakenPrefix(events: seq<Event>, n: nat)
    requires n <= |events|
    ensures Taken(events) ==> Taken(events[..n])
    ensures n > 0 ==> events[..n] == events[..n - 1] + [events[n - 1]]
    decreases |events|
  {
    hide Taken, TakesNext;
    if n < |events| {
      var k := |events| - 1;
      assert events == events[..k] + [events[k]];
      TakenStep(events[..k], events[k]);
      TakenPrefix(events[..k], n);
      assert events[..k][..n] == events[..n];
    } else {
      assert events[..n] == events;
    }
  }

  /** Interleaving does not matter: streams with the same groups give the same blocks. */
  lemma {:induction false} InterleavingDoesNotMatter<V>(a: seq<Event>, b: seq<Event>, parse: string -> Option<V>, i: nat)
    requires forall j | i <= j <= MAX_INDEX :: Group(a, j) == Group(b, j)
    ensures InIndexOrder(a, parse, i) == InIndexOrder(b, parse, i)
    decreases MAX_INDEX + 1 - i
  {
    hide Fold, Group;
    if i <= MAX_INDEX {
      InterleavingDoesNotMatter(a, b, parse, i + 1);
    }
  }

  lemma AddCommutes(t: Totals, d: Event, e: Event)
    ensures Add(Add(t, d), e) == Add(Add(t, e), d)
  {
    hide AggregateBytes, JsonBytes, Cited, SizeAll;
  }

  /** It does not matter where in the stream an event is counted. */
  lemma {:induction false} SumWithout(events: seq<Event>, i: nat)
    requires i < |events|
    ensures Sum(events) == Add(Sum(events[..i] + events[i + 1..]), events[i])
    decreases |events|
  {
    hide Add;
    var init, e := events[..|events| - 1], events[|events| - 1];
    if i < |init| {
      SumWithout(init, i);
      var rest := init[..i] + init[i + 1..];
      assert events[..i] + events[i + 1..] == rest + [e];
      SumNext(rest, e);
      AddCommutes(Sum(rest), events[i], e);
    } else {
      assert events[..i] + events[i + 1..] == init;
    }
  }

  lemma WithoutOne(events: seq<Event>, i: nat)
    requires i < |events|
    ensures multiset(events[..i] + events[i + 1..]) == multiset(events) - multiset{events[i]}
  {
    var rest := events[..i] + events[i + 1..];
    assert events == events[..i] + [events[i]] + events[i + 1..];
    assert multiset(events) == multiset(rest) + multiset{events[i]};
  }

  lemma {:induction false} SameEventsSameSum(a: seq<Event>, b: seq<Event>)
    requires multiset(a) == multiset(b)
    ensures Sum(a) == Sum(b)
    decreases |a|
  {
    hide Add;
    assert |a| == |multiset(a)| == |multiset(b)| == |b|;
    if a != [] {
      var init, e := a[..|a| - 1], a[|a| - 1];
      assert a == init + [e];
      assert e in multiset(b);
      var i: nat :| i < |b| && b[i] == e;
      WithoutLast(a);
      WithoutOne(b, i);
      SumWithout(b, i);
      SameEventsSameSum(init, b[..i] + b[i + 1..]);
    }
  }

  predicate StopsLast(events: seq<Event>) {
    events != [] && events[|events| - 1].kind.MessageStop?
  }

  /** The same events, in the same order for each block, and the end of the message last in both or in neither. */
  ghost predicate Interleaved(a: seq<Event>, b: seq<Event>) {
    && multiset(a) == multiset(b) && (StopsLast(a) <==> StopsLast(b))
    && forall i | 0 <= i <= MAX_INDEX :: Group(a, i) == Group(b, i)
  }

  ghost predicate Succeeds<V>(events: seq<Event>, parse: string -> Option<V>) {
    Taken(events) && Complete(events, parse)
  }

  lemma EventsIn(a: seq<Event>, b: seq<Event>)
    requires multiset(a) == multiset(b)
    ensures forall i | 0 <= i < |b| :: b[i] in a
  {
    forall i | 0 <= i < |b| ensures b[i] in a {
      assert b[i] in multiset(b);
    }
  }

  /** The end of the message is the only one, so it is the last event of the other stream too. */
  lemma OneStop(a: seq<Event>, b: seq<Event>)
    requires multiset(a) == multiset(b) && StopsLast(a) && StopsLast(b)
    requires forall i | 0 <= i < |a| - 1 :: !a[i].kind.MessageStop?
    ensures forall i | 0 <= i < |b| - 1 :: !b[i].kind.MessageStop?
  {
    var a0, b0 := a[..|a| - 1], b[..|b| - 1];
    WithoutLast(a);
    WithoutLast(b);
    SameLast(a, b);
    forall i | 0 <= i < |b| - 1 ensures !b[i].kind.MessageStop? {
      assert b0[i] in multiset(b0) && b0[i] in multiset(a0);
      var k :| 0 <= k < |a0| && a0[k] == b0[i];
      assert a[k] == b[i];
    }
  }

  lemma WithoutLast(events: seq<Event>)
    requires events != []
    ensures multiset(events[..|events| - 1]) == multiset(events) - multiset{events[|events| - 1]}
  {
    WithoutOne(events, |events| - 1);
    assert events[..|events| - 1] + events[|events| - 1 + 1..] == events[..|events| - 1];
  }

  lemma SameLast(a: seq<Event>, b: seq<Event>)
    requires multiset(a) == multiset(b) && StopsLast(a) && StopsLast(b)
    requires forall i | 0 <= i < |a| - 1 :: !a[i].kind.MessageStop?
    ensures a[|a| - 1] == b[|b| - 1]
  {
    assert b[|b| - 1] in multiset(b) && b[|b| - 1] in a;
  }

  lemma InterleavedSucceeds<V>(a: seq<Event>, b: seq<Event>, parse: string -> Option<V>)
    requires Interleaved(a, b) && Succeeds(a, parse)
    ensures Succeeds(b, parse)
  {
    hide Fold, Group, Within, Sum, Closed, AddressOk;
    SameEventsSameSum(a, b);
    EventsIn(a, b);
    EventsIn(b, a);
    assert StopsLast(a);
    OneStop(a, b);
    assert b[|b| - 1].kind.MessageStop?;
    var i :| 0 <= i < |a| && a[i].kind.MessageStart?;
    assert a[i] in b;
    forall j | 0 <= j < |b| ensures !b[j].kind.MalformedJson? && AddressOk(b[j].kind) {
      assert b[j] in a;
    }
  }

  /** Nor does the interleaving decide about success: both streams give the same message, or neither gives one. */
  lemma SameMessageOrNone<V>(a: seq<Event>, b: seq<Event>, parse: string -> Option<V>)
    requires Interleaved(a, b)
    ensures Succeeds(a, parse) <==> Succeeds(b, parse)
    ensures InIndexOrder(a, parse, 0) == InIndexOrder(b, parse, 0)
  {
    hide Succeeds, Group;
    InterleavingDoesNotMatter(a, b, parse, 0);
    if Succeeds(a, parse) {
      InterleavedSucceeds(a, b, parse);
    }
    if Succeeds(b, parse) {
      InterleavedSucceeds(b, a, parse);
    }
  }

  lemma {:induction false} GroupIsOneBlock(events: seq<Event>, i: int)
    ensures OneBlock(Group(events, i))
  {
    if events != [] {
      GroupIsOneBlock(events[..|events| - 1], i);
    }
  }

  /**
   What success means for one block: its group is one start, matching deltas and
   one stop, and each of its parts is the concatenation of its own deltas.
   */
  lemma SuccessMeansWellOrdered<V>(events: seq<Event>, parse: string -> Option<V>, i: int)
    requires Complete(events, parse) && 0 <= i <= MAX_INDEX && Group(events, i) != []
    ensures var ks, b := Group(events, i), Fold(Group(events, i));
            && WellOrdered(ks, true) && b.Building? && b.start == ks[0].start
            && b.text == Joined(ks, TextPart) && b.thinking == Joined(ks, ThinkingPart)
            && b.signature == Joined(ks, SignaturePart) && b.json == Joined(ks, JsonPart) && b.citations == AllCited(ks)
  {
    hide Fold, Group, WellOrdered, Joined, AllCited, PartsFit;
    GroupIsOneBlock(events, i);
    FoldShape(Group(events, i));
    assert Closed(Fold(Group(events, i)), parse);
  }
}
