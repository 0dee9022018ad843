/**
 The canonical text of a tool input, which decides whether two calls are the
 same call: object members sorted by key, no white space.
 */
module CanonicalJson {
  import opened Wrappers
  import opened PtyText

  const MAX_DEPTH := 64

  /** A JavaScript value. `NotJson` stands for whatever has no JSON text; numbers are integers. */
  datatype Json =
    | Null
    | Bool(b: bool)
    | Num(n: int)
    | Str(s: Text)
    | Arr(items: seq<Json>)
    | Obj(members: seq<Member>)
    | NotJson

  datatype Member = Member(key: Text, value: Json)

  // ------------------------------------------------------- string literals

  function HexDigit(d: int): (u: CodeUnit)
    requires 0 <= d < 16
    ensures u as int == "0123456789abcdef"[d] as int
  {
    (if d < 10 then 48 + d else 87 + d) as CodeUnit
  }

  /** One unit of a literal; a lone surrogate is escaped. */
  function EscapeUnit(u: CodeUnit): Text {
    if u == 34 then [92, 34]
    else if u == 92 then [92, 92]
    else if u == 8 then [92, 98]
    else if u == 9 then [92, 116]
    else if u == 10 then [92, 110]
    else if u == 12 then [92, 102]
    else if u == 13 then [92, 114]
    else if u < 32 || IsHigh(u) || IsLow(u) then
      [92, 117] + Hex4(u as int)
    else [u]
  }

  /** The literal text of the code point at the front. */
  function EscapePoint(s: Text): Text
    requires s != []
  {
    if Width(s, 0) == 2 then s[..2] else EscapeUnit(s[0])
  }

  function Escape(s: Text): Text {
    if s == [] then [] else EscapePoint(s) + Escape(s[Width(s, 0)..])
  }

  function Quote(s: Text): Text {
    [34] + Escape(s) + [34]
  }

  /** Length of the escape or character a literal text starts with. */
  function ChunkLength(t: Text): nat {
    if |t| >= 2 && t[0] == 92 then (if t[1] == 117 then 6 else 2)
    else if t != [] && IsHigh(t[0]) then 2
    else 1
  }

  lemma PointChunk(s: Text, rest: Text)
    requires s != []
    ensures var p := EscapePoint(s);
            |p| >= 1 && ChunkLength(p + rest) == |p| && p[0] != 34
  {
    var p := EscapePoint(s);
    assert (p + rest)[0] == p[0];
    assert |p| >= 2 ==> (p + rest)[1] == p[1];
  }

  lemma HexInjective(a: int, b: int)
    requires 0 <= a < 16 && 0 <= b < 16 && HexDigit(a) == HexDigit(b)
    ensures a == b
  {
  }

  lemma HexValue(v: int)
    requires 0 <= v < 65536
    ensures v == v / 4096 * 4096 + v / 256 % 16 * 256 + v / 16 % 16 * 16 + v % 16
  {
    assert v / 16 == v / 256 * 16 + v / 16 % 16;
    assert v / 256 == v / 4096 * 16 + v / 256 % 16;
  }

  function Hex4(v: int): (t: Text)
    requires 0 <= v < 65536
    ensures |t| == 4
  {
    [HexDigit(v / 4096), HexDigit(v / 256 % 16), HexDigit(v / 16 % 16), HexDigit(v % 16)]
  }

  lemma Hex4Injective(v: int, w: int)
    requires 0 <= v < 65536 && 0 <= w < 65536 && Hex4(v) == Hex4(w)
    ensures v == w
  {
    hide HexDigit;
    var s, t := Hex4(v), Hex4(w);
    assert s[0] == t[0] && s[1] == t[1] && s[2] == t[2] && s[3] == t[3];
    HexInjective(v / 4096, w / 4096);
    HexInjective(v / 256 % 16, w / 256 % 16);
    HexInjective(v / 16 % 16, w / 16 % 16);
    HexInjective(v % 16, w % 16);
    HexValue(v);
    HexValue(w);
  }

  lemma UnitInjective(a: CodeUnit, b: CodeUnit)
    requires EscapeUnit(a) == EscapeUnit(b)
    ensures a == b
  {
    hide Hex4;
    var s, t := EscapeUnit(a), EscapeUnit(b);
    if |s| == 6 {
      assert s[2..] == Hex4(a as int) && t[2..] == Hex4(b as int);
      Hex4Injective(a as int, b as int);
    } else if |s| == 2 {
      assert s[1] == t[1];
    } else {
      assert s[0] == t[0];
    }
  }

  lemma PointInjective(s: Text, t: Text)
    requires s != [] && t != [] && EscapePoint(s) == EscapePoint(t)
    ensures Width(s, 0) == Width(t, 0) && s[..Width(s, 0)] == t[..Width(t, 0)]
  {
    var p := EscapePoint(s);
    if Width(s, 0) == 2 {
      assert p[0] == s[0];
      LongIsPair(t);
    } else if Width(t, 0) == 2 {
      assert p[0] == t[0];
      LongIsPair(s);
    } else {
      UnitInjective(s[0], t[0]);
      assert s[..1] == [s[0]] && t[..1] == [t[0]];
    }
  }

  /** A chunk that starts with a raw high surrogate is a whole pair. */
  lemma LongIsPair(s: Text)
    requires s != [] && IsHigh(EscapePoint(s)[0])
    ensures Width(s, 0) == 2
  {
  }

  lemma LiteralStart(s: Text, x: Text)
    ensures var whole := Escape(s) + [34] + x;
            whole[0] == 34 <==> s == []
  {
    if s != [] {
      PointChunk(s, Escape(s[Width(s, 0)..]) + [34] + x);
      assert (Escape(s) + [34] + x)[0] == EscapePoint(s)[0];
    }
  }

  /** Literals are uniquely decodable, whatever follows them. */
  lemma {:induction false} EscapeUnique(s: Text, t: Text, x: Text, y: Text)
    requires Escape(s) + [34] + x == Escape(t) + [34] + y
    ensures s == t && x == y
    decreases |s|
  {
    hide EscapePoint, ChunkLength;
    LiteralStart(s, x);
    LiteralStart(t, y);
    if s == [] {
      var whole := Escape(s) + [34] + x;
      assert whole[1..] == x && whole[1..] == y;
    } else {
      FirstPoints(s, t, x, y);
      EscapeUnique(s[Width(s, 0)..], t[Width(t, 0)..], x, y);
      assert s == s[..Width(s, 0)] + s[Width(s, 0)..] && t == t[..Width(t, 0)] + t[Width(t, 0)..];
    }
  }

  /** Two literals with one text begin with one code point, and go on with one text. */
  lemma FirstPoints(s: Text, t: Text, x: Text, y: Text)
    requires s != [] && t != [] && Escape(s) + [34] + x == Escape(t) + [34] + y
    ensures Width(s, 0) == Width(t, 0) && s[..Width(s, 0)] == t[..Width(t, 0)]
    ensures Escape(s[Width(s, 0)..]) + [34] + x == Escape(t[Width(t, 0)..]) + [34] + y
  {
    hide EscapePoint, ChunkLength;
    var p, q := EscapePoint(s), EscapePoint(t);
    var restS, restT := Escape(s[Width(s, 0)..]) + [34] + x, Escape(t[Width(t, 0)..]) + [34] + y;
    Behind(p, Escape(s[Width(s, 0)..]), x);
    Behind(q, Escape(t[Width(t, 0)..]), y);
    hide Escape;
    PointChunk(s, restS);
    PointChunk(t, restT);
    SameCut(p, restS, q, restT);
    PointInjective(s, t);
  }

  lemma Behind(p: Text, rest: Text, x: Text)
    ensures (p + rest) + [34] + x == p + (rest + [34] + x)
  {
  }

  lemma SameCut(p: Text, r: Text, q: Text, s: Text)
    requires p + r == q + s && |p| == |q|
    ensures p == q && r == s
  {
    assert p == (p + r)[..|p|] && q == (q + s)[..|q|] && r == (p + r)[|p|..] && s == (q + s)[|q|..];
  }

  lemma QuoteUnique(s: Text, t: Text, x: Text, y: Text)
    requires Quote(s) + x == Quote(t) + y
    ensures s == t && x == y
  {
    hide Escape;
    assert (Quote(s) + x)[1..] == Escape(s) + [34] + x;
    assert (Quote(t) + y)[1..] == Escape(t) + [34] + y;
    EscapeUnique(s, t, x, y);
  }

  // --------------------------------------------------------------- numbers

  predicate IsDigit(u: CodeUnit) {
    48 <= u <= 57
  }

  function Decimal(n: nat): (t: Text)
    ensures |t| >= 1 && forall i | 0 <= i < |t| :: IsDigit(t[i])
  {
    if n < 10 then [(48 + n) as CodeUnit] else Decimal(n / 10) + [(48 + n % 10) as CodeUnit]
  }

  function Number(n: int): Text {
    if n < 0 then [45] + Decimal(-n) else Decimal(n)
  }

  /** What may follow a value inside a canonical text: nothing, a comma or a closing bracket. */
  predicate Ends(t: Text) {
    t == [] || t[0] == 44 || t[0] == 93 || t[0] == 125
  }

  lemma {:induction false} DecimalInjective(m: nat, n: nat)
    requires Decimal(m) == Decimal(n)
    ensures m == n
  {
    var s, t := Decimal(m), Decimal(n);
    assert s[|s| - 1] == t[|t| - 1];
    if m >= 10 && n >= 10 {
      assert s[..|s| - 1] == Decimal(m / 10) && t[..|t| - 1] == Decimal(n / 10);
      DecimalInjective(m / 10, n / 10);
    }
  }

  predicate NoDigit(t: Text) {
    t == [] || !IsDigit(t[0])
  }

  lemma DecimalUnique(m: nat, n: nat, x: Text, y: Text)
    requires Decimal(m) + x == Decimal(n) + y && NoDigit(x) && NoDigit(y)
    ensures m == n && x == y
  {
    hide Decimal;
    var s, t := Decimal(m), Decimal(n);
    var whole := s + x;
    assert forall i | 0 <= i < |s| :: whole[i] == s[i];
    assert forall i | 0 <= i < |t| :: whole[i] == t[i];
    assert |s| < |whole| ==> whole[|s|] == x[0];
    assert |t| < |whole| ==> whole[|t|] == y[0];
    assert |s| == |t|;
    assert s == whole[..|s|] == t && x == whole[|s|..] == y;
    DecimalInjective(m, n);
  }

  lemma NumberStart(n: int, x: Text)
    ensures var whole := Number(n) + x;
            (whole[0] == 45 <==> n < 0) && (n < 0 ==> whole[1..] == Decimal(-n) + x)
  {
    hide Decimal;
    var t := if n < 0 then Decimal(-n) else Decimal(n);
    assert IsDigit(t[0]);
  }

  lemma NumberUnique(m: int, n: int, x: Text, y: Text)
    requires Number(m) + x == Number(n) + y && Ends(x) && Ends(y)
    ensures m == n && x == y
  {
    hide Decimal;
    NumberStart(m, x);
    NumberStart(n, y);
    if m < 0 {
      DecimalUnique(-m, -n, x, y);
    } else {
      DecimalUnique(m, n, x, y);
    }
  }

  // -------------------------------------------------------- canonical text

  datatype Pair = Pair(key: Text, text: Text)

  /** Code-unit order, as Array.prototype.sort uses it. */
  predicate Less(a: Text, b: Text) {
    if b == [] then false
    else if a == [] then true
    else a[0] < b[0] || (a[0] == b[0] && Less(a[1..], b[1..]))
  }

  function Insert(p: Pair, ps: seq<Pair>): seq<Pair> {
    if ps == [] || !Less(ps[0].key, p.key) then [p] + ps else [ps[0]] + Insert(p, ps[1..])
  }

  function Sort(ps: seq<Pair>): seq<Pair> {
    if ps == [] then [] else Insert(ps[0], Sort(ps[1..]))
  }

  function PairText(p: Pair): Text {
    Quote(p.key) + [58] + p.text
  }

  function JoinPairs(ps: seq<Pair>): Text {
    if ps == [] then [] else PairText(ps[0]) + (if |ps| == 1 then [] else [44] + JoinPairs(ps[1..]))
  }

  function JoinTexts(ts: seq<Text>): Text {
    if ts == [] then [] else ts[0] + (if |ts| == 1 then [] else [44] + JoinTexts(ts[1..]))
  }

  /** The canonical text, or None where the source throws: too deep, or not JSON. */
  function Canon(v: Json, depth: nat): Option<Text> {
    if depth > MAX_DEPTH then None
    else match v
      case Null => Some([110, 117, 108, 108])
      case Bool(b) => Some(if b then [116, 114, 117, 101] else [102, 97, 108, 115, 101])
      case Num(n) => Some(Number(n))
      case Str(s) => Some(Quote(s))
      case Arr(items) =>
        var texts := CanonItems(items, depth + 1);
        if texts.None? then None else Some([91] + JoinTexts(texts.value) + [93])
      case Obj(members) =>
        var pairs := CanonMembers(members, depth + 1);
        if pairs.None? then None else Some([123] + JoinPairs(Sort(pairs.value)) + [125])
      case NotJson => None
  }

  function CanonItems(items: seq<Json>, depth: nat): (r: Option<seq<Text>>)
    ensures r.Some? ==> |r.value| == |items|
  {
    if items == [] then Some([])
    else
      var first, rest := Canon(items[0], depth), CanonItems(items[1..], depth);
      if first.None? || rest.None? then None else Some([first.value] + rest.value)
  }

  function CanonMembers(members: seq<Member>, depth: nat): (r: Option<seq<Pair>>)
    ensures r.Some? ==> |r.value| == |members|
  {
    if members == [] then Some([])
    else
      var first, rest := Canon(members[0].value, depth), CanonMembers(members[1..], depth);
      if first.None? || rest.None? then None else Some([Pair(members[0].key, first.value)] + rest.value)
  }

  /** Every part of the value has a JSON text. */
  predicate AllJson(v: Json) {
    match v
    case Arr(items) => ItemsAllJson(items)
    case Obj(members) => MembersAllJson(members)
    case NotJson => false
    case _ => true
  }

  predicate ItemsAllJson(items: seq<Json>) {
    items == [] || (AllJson(items[0]) && ItemsAllJson(items[1..]))
  }

  predicate MembersAllJson(members: seq<Member>) {
    members == [] || (AllJson(members[0].value) && MembersAllJson(members[1..]))
  }

  /** How many arrays and objects the innermost value is inside of. */
  function Height(v: Json): nat {
    match v
    case Arr(items) => if items == [] then 0 else 1 + ItemsHeight(items)
    case Obj(members) => if members == [] then 0 else 1 + MembersHeight(members)
    case _ => 0
  }

  function Higher(a: nat, b: nat): nat {
    if a < b then b else a
  }

  function ItemsHeight(items: seq<Json>): nat {
    if items == [] then 0 else Higher(Height(items[0]), ItemsHeight(items[1..]))
  }

  function MembersHeight(members: seq<Member>): nat {
    if members == [] then 0 else Higher(Height(members[0].value), MembersHeight(members[1..]))
  }

  /** There is a canonical text exactly for JSON that is nested no deeper than 64 levels. */
  lemma {:induction false} CanonExists(v: Json, depth: nat)
    ensures Canon(v, depth).Some? <==> AllJson(v) && depth + Height(v) <= 64
    decreases v
  {
    match v
    case Arr(items) => ItemsExist(items, depth + 1);
    case Obj(members) => MembersExist(members, depth + 1);
    case _ =>
  }

  lemma {:induction false} ItemsExist(items: seq<Json>, depth: nat)
    ensures CanonItems(items, depth).Some? <==> ItemsAllJson(items) && (items == [] || depth + ItemsHeight(items) <= 64)
    decreases items
  {
    if items != [] {
      CanonExists(items[0], depth);
      ItemsExist(items[1..], depth);
    }
  }

  lemma {:induction false} MembersExist(members: seq<Member>, depth: nat)
    ensures CanonMembers(members, depth).Some? <==> MembersAllJson(members) && (members == [] || depth + MembersHeight(members) <= 64)
    decreases members
  {
    if members != [] {
      CanonExists(members[0].value, depth);
      MembersExist(members[1..], depth);
    }
  }

  lemma {:induction false} ItemTexts(items: seq<Json>, depth: nat)
    requires CanonItems(items, depth).Some?
    ensures forall i | 0 <= i < |items| :: Canon(items[i], depth) == Some(CanonItems(items, depth).value[i])
  {
    if items != [] {
      ItemTexts(items[1..], depth);
      forall i | 0 <= i < |items| ensures Canon(items[i], depth) == Some(CanonItems(items, depth).value[i]) {
        assert i > 0 ==> items[i] == items[1..][i - 1];
      }
    }
  }

  lemma {:induction false} MemberTexts(members: seq<Member>, depth: nat)
    requires CanonMembers(members, depth).Some?
    ensures var pairs := CanonMembers(members, depth).value;
            forall i | 0 <= i < |members| ::
              pairs[i].key == members[i].key && Canon(members[i].value, depth) == Some(pairs[i].text)
  {
    if members != [] {
      MemberTexts(members[1..], depth);
      forall i | 0 < i < |members| ensures members[i] == members[1..][i - 1] {
      }
    }
  }

  // ----------------------------------------------------- unique decoding

  predicate Leads(v: Json, c: CodeUnit) {
    match v
    case Null => c == 110
    case Bool(b) => c == if b then 116 else 102
    case Num(n) => c == 45 || IsDigit(c)
    case Str(_) => c == 34
    case Arr(_) => c == 91
    case Obj(_) => c == 123
    case NotJson => false
  }

  /** The first character tells the kind of the value. */
  lemma Lead(v: Json, depth: nat)
    requires Canon(v, depth).Some?
    ensures var t := Canon(v, depth).value;
            t != [] && Leads(v, t[0])
  {
    hide Escape, Decimal;
  }

  /** The rest of a list after one of its texts. */
  function More(ts: seq<Text>, close: CodeUnit, x: Text): Text {
    (if ts == [] then [] else [44] + JoinTexts(ts)) + [close] + x
  }

  lemma ListStep(ts: seq<Text>, close: CodeUnit, x: Text)
    requires ts != []
    ensures JoinTexts(ts) + [close] + x == ts[0] + More(ts[1..], close, x)
  {
  }

  lemma MoreStart(ts: seq<Text>, close: CodeUnit, x: Text)
    requires close == 93 || close == 125
    ensures var m := More(ts, close, x);
            Ends(m) && (m[0] == 44 <==> ts != []) && (ts == [] ==> m == [close] + x)
            && m[1..] == (if ts == [] then x else JoinTexts(ts) + [close] + x)
  {
    hide JoinTexts;
  }

  ghost predicate TextsOf(items: seq<Json>, depth: nat, ts: seq<Text>) {
    |ts| == |items| && forall i | 0 <= i < |items| :: Canon(items[i], depth) == Some(ts[i])
  }

  lemma ValueIsNoBracket(v: Json, depth: nat, x: Text)
    requires Canon(v, depth).Some?
    ensures (Canon(v, depth).value + x)[0] == Canon(v, depth).value[0] && Canon(v, depth).value[0] != 93
  {
    Lead(v, depth);
  }

  lemma Cancel(t: Text, x: Text, y: Text)
    requires t + x == t + y
    ensures x == y
  {
    assert (t + x)[|t|..] == x && (t + y)[|t|..] == y;
  }

  /** Canonical texts are uniquely decodable: what follows them cannot blur where they end. */
  lemma {:induction false} TextUnique(a: Json, b: Json, d: nat, e: nat, x: Text, y: Text)
    requires Canon(a, d).Some? && Canon(b, e).Some? && Ends(x) && Ends(y)
    requires Canon(a, d).value + x == Canon(b, e).value + y
    ensures Canon(a, d) == Canon(b, e) && x == y
    decreases a, 1
  {
    hide Ends, Quote, Number, JoinTexts, JoinPairs, Sort, Less;
    Lead(a, d);
    Lead(b, e);
    var s, t := Canon(a, d).value, Canon(b, e).value;
    assert (s + x)[0] == s[0] && (t + y)[0] == t[0];
    SameLead(a, b, s[0]);
    match a
    case Null => Cancel(s, x, y);
    case Bool(_) => Cancel(s, x, y);
    case Num(n) => NumberUnique(n, b.n, x, y);
    case Str(v) => QuoteUnique(v, b.s, x, y);
    case Arr(items) =>
      var ts, us := CanonItems(items, d + 1).value, CanonItems(b.items, e + 1).value;
      ItemTexts(items, d + 1);
      ItemTexts(b.items, e + 1);
      Unbracket(91, JoinTexts(ts), 93, x);
      Unbracket(91, JoinTexts(us), 93, y);
      ItemsUnique(items, b.items, d + 1, e + 1, ts, us, x, y);
    case Obj(members) =>
      var ps, qs := CanonMembers(members, d + 1).value, CanonMembers(b.members, e + 1).value;
      SortedPairs(members, d + 1);
      SortedPairs(b.members, e + 1);
      Unbracket(123, JoinPairs(Sort(ps)), 125, x);
      Unbracket(123, JoinPairs(Sort(qs)), 125, y);
      PairsUnique(members, b.members, d + 1, e + 1, Sort(ps), Sort(qs), x, y);
    case NotJson =>
  }

  /** Values whose texts may start with the same character are of the same kind. */
  lemma SameLead(a: Json, b: Json, c: CodeUnit)
    requires Leads(a, c) && Leads(b, c)
    ensures match a
            case Null => b.Null?
            case Bool(v) => b == Bool(v)
            case Num(_) => b.Num?
            case Str(_) => b.Str?
            case Arr(_) => b.Arr?
            case Obj(_) => b.Obj?
            case NotJson => false
  {
  }

  lemma Unbracket(open: CodeUnit, t: Text, close: CodeUnit, x: Text)
    ensures ([open] + t + [close] + x)[1..] == t + [close] + x
  {
  }

  lemma {:induction false} ItemsUnique(items: seq<Json>, others: seq<Json>, d: nat, e: nat, ts: seq<Text>, us: seq<Text>, x: Text, y: Text)
    requires TextsOf(items, d, ts) && TextsOf(others, e, us)
    requires JoinTexts(ts) + [93] + x == JoinTexts(us) + [93] + y
    ensures ts == us && x == y
    decreases items, 0
  {
    hide Canon, JoinTexts, Ends, More;
    ItemsStart(items, d, ts, x);
    ItemsStart(others, e, us, y);
    if ts == [] {
      Cancel([93], x, y);
    } else {
      var r, s := More(ts[1..], 93, x), More(us[1..], 93, y);
      MoreStart(ts[1..], 93, x);
      MoreStart(us[1..], 93, y);
      TextUnique(items[0], others[0], d, e, r, s);
      if ts[1..] != [] {
        ItemsUnique(items[1..], others[1..], d, e, ts[1..], us[1..], x, y);
        assert ts == [ts[0]] + ts[1..] && us == [us[0]] + us[1..];
      } else {
        Cancel([93], x, y);
        assert us[1..] == [];
      }
    }
  }

  /** Whether the list is empty shows in the first character. */
  lemma ItemsStart(items: seq<Json>, d: nat, ts: seq<Text>, x: Text)
    requires TextsOf(items, d, ts)
    ensures var whole := JoinTexts(ts) + [93] + x;
            (whole[0] == 93 <==> ts == []) && (ts == [] ==> whole == [93] + x)
            && (ts != [] ==> whole == ts[0] + More(ts[1..], 93, x))
  {
    hide Canon, More;
    if ts != [] {
      ListStep(ts, 93, x);
      ValueIsNoBracket(items[0], d, More(ts[1..], 93, x));
    } else {
      assert [] + [93] + x == [93] + x;
    }
  }

  // ------------------------------------------------------------- members

  ghost predicate FromMember(members: seq<Member>, depth: nat, p: Pair) {
    exists i :: 0 <= i < |members| && members[i].key == p.key && Canon(members[i].value, depth) == Some(p.text)
  }

  ghost predicate AllFrom(members: seq<Member>, depth: nat, ps: seq<Pair>) {
    forall k | 0 <= k < |ps| :: FromMember(members, depth, ps[k])
  }

  lemma {:induction false} InsertMembers(p: Pair, ps: seq<Pair>)
    ensures forall q :: q in Insert(p, ps) <==> q == p || q in ps
    ensures |Insert(p, ps)| == |ps| + 1
  {
    if ps != [] {
      InsertMembers(p, ps[1..]);
      assert forall q :: q in ps <==> q == ps[0] || q in ps[1..];
    }
  }

  /** Sorting keeps the pairs. */
  lemma {:induction false} SortMembers(ps: seq<Pair>)
    ensures (forall q :: q in Sort(ps) <==> q in ps) && |Sort(ps)| == |ps|
  {
    if ps != [] {
      SortMembers(ps[1..]);
      InsertMembers(ps[0], Sort(ps[1..]));
    }
  }

  lemma SortedPairs(members: seq<Member>, depth: nat)
    requires CanonMembers(members, depth).Some?
    ensures AllFrom(members, depth, Sort(CanonMembers(members, depth).value))
  {
    hide Canon;
    var ps := CanonMembers(members, depth).value;
    MemberTexts(members, depth);
    SortMembers(ps);
    forall k | 0 <= k < |Sort(ps)| ensures FromMember(members, depth, Sort(ps)[k]) {
      assert Sort(ps)[k] in ps;
    }
  }

  function MorePairs(ps: seq<Pair>, x: Text): Text {
    (if ps == [] then [] else [44] + JoinPairs(ps)) + [125] + x
  }

  lemma Regrouped(q: Text, c: Text, t: Text, m: Text, z: Text, x: Text)
    ensures q + c + t + m + z + x == q + (c + (t + (m + z + x)))
  {
  }

  lemma PairStep(ps: seq<Pair>, x: Text)
    requires ps != []
    ensures JoinPairs(ps) + [125] + x == Quote(ps[0].key) + ([58] + (ps[0].text + MorePairs(ps[1..], x)))
  {
    var more := if |ps| == 1 then [] else [44] + JoinPairs(ps[1..]);
    assert JoinPairs(ps) == Quote(ps[0].key) + [58] + ps[0].text + more;
    hide Quote, JoinPairs;
    Regrouped(Quote(ps[0].key), [58], ps[0].text, more, [125], x);
    assert more == if ps[1..] == [] then [] else [44] + JoinPairs(ps[1..]);
  }

  lemma PairsStart(ps: seq<Pair>, x: Text)
    ensures var whole := JoinPairs(ps) + [125] + x;
            (whole[0] == 125 <==> ps == []) && (ps == [] ==> whole == [125] + x)
            && (ps != [] ==> whole == Quote(ps[0].key) + ([58] + (ps[0].text + MorePairs(ps[1..], x))))
  {
    hide Escape;
    if ps != [] {
      PairStep(ps, x);
    } else {
      assert [] + [125] + x == [125] + x;
    }
  }

  lemma MorePairsStart(ps: seq<Pair>, x: Text)
    ensures var m := MorePairs(ps, x);
            Ends(m) && (m[0] == 44 <==> ps != []) && (ps == [] ==> m == [125] + x) && m[1..] == (if ps == [] then x else JoinPairs(ps) + [125] + x)
  {
    hide JoinPairs;
  }

  lemma {:induction false} PairsUnique(members: seq<Member>, others: seq<Member>, d: nat, e: nat, ps: seq<Pair>, qs: seq<Pair>, x: Text, y: Text)
    requires AllFrom(members, d, ps) && AllFrom(others, e, qs)
    requires JoinPairs(ps) + [125] + x == JoinPairs(qs) + [125] + y
    ensures ps == qs && x == y
    decreases members, |ps|
  {
    hide Canon, JoinPairs, Ends, MorePairs, Quote;
    PairsStart(ps, x);
    PairsStart(qs, y);
    if ps == [] {
      Cancel([125], x, y);
    } else {
      var p, q := ps[0], qs[0];
      var r, s := MorePairs(ps[1..], x), MorePairs(qs[1..], y);
      QuoteUnique(p.key, q.key, [58] + (p.text + r), [58] + (q.text + s));
      Cancel([58], p.text + r, q.text + s);
      var i :| 0 <= i < |members| && members[i].key == p.key && Canon(members[i].value, d) == Some(p.text);
      var j :| 0 <= j < |others| && others[j].key == q.key && Canon(others[j].value, e) == Some(q.text);
      MorePairsStart(ps[1..], x);
      MorePairsStart(qs[1..], y);
      TextUnique(members[i].value, others[j].value, d, e, r, s);
      if ps[1..] != [] {
        PairsUnique(members, others, d, e, ps[1..], qs[1..], x, y);
        assert ps == [p] + ps[1..] && qs == [q] + qs[1..];
      } else {
        Cancel([125], x, y);
        assert qs[1..] == [];
      }
    }
  }

  // ------------------------------------------------- the same JSON value

  ghost predicate DistinctKeys(members: seq<Member>) {
    forall i, j | 0 <= i < j < |members| :: members[i].key != members[j].key
  }

  /** No object has one key twice. */
  ghost predicate WellFormed(v: Json) {
    match v
    case Arr(items) => forall i | 0 <= i < |items| :: WellFormed(items[i])
    case Obj(members) => DistinctKeys(members) && forall i | 0 <= i < |members| :: WellFormed(members[i].value)
    case _ => true
  }

  /** The same value, whatever order the members of its objects stand in. */
  ghost predicate Same(a: Json, b: Json)
    decreases a
  {
    match a
    case Arr(items) => b.Arr? && |items| == |b.items| && forall i | 0 <= i < |items| :: Same(items[i], b.items[i])
    case Obj(members) =>
      && b.Obj?
      && (forall i | 0 <= i < |members| :: HasPartner(members[i], b.members))
      && (forall j | 0 <= j < |b.members| :: HasSource(members, b.members[j]))
    case _ => a == b
  }

  /** Some member of `ns` is the same as `m`. */
  ghost predicate HasPartner(m: Member, ns: seq<Member>)
    decreases m, 1, |ns|
  {
    ns != [] && (SameMember(m, ns[0]) || HasPartner(m, ns[1..]))
  }

  /** Some member of `ms` is the same as `n`. */
  ghost predicate HasSource(ms: seq<Member>, n: Member)
    decreases ms
  {
    ms != [] && (SameMember(ms[0], n) || HasSource(ms[1..], n))
  }

  ghost predicate SameMember(m: Member, n: Member)
    decreases m, 0
  {
    m.key == n.key && Same(m.value, n.value)
  }

  lemma {:induction false} PartnerAt(m: Member, ns: seq<Member>, j: nat)
    requires j < |ns| && SameMember(m, ns[j])
    ensures HasPartner(m, ns)
    decreases |ns|
  {
    hide SameMember;
    if j > 0 {
      PartnerAt(m, ns[1..], j - 1);
    }
  }

  lemma {:induction false} SourceAt(ms: seq<Member>, n: Member, i: nat)
    requires i < |ms| && SameMember(ms[i], n)
    ensures HasSource(ms, n)
    decreases |ms|
  {
    hide SameMember;
    if i > 0 {
      SourceAt(ms[1..], n, i - 1);
    }
  }

  lemma {:induction false} FindPartner(m: Member, ns: seq<Member>) returns (j: nat)
    requires HasPartner(m, ns)
    ensures j < |ns| && SameMember(m, ns[j])
    decreases |ns|
  {
    hide SameMember;
    if SameMember(m, ns[0]) {
      j := 0;
    } else {
      j := FindPartner(m, ns[1..]);
      j := j + 1;
    }
  }

  lemma {:induction false} FindSource(ms: seq<Member>, n: Member) returns (i: nat)
    requires HasSource(ms, n)
    ensures i < |ms| && SameMember(ms[i], n)
    decreases |ms|
  {
    hide SameMember;
    if SameMember(ms[0], n) {
      i := 0;
    } else {
      i := FindSource(ms[1..], n);
      i := i + 1;
    }
  }

  /** Values with one text are the same value. */
  lemma {:induction false} EqualTextsAreSame(a: Json, b: Json, d: nat, e: nat)
    requires Canon(a, d).Some? && Canon(a, d) == Canon(b, e)
    ensures Same(a, b)
    decreases a
  {
    hide Ends, Quote, Number, JoinTexts, JoinPairs, Sort, Less;
    var t := Canon(a, d).value;
    Lead(a, d);
    Lead(b, e);
    SameLead(a, b, t[0]);
    assert t + [] == t;
    match a
    case Null =>
    case Bool(_) =>
    case Num(n) => NumberUnique(n, b.n, [], []) by { EndsEmpty(); }
    case Str(v) => QuoteUnique(v, b.s, [], []);
    case Arr(items) =>
      var ts, us := CanonItems(items, d + 1).value, CanonItems(b.items, e + 1).value;
      ItemTexts(items, d + 1);
      ItemTexts(b.items, e + 1);
      Unbracket(91, JoinTexts(ts), 93, []);
      Unbracket(91, JoinTexts(us), 93, []);
      ItemsUnique(items, b.items, d + 1, e + 1, ts, us, [], []);
      forall i | 0 <= i < |items| ensures Same(items[i], b.items[i]) {
        EqualTextsAreSame(items[i], b.items[i], d + 1, e + 1);
      }
    case Obj(members) =>
      Unbracket(123, JoinPairs(Sort(CanonMembers(members, d + 1).value)), 125, []);
      Unbracket(123, JoinPairs(Sort(CanonMembers(b.members, e + 1).value)), 125, []);
      EqualObjects(members, b.members, d + 1, e + 1);
    case NotJson =>
  }

  lemma {:induction false} EqualObjects(ms: seq<Member>, ns: seq<Member>, d: nat, e: nat)
    requires CanonMembers(ms, d).Some? && CanonMembers(ns, e).Some?
    requires JoinPairs(Sort(CanonMembers(ms, d).value)) + [125] + [] == JoinPairs(Sort(CanonMembers(ns, e).value)) + [125] + []
    ensures forall i | 0 <= i < |ms| :: HasPartner(ms[i], ns)
    ensures forall j | 0 <= j < |ns| :: HasSource(ms, ns[j])
    decreases ms
  {
    hide Canon, CanonMembers, JoinPairs, Sort, AllFrom;
    var ps, qs := CanonMembers(ms, d).value, CanonMembers(ns, e).value;
    SortedPairs(ms, d);
    SortedPairs(ns, e);
    PairsUnique(ms, ns, d, e, Sort(ps), Sort(qs), [], []);
    SamePairs(ps, qs);
    MemberTexts(ms, d);
    MemberTexts(ns, e);
    forall i | 0 <= i < |ms| ensures HasPartner(ms[i], ns) {
      var j := IndexOf(ps[i], qs);
      EqualMembers(ms[i], ns[j], d, e);
      PartnerAt(ms[i], ns, j);
    }
    forall j | 0 <= j < |ns| ensures HasSource(ms, ns[j]) {
      var i := IndexOf(qs[j], ps);
      EqualMembers(ms[i], ns[j], d, e);
      SourceAt(ms, ns[j], i);
    }
  }

  lemma {:induction false} EqualMembers(m: Member, n: Member, d: nat, e: nat)
    requires m.key == n.key && Canon(m.value, d).Some? && Canon(m.value, d) == Canon(n.value, e)
    ensures SameMember(m, n)
    decreases m
  {
    EqualTextsAreSame(m.value, n.value, d, e);
  }

  lemma EndsEmpty()
    ensures Ends([])
  {
  }

  lemma SamePairs(ps: seq<Pair>, qs: seq<Pair>)
    requires Sort(ps) == Sort(qs)
    ensures forall p :: p in ps <==> p in qs
  {
    SortMembers(ps);
    SortMembers(qs);
  }

  lemma IndexOf(p: Pair, qs: seq<Pair>) returns (j: nat)
    requires p in qs
    ensures j < |qs| && qs[j] == p
  {
    j :| j < |qs| && qs[j] == p;
  }

  // ------------------------------------------------------- order of keys

  lemma {:induction false} LessTotal(a: Text, b: Text)
    ensures Less(a, b) || Less(b, a) || a == b
    ensures !(Less(a, b) && Less(b, a)) && !Less(a, a)
  {
    if a != [] {
      LessTotal(a[1..], if b != [] then b[1..] else []);
      assert b != [] && a[0] == b[0] && a[1..] == b[1..] ==> a == [a[0]] + a[1..] == b;
    }
  }

  lemma {:induction false} LessTransitive(a: Text, b: Text, c: Text)
    requires Less(a, b) && Less(b, c)
    ensures Less(a, c)
  {
    if a != [] && a[0] == b[0] && b[0] == c[0] {
      LessTransitive(a[1..], b[1..], c[1..]);
    }
  }

  /** Strictly ascending by key. */
  ghost predicate Ascending(ps: seq<Pair>) {
    ps != [] ==> (forall k | 1 <= k < |ps| :: Less(ps[0].key, ps[k].key)) && Ascending(ps[1..])
  }

  lemma {:induction false} InsertAscending(p: Pair, ps: seq<Pair>)
    requires Ascending(ps) && forall k | 0 <= k < |ps| :: ps[k].key != p.key
    ensures Ascending(Insert(p, ps))
  {
    hide Less;
    if ps != [] {
      LessTotal(ps[0].key, p.key);
      if Less(ps[0].key, p.key) {
        InsertAscending(p, ps[1..]);
        InsertMembers(p, ps[1..]);
        var r := Insert(p, ps);
        assert r[1..] == Insert(p, ps[1..]);
        forall k | 1 <= k < |r| ensures Less(r[0].key, r[k].key) {
          assert r[k] == r[1..][k - 1] && r[k] in Insert(p, ps[1..]);
        }
      } else {
        forall k | 0 <= k < |ps| ensures Less(p.key, ps[k].key) {
          if k > 0 {
            LessTransitive(p.key, ps[0].key, ps[k].key);
          }
        }
        assert ([p] + ps)[1..] == ps;
      }
    } else {
      assert [p][1..] == [];
    }
  }

  ghost predicate DistinctPairs(ps: seq<Pair>) {
    forall i, j | 0 <= i < j < |ps| :: ps[i].key != ps[j].key
  }

  lemma {:induction false} SortAscending(ps: seq<Pair>)
    requires DistinctPairs(ps)
    ensures Ascending(Sort(ps))
  {
    hide Less;
    if ps != [] {
      SortAscending(ps[1..]);
      SortMembers(ps[1..]);
      var sorted := Sort(ps[1..]);
      forall k | 0 <= k < |sorted| ensures sorted[k].key != ps[0].key {
        assert sorted[k] in ps[1..];
      }
      InsertAscending(ps[0], sorted);
    }
  }

  /** An ascending list is determined by its members. */
  lemma {:induction false} AscendingUnique(ps: seq<Pair>, qs: seq<Pair>)
    requires Ascending(ps) && Ascending(qs) && forall p :: p in ps <==> p in qs
    ensures ps == qs
  {
    hide Less;
    if ps == [] {
      assert forall k | 0 <= k < |qs| :: qs[k] in ps;
    } else {
      assert ps[0] in qs;
      assert qs != [] && qs[0] in ps;
      var i := IndexOf(ps[0], qs);
      var j := IndexOf(qs[0], ps);
      LessTotal(ps[0].key, qs[0].key);
      assert i == 0;
      TailMembers(ps);
      TailMembers(qs);
      AscendingUnique(ps[1..], qs[1..]);
      assert ps == [ps[0]] + ps[1..] && qs == [qs[0]] + qs[1..];
    }
  }

  lemma TailMembers(ps: seq<Pair>)
    requires Ascending(ps) && ps != []
    ensures forall p :: p in ps[1..] <==> p in ps && p != ps[0]
  {
    forall k | 1 <= k < |ps| ensures ps[k] != ps[0] {
      LessTotal(ps[0].key, ps[k].key);
    }
    hide Less;
    assert forall p :: p in ps <==> p == ps[0] || p in ps[1..];
  }

  // --------------------------------------------------- same value, same text

  lemma {:induction false} MembersAccepted(members: seq<Member>, depth: nat)
    ensures CanonMembers(members, depth).Some? <==> forall i | 0 <= i < |members| :: Canon(members[i].value, depth).Some?
  {
    hide Canon;
    if members != [] {
      MembersAccepted(members[1..], depth);
      assert forall i | 1 <= i < |members| :: members[i] == members[1..][i - 1];
      if CanonMembers(members[1..], depth).None? {
        var i :| 0 <= i < |members[1..]| && Canon(members[1..][i].value, depth).None?;
        assert Canon(members[i + 1].value, depth).None?;
      }
    }
  }

  lemma {:induction false} ItemsDetermined(items: seq<Json>, others: seq<Json>, depth: nat)
    requires |items| == |others| && forall i | 0 <= i < |items| :: Canon(items[i], depth) == Canon(others[i], depth)
    ensures CanonItems(items, depth) == CanonItems(others, depth)
  {
    hide Canon;
    if items != [] {
      ItemsDetermined(items[1..], others[1..], depth);
    }
  }

  /** The order of members never shows: the same value has the same text, or none either way. */
  lemma {:induction false} SameGivesEqualTexts(a: Json, b: Json, depth: nat)
    requires WellFormed(a) && WellFormed(b) && Same(a, b)
    ensures Canon(a, depth) == Canon(b, depth)
    decreases a
  {
    hide JoinTexts, JoinPairs, Sort;
    match a
    case Arr(items) =>
      forall i | 0 <= i < |items| ensures Canon(items[i], depth + 1) == Canon(b.items[i], depth + 1) {
        SameGivesEqualTexts(items[i], b.items[i], depth + 1);
      }
      ItemsDetermined(items, b.items, depth + 1);
    case Obj(members) => SameObjects(members, b.members, depth + 1);
    case _ =>
  }

  lemma {:induction false} SameObjects(ms: seq<Member>, ns: seq<Member>, depth: nat)
    requires WellFormed(Obj(ms)) && WellFormed(Obj(ns))
    requires forall i | 0 <= i < |ms| :: HasPartner(ms[i], ns)
    requires forall j | 0 <= j < |ns| :: HasSource(ms, ns[j])
    ensures CanonMembers(ms, depth).Some? <==> CanonMembers(ns, depth).Some?
    ensures CanonMembers(ms, depth).Some? ==> Sort(CanonMembers(ms, depth).value) == Sort(CanonMembers(ns, depth).value)
    decreases ms
  {
    hide Canon, CanonMembers, Sort;
    MembersAccepted(ms, depth);
    MembersAccepted(ns, depth);
    forall i | 0 <= i < |ms| ensures exists j :: 0 <= j < |ns| && Alike(ms[i], ns[j], depth) {
      var j := FindPartner(ms[i], ns);
      SameGivesEqualTexts(ms[i].value, ns[j].value, depth);
      assert Alike(ms[i], ns[j], depth);
    }
    forall j | 0 <= j < |ns| ensures exists i :: 0 <= i < |ms| && Alike(ms[i], ns[j], depth) {
      var i := FindSource(ms, ns[j]);
      SameGivesEqualTexts(ms[i].value, ns[j].value, depth);
      assert Alike(ms[i], ns[j], depth);
    }
    AlikeMembersSort(ms, ns, depth);
  }

  ghost predicate Alike(m: Member, n: Member, depth: nat) {
    m.key == n.key && Canon(m.value, depth) == Canon(n.value, depth)
  }

  lemma AlikeMembersSort(ms: seq<Member>, ns: seq<Member>, depth: nat)
    requires DistinctKeys(ms) && DistinctKeys(ns)
    requires forall i | 0 <= i < |ms| :: exists j :: 0 <= j < |ns| && Alike(ms[i], ns[j], depth)
    requires forall j | 0 <= j < |ns| :: exists i :: 0 <= i < |ms| && Alike(ms[i], ns[j], depth)
    ensures CanonMembers(ms, depth).Some? <==> CanonMembers(ns, depth).Some?
    ensures CanonMembers(ms, depth).Some? ==> Sort(CanonMembers(ms, depth).value) == Sort(CanonMembers(ns, depth).value)
  {
    hide Canon, CanonMembers, Sort;
    MembersAccepted(ms, depth);
    MembersAccepted(ns, depth);
    if CanonMembers(ms, depth).Some? && CanonMembers(ns, depth).Some? {
      var ps, qs := CanonMembers(ms, depth).value, CanonMembers(ns, depth).value;
      MemberTexts(ms, depth);
      MemberTexts(ns, depth);
      forall p | p in ps ensures p in qs {
        var i := IndexOf(p, ps);
        var j :| 0 <= j < |ns| && Alike(ms[i], ns[j], depth);
        assert qs[j] == p;
      }
      forall q | q in qs ensures q in ps {
        var j := IndexOf(q, qs);
        var i :| 0 <= i < |ms| && Alike(ms[i], ns[j], depth);
        assert ps[i] == q;
      }
      SortsAgree(ps, qs);
    }
  }

  lemma SortsAgree(ps: seq<Pair>, qs: seq<Pair>)
    requires DistinctPairs(ps) && DistinctPairs(qs) && forall p :: p in ps <==> p in qs
    ensures Sort(ps) == Sort(qs)
  {
    hide Sort, Ascending;
    SortAscending(ps);
    SortAscending(qs);
    SortMembers(ps);
    SortMembers(qs);
    AscendingUnique(Sort(ps), Sort(qs));
  }

  /** Two representable values have one canonical text exactly when they are the same JSON value. */
  lemma TextsDecideSameness(a: Json, b: Json, depth: nat)
    requires WellFormed(a) && WellFormed(b) && Canon(a, depth).Some?
    ensures Canon(a, depth) == Canon(b, depth) <==> Same(a, b)
  {
    if Canon(a, depth) == Canon(b, depth) {
      EqualTextsAreSame(a, b, depth, depth);
    }
    if Same(a, b) {
      SameGivesEqualTexts(a, b, depth);
    }
  }

  // ------------------------------------------------------------ call keys

  /** The text a call's duplicate key digests; None where the input cannot be represented. */
  function CallKey(name: Text, input: Json): Option<Text> {
    Canon(Arr([Str(name), input]), 0)
  }

  /** A call has a key, and so can be a repeat, exactly when its input is JSON of at most 63 levels. */
  lemma CallKeyExists(name: Text, input: Json)
    ensures CallKey(name, input).Some? <==> AllJson(input) && Height(input) <= 63
  {
    hide Canon;
    var items, rest := [Str(name), input], [input];
    CanonExists(Arr(items), 0);
    assert items[1..] == rest && rest[1..] == [];
    assert ItemsHeight(rest) == Higher(Height(rest[0]), ItemsHeight(rest[1..])) == Height(input);
    assert ItemsAllJson(rest) == AllJson(rest[0]) && ItemsAllJson(items) == ItemsAllJson(rest);
    assert ItemsHeight(items) == Higher(Height(items[0]), ItemsHeight(items[1..]));
  }

  /** Two calls share a key exactly when they have the same name and the same input. */
  lemma CallKeysAgree(name: Text, input: Json, other: Text, otherInput: Json)
    requires WellFormed(input) && WellFormed(otherInput) && CallKey(name, input).Some?
    ensures CallKey(name, input) == CallKey(other, otherInput) <==> name == other && Same(input, otherInput)
  {
    hide Canon;
    var a, b := Arr([Str(name), input]), Arr([Str(other), otherInput]);
    TextsDecideSameness(a, b, 0);
    assert a.items[0] == Str(name) && a.items[1] == input && b.items[0] == Str(other) && b.items[1] == otherInput;
    if name == other && Same(input, otherInput) {
      forall i | 0 <= i < 2 ensures Same(a.items[i], b.items[i]) {
      }
    }
  }
}
