/**
 Evidence that one request reuses the message prefix of the one before: two
 digests and two counts stand for the whole comparison.
 */
module PrefixEvidence {
  import opened Wrappers
  import opened PtyText
  import opened CanonicalJson
  import opened JsonWriting

  const MAX_ITEMS := 4096
  const MAX_BYTES := 8 * 1024 * 1024

  datatype Evidence = Evidence(
    reusableHash: Option<string>, reusableItems: Option<nat>, comparedHash: Option<string>, comparedItems: Option<nat>)

  const Unknown := Evidence(None, None, None, None)

  // ------------------------------------------------------- block markers

  /** "content" and "output", the fields that hold protocol blocks. */
  const CONTENT: Text := [99, 111, 110, 116, 101, 110, 116]
  const OUTPUT: Text := [111, 117, 116, 112, 117, 116]

  /** "cache_control" and "prompt_cache_breakpoint". */
  const CACHE_CONTROL: Text := [99, 97, 99, 104, 101, 95, 99, 111, 110, 116, 114, 111, 108]
  const BREAKPOINT: Text := [112, 114, 111, 109, 112, 116, 95, 99, 97, 99, 104, 101, 95, 98, 114, 101, 97, 107, 112, 111, 105, 110, 116]

  predicate IsMarker(m: Member) {
    m.key == CACHE_CONTROL || m.key == BREAKPOINT
  }

  function WithoutMarkers(members: seq<Member>): seq<Member> {
    if members == [] then []
    else (if IsMarker(members[0]) then [] else [members[0]]) + WithoutMarkers(members[1..])
  }

  function StripBlock(block: Json): Json {
    if block.Obj? then Obj(WithoutMarkers(block.members)) else block
  }

  function StripBlocks(blocks: seq<Json>): (r: seq<Json>)
    ensures |r| == |blocks| && forall i | 0 <= i < |blocks| :: r[i] == StripBlock(blocks[i])
  {
    if blocks == [] then [] else [StripBlock(blocks[0])] + StripBlocks(blocks[1..])
  }

  function StripField(m: Member): Member {
    if (m.key == CONTENT || m.key == OUTPUT) && m.value.Arr? then Member(m.key, Arr(StripBlocks(m.value.items))) else m
  }

  function StripFields(members: seq<Member>): (r: seq<Member>)
    ensures |r| == |members| && forall i | 0 <= i < |members| :: r[i] == StripField(members[i])
  {
    if members == [] then [] else [StripField(members[0])] + StripFields(members[1..])
  }

  /** The item without the cache markers of its protocol blocks; nothing else changes. */
  function WithoutBlockMarkers(item: Json): Json {
    if item.Obj? then Obj(StripFields(item.members)) else item
  }

  /** The two marker members go, every other member stays as often as it was there. */
  lemma {:induction false} OnlyMarkersGo(members: seq<Member>, m: Member)
    ensures multiset(WithoutMarkers(members))[m] == if m.key == CACHE_CONTROL || m.key == BREAKPOINT then 0 else multiset(members)[m]
  {
    if members != [] {
      OnlyMarkersGo(members[1..], m);
      assert members == [members[0]] + members[1..];
    }
  }

  /** Two lists of members that differ only in where markers stand. */
  ghost predicate MarkersMoved(a: seq<Member>, b: seq<Member>) {
    WithoutMarkers(a) == WithoutMarkers(b)
  }

  lemma {:induction false} MarkerAnywhere(members: seq<Member>, at: nat, marker: Member)
    requires at <= |members| && IsMarker(marker)
    ensures MarkersMoved(members[..at] + [marker] + members[at..], members)
  {
    var with := members[..at] + [marker] + members[at..];
    if at == 0 {
      assert with[1..] == members;
    } else {
      MarkerAnywhere(members[1..], at - 1, marker);
      assert with[0] == members[0];
      assert with[1..] == members[1..][..at - 1] + [marker] + members[1..][at - 1..];
    }
  }

  /** Moving a marker onto, off or within a protocol block does not change the stripped item. */
  lemma MarkersDoNotCount(members: seq<Member>, field: nat, block: nat, moved: seq<Member>)
    requires field < |members| && (members[field].key == CONTENT || members[field].key == OUTPUT) && members[field].value.Arr?
    requires block < |members[field].value.items| && members[field].value.items[block].Obj?
    requires MarkersMoved(moved, members[field].value.items[block].members)
    ensures var items := members[field].value.items;
            var other := members[field := Member(members[field].key, Arr(items[block := Obj(moved)]))];
            WithoutBlockMarkers(Obj(other)) == WithoutBlockMarkers(Obj(members))
  {
    var items := members[field].value.items;
    var other := members[field := Member(members[field].key, Arr(items[block := Obj(moved)]))];
    assert StripBlocks(items[block := Obj(moved)]) == StripBlocks(items);
    assert StripFields(other) == StripFields(members);
  }

  // ------------------------------------------------------------- framing

  /** One framed item: its length, a colon, its text. */
  function Frame(text: Text): Text {
    Decimal(|text|) + ([58] + text)
  }

  function Stream(texts: seq<Text>): Text {
    if texts == [] then [] else Frame(texts[0]) + Stream(texts[1..])
  }

  lemma {:induction false} StreamAppend(a: seq<Text>, b: seq<Text>)
    ensures Stream(a + b) == Stream(a) + Stream(b)
  {
    if a == [] {
      assert a + b == b;
    } else {
      assert (a + b)[1..] == a[1..] + b;
      StreamAppend(a[1..], b);
    }
  }

  lemma StreamPush(texts: seq<Text>, i: nat)
    requires i < |texts|
    ensures Stream(texts[..i + 1]) == Stream(texts[..i]) + Frame(texts[i])
  {
    StreamAppend(texts[..i], [texts[i]]);
    assert texts[..i + 1] == texts[..i] + [texts[i]];
    assert [texts[i]][1..] == [];
  }

  /** The frame at the front of a stream can be told from what follows. */
  lemma FrameUnique(s: Text, t: Text, x: Text, y: Text)
    requires Frame(s) + x == Frame(t) + y
    ensures s == t && x == y
  {
    hide Decimal;
    assert Decimal(|s|) + ([58] + s + x) == Frame(s) + x;
    assert Decimal(|t|) + ([58] + t + y) == Frame(t) + y;
    DecimalUnique(|s|, |t|, [58] + s + x, [58] + t + y);
    assert ([58] + s + x)[1..1 + |s|] == s && ([58] + t + y)[1..1 + |t|] == t;
    assert ([58] + s + x)[1 + |s|..] == x && ([58] + t + y)[1 + |t|..] == y;
  }

  lemma FrameNotEmpty(t: Text, x: Text)
    ensures Frame(t) + x != []
  {
    assert (Frame(t) + x)[|Decimal(|t|)|] == 58;
  }

  /** The framing is uniquely decodable. */
  lemma {:induction false} StreamUnique(a: seq<Text>, b: seq<Text>)
    requires Stream(a) == Stream(b)
    ensures a == b
  {
    hide Frame;
    if a == [] {
      if b != [] {
        FrameNotEmpty(b[0], Stream(b[1..]));
      }
    } else if b == [] {
      FrameNotEmpty(a[0], Stream(a[1..]));
    } else {
      FrameUnique(a[0], b[0], Stream(a[1..]), Stream(b[1..]));
      StreamUnique(a[1..], b[1..]);
      assert a == [a[0]] + a[1..] && b == [b[0]] + b[1..];
    }
  }

  // ------------------------------------------------------------ evidence

  /** The stringified, marker-free items; None where one has no text. */
  function Texts(items: seq<Json>, stringify: Json -> Option<Text>): (r: Option<seq<Text>>)
    ensures r.Some? ==> |r.value| == |items| && forall i | 0 <= i < |items| :: stringify(WithoutBlockMarkers(items[i])) == Some(r.value[i])
    ensures r.None? ==> exists i :: 0 <= i < |items| && stringify(WithoutBlockMarkers(items[i])).None?
  {
    if items == [] then Some([])
    else
      var last, front := stringify(WithoutBlockMarkers(items[|items| - 1])), Texts(items[..|items| - 1], stringify);
      if front.None? || last.None? then None else Some(front.value + [last.value])
  }

  function ByteCount(texts: seq<Text>): nat {
    if texts == [] then 0 else ByteCount(texts[..|texts| - 1]) + |Encode(texts[|texts| - 1])|
  }

  /** The request is small enough, and every item has a text, to be exact evidence. */
  ghost predicate Usable(items: Option<seq<Json>>, stringify: Json -> Option<Text>) {
    items.Some? && |items.value| <= MAX_ITEMS && Texts(items.value, stringify).Some?
    && ByteCount(Texts(items.value, stringify).value) <= MAX_BYTES
  }

  ghost predicate Comparable(n: nat, previous: Option<Evidence>) {
    previous.Some? && previous.value.reusableItems.Some? && previous.value.reusableItems.value <= n && previous.value.reusableHash.Some?
  }

  lemma {:induction false} ByteCountGrows(texts: seq<Text>, k: nat)
    requires k <= |texts|
    ensures ByteCount(texts[..k]) <= ByteCount(texts)
  {
    if k < |texts| {
      assert texts[..|texts| - 1][..k] == texts[..k];
      ByteCountGrows(texts[..|texts| - 1], k);
    } else {
      assert texts[..k] == texts;
    }
  }

  lemma {:induction false} TextsPrefix(items: seq<Json>, stringify: Json -> Option<Text>, k: nat)
    requires k <= |items| && Texts(items, stringify).Some?
    ensures Texts(items[..k], stringify) == Some(Texts(items, stringify).value[..k])
  {
    if k < |items| {
      assert items[..|items| - 1][..k] == items[..k];
      TextsPrefix(items[..|items| - 1], stringify, k);
      var front := Texts(items[..|items| - 1], stringify).value;
      assert Texts(items, stringify).value[..k] == front[..k];
    } else {
      assert items[..k] == items;
      assert Texts(items, stringify).value[..k] == Texts(items, stringify).value;
    }
  }

  /**
   One pass over the items. `digest` is the hash of what was fed to it; the
   running hash is copied where the previous request ended.
   */
  method CollectEvidence(items: Option<seq<Json>>, previous: Option<Evidence>,
                         stringify: Json -> Option<Text>, digest: Text -> string) returns (e: Evidence)
    ensures !Usable(items, stringify) ==> e == Unknown
    ensures Usable(items, stringify) ==>
              var texts := Texts(items.value, stringify).value;
              && e.reusableHash == Some(digest(Stream(texts))) && e.reusableItems == Some(|texts|)
              && (if Comparable(|texts|, previous)
                  then e.comparedItems == previous.value.reusableItems
                       && e.comparedHash == Some(digest(Stream(texts[..previous.value.reusableItems.value])))
                  else e.comparedItems == None && e.comparedHash == None)
  {
    hide Frame, Encode, Stream, ByteCount;
    if items.None? || |items.value| > MAX_ITEMS {
      return Unknown;
    }
    var list := items.value;
    var boundary: nat := if previous.Some? && previous.value.reusableItems.Some? then previous.value.reusableItems.value else 0;
    var comparable := previous.Some? && previous.value.reusableItems.Some? && boundary <= |list| && previous.value.reusableHash.Some?;
    var fed: Text := [];
    var compared := if comparable && boundary == 0 then Some(digest(fed)) else None;
    var bytes := 0;
    ghost var texts: seq<Text> := [];
    NothingFed(list, stringify);
    for i := 0 to |list|
      invariant |texts| == i && Texts(list[..i], stringify) == Some(texts)
      invariant fed == Stream(texts) && bytes == ByteCount(texts) <= MAX_BYTES
      invariant compared == if comparable && boundary <= i then Some(digest(Stream(texts[..boundary]))) else None
    {
      var text := stringify(WithoutBlockMarkers(list[i]));
      FeedNext(list, stringify, i, texts);
      if text.None? {
        return Unknown;
      }
      bytes := bytes + |Encode(text.value)|;
      if bytes > MAX_BYTES {
        return Unknown;
      }
      fed := fed + Frame(text.value);
      ghost var before := texts;
      texts := texts + [text.value];
      assert boundary <= i ==> texts[..boundary] == before[..boundary];
      if comparable && i + 1 == boundary {
        assert texts[..boundary] == texts;
        compared := Some(digest(fed));
      }
    }
    assert list[..|list|] == list;
    e := Evidence(Some(digest(fed)), Some(|list|), compared, if comparable then Some(boundary) else None);
  }

  lemma NothingFed(items: seq<Json>, stringify: Json -> Option<Text>)
    ensures Texts(items[..0], stringify) == Some([]) && Stream([]) == [] && ByteCount([]) == 0
  {
  }

  /** One more item: its frame and bytes are added, or the whole request has no exact evidence. */
  lemma FeedNext(items: seq<Json>, stringify: Json -> Option<Text>, i: nat, texts: seq<Text>)
    requires i < |items| && Texts(items[..i], stringify) == Some(texts)
    ensures var text := stringify(WithoutBlockMarkers(items[i]));
            if text.None? then Texts(items, stringify).None?
            else
              var more := texts + [text.value];
              && Texts(items[..i + 1], stringify) == Some(more)
              && Stream(more) == Stream(texts) + Frame(text.value)
              && ByteCount(more) == ByteCount(texts) + |Encode(text.value)|
              && (Texts(items, stringify).Some? ==> ByteCount(more) <= ByteCount(Texts(items, stringify).value))
  {
    hide Frame, Encode;
    var text := stringify(WithoutBlockMarkers(items[i]));
    assert items[..i + 1][..i] == items[..i];
    if text.Some? {
      var more := texts + [text.value];
      assert more[..i + 1] == more && more[..i] == texts;
      StreamPush(more, i);
      if Texts(items, stringify).Some? {
        TextsPrefix(items, stringify, i + 1);
        ByteCountGrows(Texts(items, stringify).value, i + 1);
      }
    }
  }

  /** Whether the reusable prefix changed, as far as the evidence tells. */
  function PrefixChanged(previous: Evidence, current: Evidence): Option<bool> {
    if previous.reusableHash.None? || current.reusableHash.None? || previous.reusableItems.None? || current.reusableItems.None? then None
    else if current.reusableItems.value < previous.reusableItems.value then Some(true)
    else if current.comparedItems != previous.reusableItems || current.comparedHash.None? then None
    else Some(current.comparedHash != previous.reusableHash)
  }

  ghost predicate Injective(digest: Text -> string) {
    forall s: Text, t: Text :: digest(s) == digest(t) ==> s == t
  }

  /** What `CollectEvidence` yields for usable items. */
  ghost predicate EvidenceOf(e: Evidence, texts: seq<Text>, previous: Option<Evidence>, digest: Text -> string) {
    && e.reusableHash == Some(digest(Stream(texts))) && e.reusableItems == Some(|texts|)
    && (Comparable(|texts|, previous) ==>
          && e.comparedItems == previous.value.reusableItems
          && e.comparedHash == Some(digest(Stream(texts[..previous.value.reusableItems.value]))))
  }

  /** With a collision-free digest the answer is exact: changed, unless the previous texts are a prefix of the current ones. */
  lemma PrefixChangedIsExact(before: seq<Text>, after: seq<Text>, older: Option<Evidence>, p: Evidence, c: Evidence, digest: Text -> string)
    requires Injective(digest) && EvidenceOf(p, before, older, digest) && EvidenceOf(c, after, Some(p), digest)
    ensures PrefixChanged(p, c) == Some(!(before <= after))
  {
    if |before| <= |after| {
      assert before <= after <==> after[..|before|] == before;
      if digest(Stream(after[..|before|])) == digest(Stream(before)) {
        StreamUnique(after[..|before|], before);
      }
    }
  }

  /** The same over the items themselves, when stringifying is injective too. */
  lemma PrefixChangedIsExactOnItems(before: seq<Json>, after: seq<Json>, older: Option<Evidence>, p: Evidence, c: Evidence,
                                    stringify: Json -> Option<Text>, digest: Text -> string)
    requires Texts(before, stringify).Some? && Texts(after, stringify).Some?
    requires forall a: Json, b: Json :: stringify(a).Some? && stringify(a) == stringify(b) ==> a == b
    requires Injective(digest) && EvidenceOf(p, Texts(before, stringify).value, older, digest)
    requires EvidenceOf(c, Texts(after, stringify).value, Some(p), digest)
    ensures PrefixChanged(p, c) == Some(!(|before| <= |after|
              && forall i | 0 <= i < |before| :: WithoutBlockMarkers(before[i]) == WithoutBlockMarkers(after[i])))
  {
    hide WithoutBlockMarkers, EvidenceOf;
    var s, t := Texts(before, stringify).value, Texts(after, stringify).value;
    PrefixChangedIsExact(s, t, older, p, c, digest);
    if |before| <= |after| && forall i | 0 <= i < |before| :: WithoutBlockMarkers(before[i]) == WithoutBlockMarkers(after[i]) {
      assert forall i | 0 <= i < |s| :: s[i] == t[i];
    }
    if s <= t {
      assert forall i | 0 <= i < |s| :: s[i] == t[i];
    }
  }

  /** For JSON items nothing is left to assume but a collision-free digest. */
  lemma PrefixChangedIsExactForJson(before: seq<Json>, after: seq<Json>, older: Option<Evidence>, p: Evidence, c: Evidence,
                                    digest: Text -> string)
    requires Texts(before, Written).Some? && Texts(after, Written).Some? && Injective(digest)
    requires EvidenceOf(p, Texts(before, Written).value, older, digest)
    requires EvidenceOf(c, Texts(after, Written).value, Some(p), digest)
    ensures PrefixChanged(p, c) == Some(!(|before| <= |after|
              && forall i | 0 <= i < |before| :: WithoutBlockMarkers(before[i]) == WithoutBlockMarkers(after[i])))
  {
    hide Written, Texts, WithoutBlockMarkers, EvidenceOf, PrefixChanged, Injective;
    forall a: Json, b: Json | Written(a).Some? && Written(a) == Written(b) ensures a == b {
      WrittenIsInjective(a, b);
    }
    PrefixChangedIsExactOnItems(before, after, older, p, c, Written, digest);
  }
}
