/**
 The text JSON.stringify gives a JSON value, members in the order they stand
 in: no two values share one.
 */
module JsonWriting {
  import opened Wrappers
  import opened PtyText
  import opened CanonicalJson

  /** The text of a value; None where some part of it is not JSON. */
  function Written(v: Json): Option<Text> {
    match v
    case Null => Some([110, 117, 108, 108])
    case Bool(b) => Some(if b then [116, 114, 117, 101] else [102, 97, 108, 115, 101])
    case Num(n) => Some(Number(n))
    case Str(s) => Some(Quote(s))
    case Arr(items) =>
      var texts := WrittenItems(items);
      if texts.None? then None else Some([91] + JoinTexts(texts.value) + [93])
    case Obj(members) =>
      var pairs := WrittenMembers(members);
      if pairs.None? then None else Some([123] + JoinPairs(pairs.value) + [125])
    case NotJson => None
  }

  function WrittenItems(items: seq<Json>): (r: Option<seq<Text>>)
    ensures r.Some? ==> |r.value| == |items|
  {
    if items == [] then Some([])
    else
      var first, rest := Written(items[0]), WrittenItems(items[1..]);
      if first.None? || rest.None? then None else Some([first.value] + rest.value)
  }

  function WrittenMembers(members: seq<Member>): (r: Option<seq<Pair>>)
    ensures r.Some? ==> |r.value| == |members|
  {
    if members == [] then Some([])
    else
      var first, rest := Written(members[0].value), WrittenMembers(members[1..]);
      if first.None? || rest.None? then None else Some([Pair(members[0].key, first.value)] + rest.value)
  }

  /** A value has a text exactly when every part of it is JSON. */
  lemma {:induction false} WrittenExists(v: Json)
    ensures Written(v).Some? <==> AllJson(v)
    decreases v
  {
    match v
    case Arr(items) => WrittenItemsExist(items);
    case Obj(members) => WrittenMembersExist(members);
    case _ =>
  }

  lemma {:induction false} WrittenItemsExist(items: seq<Json>)
    ensures WrittenItems(items).Some? <==> ItemsAllJson(items)
    decreases items
  {
    if items != [] {
      WrittenExists(items[0]);
      WrittenItemsExist(items[1..]);
    }
  }

  lemma {:induction false} WrittenMembersExist(members: seq<Member>)
    ensures WrittenMembers(members).Some? <==> MembersAllJson(members)
    decreases members
  {
    if members != [] {
      WrittenExists(members[0].value);
      WrittenMembersExist(members[1..]);
    }
  }

  lemma Lead(v: Json)
    requires Written(v).Some?
    ensures var t := Written(v).value;
            t != [] && Leads(v, t[0]) && t[0] != 93
  {
    hide Escape, Decimal;
  }

  /** A text and what follows it determine the value. */
  lemma {:induction false} WrittenUnique(a: Json, b: Json, x: Text, y: Text)
    requires Written(a).Some? && Written(b).Some? && Ends(x) && Ends(y)
    requires Written(a).value + x == Written(b).value + y
    ensures a == b && x == y
    decreases a, 1
  {
    hide Ends, Quote, Number, JoinTexts, JoinPairs;
    Lead(a);
    Lead(b);
    var s, t := Written(a).value, Written(b).value;
    assert (s + x)[0] == s[0] && (t + y)[0] == t[0];
    SameLead(a, b, s[0]);
    match a
    case Null => Cancel(s, x, y);
    case Bool(_) => Cancel(s, x, y);
    case Num(n) => NumberUnique(n, b.n, x, y);
    case Str(v) => QuoteUnique(v, b.s, x, y);
    case Arr(items) =>
      Unbracket(91, JoinTexts(WrittenItems(items).value), 93, x);
      Unbracket(91, JoinTexts(WrittenItems(b.items).value), 93, y);
      ItemsUnique(items, b.items, x, y);
    case Obj(members) =>
      Unbracket(123, JoinPairs(WrittenMembers(members).value), 125, x);
      Unbracket(123, JoinPairs(WrittenMembers(b.members).value), 125, y);
      MembersUnique(members, b.members, x, y);
    case NotJson =>
  }

  /** Whether the list is empty shows in the first character. */
  lemma ItemsStart(items: seq<Json>, x: Text)
    requires WrittenItems(items).Some?
    ensures var ts := WrittenItems(items).value;
            var whole := JoinTexts(ts) + [93] + x;
            && (whole[0] == 93 <==> items == []) && (items == [] ==> whole == [93] + x)
            && (items != [] ==> ts[1..] == WrittenItems(items[1..]).value && ts[0] == Written(items[0]).value
                                && whole == ts[0] + More(ts[1..], 93, x))
  {
    hide More;
    var ts := WrittenItems(items).value;
    if items != [] {
      hide JoinTexts;
      ListStep(ts, 93, x);
      Lead(items[0]);
      assert (ts[0] + More(ts[1..], 93, x))[0] == ts[0][0];
    } else {
      assert [] + [93] + x == [93] + x;
    }
  }

  lemma {:induction false} ItemsUnique(items: seq<Json>, others: seq<Json>, x: Text, y: Text)
    requires WrittenItems(items).Some? && WrittenItems(others).Some?
    requires JoinTexts(WrittenItems(items).value) + [93] + x == JoinTexts(WrittenItems(others).value) + [93] + y
    ensures items == others && x == y
    decreases items, 0
  {
    hide JoinTexts, Ends, More;
    ItemsStart(items, x);
    ItemsStart(others, y);
    if items == [] {
      Cancel([93], x, y);
    } else {
      var ts, us := WrittenItems(items[1..]).value, WrittenItems(others[1..]).value;
      MoreStart(ts, 93, x);
      MoreStart(us, 93, y);
      WrittenUnique(items[0], others[0], More(ts, 93, x), More(us, 93, y));
      if ts != [] {
        ItemsUnique(items[1..], others[1..], x, y);
        assert items == [items[0]] + items[1..] && others == [others[0]] + others[1..];
      } else {
        Cancel([93], x, y);
      }
    }
  }

  lemma MembersStart(members: seq<Member>, x: Text)
    requires WrittenMembers(members).Some?
    ensures var ps := WrittenMembers(members).value;
            var whole := JoinPairs(ps) + [125] + x;
            && (whole[0] == 125 <==> members == []) && (members == [] ==> whole == [125] + x)
            && (members != [] ==> ps[1..] == WrittenMembers(members[1..]).value
                                  && ps[0] == Pair(members[0].key, Written(members[0].value).value)
                                  && whole == Quote(ps[0].key) + ([58] + (ps[0].text + MorePairs(ps[1..], x))))
  {
    hide Written, JoinPairs, MorePairs, Quote;
    PairsStart(WrittenMembers(members).value, x);
  }

  lemma {:induction false} MembersUnique(members: seq<Member>, others: seq<Member>, x: Text, y: Text)
    requires WrittenMembers(members).Some? && WrittenMembers(others).Some?
    requires JoinPairs(WrittenMembers(members).value) + [125] + x == JoinPairs(WrittenMembers(others).value) + [125] + y
    ensures members == others && x == y
    decreases members, 0
  {
    hide JoinPairs, Ends, MorePairs, Quote;
    MembersStart(members, x);
    MembersStart(others, y);
    if members == [] {
      Cancel([125], x, y);
    } else {
      var m, n := members[0], others[0];
      var ps, qs := WrittenMembers(members[1..]).value, WrittenMembers(others[1..]).value;
      var r, s := MorePairs(ps, x), MorePairs(qs, y);
      var t, u := Written(m.value).value, Written(n.value).value;
      QuoteUnique(m.key, n.key, [58] + (t + r), [58] + (u + s));
      Cancel([58], t + r, u + s);
      MorePairsStart(ps, x);
      MorePairsStart(qs, y);
      WrittenUnique(m.value, n.value, r, s);
      if ps != [] {
        MembersUnique(members[1..], others[1..], x, y);
        assert members == [m] + members[1..] && others == [n] + others[1..];
      } else {
        Cancel([125], x, y);
      }
    }
  }

  /** No two JSON values have the same text. */
  lemma WrittenIsInjective(a: Json, b: Json)
    requires Written(a).Some? && Written(a) == Written(b)
    ensures a == b
  {
    hide Written;
    WrittenUnique(a, b, [], []);
  }
}
