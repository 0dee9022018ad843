/**
 Prune planning and application: which old tool results are stubbed and which
 thinking blocks are dropped, and why the history stays acceptable.
 */
module Prune {
  import opened Wrappers
  import opened ToolHistory
  import opened Compaction
  import opened ToolTurn
  import opened Conversation

  const MAX_TARGETS := 256
  const HIGH_WATER: real := 0.8
  const LOW_WATER: real := 0.6

  /**
   A stored block. `gain` is what pruning it would reclaim: 0 for a block
   whose payload is too small, unreadable or refused by the receipt rules.
   */
  datatype Stored = Stored(block: Block, stubbed: bool, gain: nat)

  datatype Body = Plain(text: string) | Parts(parts: seq<Stored>)

  datatype Entry = Entry(sseq: nat, fromUser: bool, body: Body, tokens: nat)

  /** One target: an address, what to do there, and the block it was chosen for. */
  datatype Pick = Pick(sseq: nat, index: nat, drop: bool, original: Stored)

  function PartsOf(e: Entry): seq<Stored> {
    if e.body.Parts? then e.body.parts else []
  }

  function BlocksIn(parts: seq<Stored>): (r: seq<Block>)
    ensures |r| == |parts| && forall i | 0 <= i < |parts| :: r[i] == parts[i].block
  {
    if parts == [] then [] else [parts[0].block] + BlocksIn(parts[1..])
  }

  /** The message the projector sees. */
  function Seen(e: Entry): Message {
    Message(e.fromUser, if e.body.Plain? then Str(e.body.text) else Blocks(BlocksIn(e.body.parts)), e.tokens)
  }

  function SeenAll(es: seq<Entry>): (r: seq<Message>)
    ensures |r| == |es| && forall i | 0 <= i < |es| :: r[i] == Seen(es[i])
  {
    if es == [] then [] else [Seen(es[0])] + SeenAll(es[1..])
  }

  // ------------------------------------------------------- the protected end

  function EntryTokens(es: seq<Entry>): nat {
    if es == [] then 0 else es[0].tokens + EntryTokens(es[1..])
  }

  function EntryPrompts(es: seq<Entry>): nat {
    if es == [] then 0 else (if IsPrompt(Seen(es[0])) then 1 else 0) + EntryPrompts(es[1..])
  }

  lemma EntrySuffix(es: seq<Entry>, i: nat)
    requires i < |es|
    ensures EntryTokens(es[i..]) == es[i].tokens + EntryTokens(es[i + 1..])
    ensures EntryPrompts(es[i..]) == (if IsPrompt(Seen(es[i])) then 1 else 0) + EntryPrompts(es[i + 1..])
  {
    assert es[i..][1..] == es[i + 1..];
  }

  /** From `start` on nothing is touched: the last two prompts and, as far as there is any, `protectTokens` worth. */
  ghost predicate ProtectedFrom(es: seq<Entry>, start: nat, protectTokens: nat) {
    && start <= |es|
    && (start == 0 || (EntryPrompts(es[start..]) >= PROTECT_TURNS && EntryTokens(es[start..]) >= protectTokens))
  }

  /** And nothing more than that is protected. */
  ghost predicate Tight(es: seq<Entry>, start: nat, protectTokens: nat) {
    start < |es| ==> EntryPrompts(es[start + 1..]) < PROTECT_TURNS || EntryTokens(es[start + 1..]) < protectTokens
  }

  method ProtectedStart(es: seq<Entry>, protectTokens: nat) returns (start: nat)
    ensures start <= |es| && ProtectedFrom(es, start, protectTokens) && Tight(es, start, protectTokens)
  {
    hide IsPrompt;
    var userTurns := 0;
    var guarded := 0;
    start := |es|;
    while start > 0 && userTurns < PROTECT_TURNS
      invariant start <= |es| && userTurns == EntryPrompts(es[start..]) && guarded == EntryTokens(es[start..])
      invariant start < |es| ==> EntryPrompts(es[start + 1..]) < PROTECT_TURNS
    {
      EntrySuffix(es, start - 1);
      start := start - 1;
      guarded := guarded + es[start].tokens;
      var prompt := IsUserPrompt(Seen(es[start]));
      if prompt {
        userTurns := userTurns + 1;
      }
    }
    while start > 0 && guarded < protectTokens
      invariant start <= |es| && guarded == EntryTokens(es[start..]) && (start > 0 ==> EntryPrompts(es[start..]) >= PROTECT_TURNS)
      invariant Tight(es, start, protectTokens) || start == |es|
    {
      EntrySuffix(es, start - 1);
      start := start - 1;
      guarded := guarded + es[start].tokens;
    }
  }

  // ------------------------------------------------------------- planning

  predicate IsThinking(b: Stored) {
    b.block.Thinking?
  }

  predicate SomeVisible(parts: seq<Stored>) {
    exists p :: p in parts && !IsThinking(p)
  }

  /** The block can be pruned: an unstubbed tool result, or thinking beside something visible. */
  predicate Eligible(parts: seq<Stored>, i: nat)
    requires i < |parts|
  {
    && parts[i].gain > 0
    && ((parts[i].block.ToolResult? && !parts[i].stubbed) || (IsThinking(parts[i]) && SomeVisible(parts)))
  }

  /** The candidates of one message from block `i` on: everything eligible, up to and including the first drop. */
  function Candidates(e: Entry, i: nat): seq<Pick>
    decreases |PartsOf(e)| - i
  {
    var parts := PartsOf(e);
    if i >= |parts| then []
    else if !Eligible(parts, i) then Candidates(e, i + 1)
    else
      var pick := Pick(e.sseq, i, IsThinking(parts[i]), parts[i]);
      if pick.drop then [pick] else [pick] + Candidates(e, i + 1)
  }

  function AllCandidates(es: seq<Entry>): seq<Pick> {
    if es == [] then [] else Candidates(es[0], 0) + AllCandidates(es[1..])
  }

  /** As many as it takes to reach the quota, and no more than there is room for. */
  function Take(picks: seq<Pick>, quota: real, room: nat): seq<Pick> {
    if picks == [] || quota <= 0.0 || room == 0 then []
    else [picks[0]] + Take(picks[1..], quota - picks[0].original.gain as real, room - 1)
  }

  lemma TakeStep(pick: Pick, rest: seq<Pick>, quota: real, room: nat)
    requires quota > 0.0 && room > 0
    ensures Take([pick] + rest, quota, room) == [pick] + Take(rest, quota - pick.original.gain as real, room - 1)
  {
    assert ([pick] + rest)[1..] == rest;
  }

  ghost predicate Ascending(es: seq<Entry>) {
    forall i, j | 0 <= i < j < |es| :: es[i].sseq < es[j].sseq
  }

  function Insert(e: Entry, es: seq<Entry>): seq<Entry> {
    if es == [] || e.sseq <= es[0].sseq then [e] + es else [es[0]] + Insert(e, es[1..])
  }

  function SortBySseq(es: seq<Entry>): seq<Entry> {
    if es == [] then [] else Insert(es[0], SortBySseq(es[1..]))
  }

  ghost predicate DistinctSseq(es: seq<Entry>) {
    forall i, j | 0 <= i < j < |es| :: es[i].sseq != es[j].sseq
  }

  lemma {:induction false} InsertSorted(e: Entry, es: seq<Entry>)
    requires Ascending(es) && forall i | 0 <= i < |es| :: es[i].sseq != e.sseq
    ensures Ascending(Insert(e, es)) && forall x :: x in Insert(e, es) <==> x == e || x in es
  {
    if es != [] && e.sseq > es[0].sseq {
      InsertSorted(e, es[1..]);
      var rest := Insert(e, es[1..]);
      forall i | 0 <= i < |rest| ensures es[0].sseq < rest[i].sseq {
        assert rest[i] in rest;
      }
      assert es == [es[0]] + es[1..];
    }
  }

  lemma {:induction false} SortSorted(es: seq<Entry>)
    requires DistinctSseq(es)
    ensures Ascending(SortBySseq(es)) && forall x :: x in SortBySseq(es) <==> x in es
  {
    if es != [] {
      SortSorted(es[1..]);
      var sorted := SortBySseq(es[1..]);
      forall i | 0 <= i < |sorted| ensures sorted[i].sseq != es[0].sseq {
        assert sorted[i] in es[1..];
      }
      InsertSorted(es[0], sorted);
      assert es == [es[0]] + es[1..];
    }
  }

  /** Duplicate sequence numbers make the whole plan empty. */
  method NormalizeMessages(es: seq<Entry>) returns (normalized: Option<seq<Entry>>)
    ensures normalized.Some? <==> DistinctSseq(es)
    ensures normalized.Some? ==> normalized.value == SortBySseq(es)
  {
    var seen: set<nat> := {};
    for i := 0 to |es|
      invariant DistinctSseq(es[..i]) && forall s :: s in seen <==> exists k :: 0 <= k < i && es[k].sseq == s
    {
      if es[i].sseq in seen {
        return None;
      }
      seen := seen + {es[i].sseq};
    }
    assert es[..|es|] == es;
    normalized := Some(SortBySseq(es));
  }

  datatype Options = Options(systemTokens: nat, toolSchemaTokens: nat, usable: nat, protectTokens: nat, fillTokens: Option<nat>)

  /** What the plan must reclaim; nothing while the fill is below high water. */
  function Quota(es: seq<Entry>, o: Options): real {
    var total := o.systemTokens + o.toolSchemaTokens + EntryTokens(es);
    var fill := if o.fillTokens.Some? && o.fillTokens.value > total then o.fillTokens.value else total;
    if fill as real < o.usable as real * HIGH_WATER then 0.0 else total as real - o.usable as real * LOW_WATER
  }

  /** What the history itself takes, whatever the provider billed for it. */
  function HistoryTotal(messages: seq<Entry>, o: Options): nat {
    o.systemTokens + o.toolSchemaTokens + EntryTokens(messages)
  }

  /** The history, or what was billed for it, takes at least 80 % of what is usable. */
  predicate Pressed(messages: seq<Entry>, o: Options) {
    || 10 * HistoryTotal(messages, o) >= 8 * o.usable
    || (o.fillTokens.Some? && 10 * o.fillTokens.value >= 8 * o.usable)
  }

  /** Removing this many tokens leaves the history at most 60 % of what is usable. */
  predicate Enough(messages: seq<Entry>, o: Options, gains: nat) {
    10 * HistoryTotal(messages, o) <= 6 * o.usable + 10 * gains
  }

  /**
   What a plan is: a first part of the candidates outside the protected end,
   empty unless there is pressure; without its last pick it is not enough, and
   it is enough unless candidates or room ran out.
   */
  ghost predicate Planned(messages: seq<Entry>, o: Options, picks: seq<Pick>, start: nat) {
    var es := SortBySseq(messages);
    && DistinctSseq(messages) && ProtectedFrom(es, start, o.protectTokens) && Tight(es, start, o.protectTokens)
    && picks <= AllCandidates(es[..start]) && |picks| <= 256
    && (!Pressed(messages, o) ==> picks == [])
    && (picks != [] ==> !Enough(messages, o, Gains(picks[..|picks| - 1])))
    && (Pressed(messages, o) && |picks| < |AllCandidates(es[..start])| && |picks| < 256 ==> Enough(messages, o, Gains(picks)))
  }

  /** The plan is the shortest run of candidates, oldest first and outside the protected end, that meets the quota. */
  method PlanPruneStubs(messages: seq<Entry>, o: Options) returns (picks: seq<Pick>, ghost start: nat)
    ensures !DistinctSseq(messages) || o.usable == 0 ==> picks == []
    ensures DistinctSseq(messages) && o.usable > 0 ==>
              var es := SortBySseq(messages);
              && start <= |es| && picks == Take(AllCandidates(es[..start]), Quota(es, o), MAX_TARGETS)
              && Planned(messages, o, picks, start)
  {
    hide SortBySseq, AllCandidates, Candidates, ProtectedFrom, Tight, Planned, Take;
    start := 0;
    if o.usable == 0 {
      return [], 0;
    }
    var normalized := NormalizeMessages(messages);
    if normalized.None? {
      return [], 0;
    }
    var es := normalized.value;
    var p := ProtectedStart(es, o.protectTokens);
    start := p;
    var quota := Quota(es, o);
    if quota <= 0.0 {
      picks := [];
    } else {
      picks := Choose(es[..p], quota);
    }
    TakeNone(AllCandidates(es[..start]), quota, MAX_TARGETS);
    TakenIsPlanned(messages, o, picks, start);
  }

  method Choose(es: seq<Entry>, quota: real) returns (picks: seq<Pick>)
    requires quota > 0.0
    ensures picks == Take(AllCandidates(es), quota, MAX_TARGETS)
  {
    hide Candidates, AllCandidates, Take;
    picks := [];
    var reclaimed := 0.0;
    assert es[0..] == es;
    assert [] + Take(AllCandidates(es), quota, MAX_TARGETS) == Take(AllCandidates(es), quota, MAX_TARGETS);
    var messageIndex := 0;
    while messageIndex < |es| && reclaimed < quota
      invariant messageIndex <= |es| && |picks| < MAX_TARGETS
      invariant Take(AllCandidates(es), quota, MAX_TARGETS)
             == picks + Take(AllCandidates(es[messageIndex..]), quota - reclaimed, MAX_TARGETS - |picks|)
    {
      var e := es[messageIndex];
      ghost var later := AllCandidates(es[messageIndex + 1..]);
      AllCandidatesFrom(es, messageIndex);
      var more: seq<Pick>;
      more, reclaimed := ChooseFrom(e, quota, reclaimed, MAX_TARGETS - |picks|, later);
      ghost var rest := Take(later, quota - reclaimed, MAX_TARGETS - |picks + more|);
      assert picks + (more + rest) == (picks + more) + rest;
      picks := picks + more;
      if |picks| >= MAX_TARGETS {
        TakeNone(later, quota - reclaimed, 0);
        return;
      }
      messageIndex := messageIndex + 1;
    }
    AllCandidatesEnd(es);
    TakeNone(AllCandidates(es[messageIndex..]), quota - reclaimed, MAX_TARGETS - |picks|);
  }

  lemma AllCandidatesFrom(es: seq<Entry>, i: nat)
    requires i < |es|
    ensures AllCandidates(es[i..]) == Candidates(es[i], 0) + AllCandidates(es[i + 1..])
  {
    assert es[i..][1..] == es[i + 1..];
  }

  lemma AllCandidatesEnd(es: seq<Entry>)
    ensures AllCandidates(es[|es|..]) == []
  {
  }

  lemma TakeNone(picks: seq<Pick>, quota: real, room: nat)
    ensures picks == [] || quota <= 0.0 || room == 0 ==> Take(picks, quota, room) == []
  {
  }

  /** What is left to choose from after block `i`. */
  function After(e: Entry, i: nat, dropped: bool, later: seq<Pick>): seq<Pick> {
    (if dropped then [] else Candidates(e, i)) + later
  }

  lemma CandidatesStep(e: Entry, i: nat, later: seq<Pick>)
    requires e.body.Parts? && i < |e.body.parts|
    ensures var b := e.body.parts[i];
            var pick := Pick(e.sseq, i, IsThinking(b), b);
            After(e, i, false, later)
            == if Eligible(e.body.parts, i) then [pick] + After(e, i + 1, pick.drop, later) else After(e, i + 1, false, later)
  {
    hide Eligible, IsThinking;
    var b := e.body.parts[i];
    var pick := Pick(e.sseq, i, IsThinking(b), b);
    assert pick.drop ==> [pick] + later == [pick] + ([] + later);
    assert !pick.drop ==> [pick] + Candidates(e, i + 1) + later == [pick] + (Candidates(e, i + 1) + later);
  }

  /** One more pick, and the room and the quota it leaves. */
  lemma TakeNext(total: seq<Pick>, picks: seq<Pick>, pick: Pick, rest: seq<Pick>, quota: real, reclaimed: real, room: nat)
    requires reclaimed < quota && |picks| < room && total == picks + Take([pick] + rest, quota - reclaimed, room - |picks|)
    ensures total == (picks + [pick]) + Take(rest, quota - (reclaimed + pick.original.gain as real), room - |picks + [pick]|)
  {
    hide Take;
    var gain := pick.original.gain as real;
    TakeStep(pick, rest, quota - reclaimed, room - |picks|);
    assert quota - reclaimed - gain == quota - (reclaimed + gain);
    var taken := Take(rest, quota - (reclaimed + gain), room - |picks| - 1);
    assert picks + ([pick] + taken) == (picks + [pick]) + taken;
  }

  lemma NoCandidates(e: Entry, i: nat, dropped: bool, later: seq<Pick>)
    ensures dropped || i >= |PartsOf(e)| ==> After(e, i, dropped, later) == later
  {
  }

  /** The checks that let a block pass over. */
  method Skipped(parts: seq<Stored>, i: nat) returns (skipped: bool)
    requires i < |parts|
    ensures skipped <==> !Eligible(parts, i)
  {
    var b := parts[i];
    if !b.block.ToolResult? && !b.block.Thinking? {
      return true;
    }
    if b.block.ToolResult? && b.stubbed {
      return true;
    }
    if b.block.Thinking? && !(exists p :: p in parts && !p.block.Thinking?) {
      return true;
    }
    skipped := b.gain <= 0;
  }

  /** The picks of one message. */
  method ChooseFrom(e: Entry, quota: real, before: real, room: nat, ghost later: seq<Pick>) returns (picks: seq<Pick>, reclaimed: real)
    requires room > 0 && before < quota
    ensures |picks| <= room
    ensures Take(Candidates(e, 0) + later, quota - before, room) == picks + Take(later, quota - reclaimed, room - |picks|)
  {
    hide Eligible, IsThinking, Candidates, After, Take;
    picks, reclaimed := [], before;
    ghost var total := Take(After(e, 0, false, later), quota - before, room);
    assert After(e, 0, false, later) == Candidates(e, 0) + later by {
      WholeMessage(e, later);
    }
    NoCandidates(e, 0, false, later);
    if e.body.Plain? {
      return;
    }
    var parts := e.body.parts;
    var i := 0;
    var dropped := false;
    while i < |parts| && reclaimed < quota && !dropped
      invariant i <= |parts| && |picks| < room
      invariant total == picks + Take(After(e, i, dropped, later), quota - reclaimed, room - |picks|)
    {
      CandidatesStep(e, i, later);
      var skipped := Skipped(parts, i);
      if !skipped {
        var pick := Pick(e.sseq, i, IsThinking(parts[i]), parts[i]);
        TakeNext(total, picks, pick, After(e, i + 1, pick.drop, later), quota, reclaimed, room);
        reclaimed := reclaimed + pick.original.gain as real;
        picks := picks + [pick];
        dropped := pick.drop;
        if |picks| >= room {
          TakeNone(After(e, i + 1, dropped, later), quota - reclaimed, 0);
          TakeNone(later, quota - reclaimed, 0);
          return;
        }
      }
      i := i + 1;
    }
    NoCandidates(e, i, dropped, later);
    TakeNone(After(e, i, dropped, later), quota - reclaimed, room - |picks|);
    TakeNone(later, quota - reclaimed, room - |picks|);
  }

  lemma WholeMessage(e: Entry, later: seq<Pick>)
    ensures After(e, 0, false, later) == Candidates(e, 0) + later
  {
  }

  // -------------------------------------------------- what a plan is like

  /** Addresses in strictly increasing order. */
  ghost predicate Increasing(picks: seq<Pick>) {
    forall i, j | 0 <= i < j < |picks| ::
      picks[i].sseq < picks[j].sseq || (picks[i].sseq == picks[j].sseq && picks[i].index < picks[j].index)
  }

  /** The pick addresses a block of `e` that may be pruned, and remembers it as it is. */
  ghost predicate Addresses(e: Entry, p: Pick) {
    && p.sseq == e.sseq && p.index < |PartsOf(e)| && p.original == PartsOf(e)[p.index] && Eligible(PartsOf(e), p.index)
    && p.drop == IsThinking(p.original)
  }

  ghost predicate AllAddressed(es: seq<Entry>, picks: seq<Pick>) {
    forall k | 0 <= k < |picks| :: SomeEntry(es, picks[k])
  }

  ghost predicate SomeEntry(es: seq<Entry>, p: Pick) {
    exists i :: 0 <= i < |es| && Addresses(es[i], p)
  }

  /** A dropped block is the last one its message gives up. */
  ghost predicate DropsLast(picks: seq<Pick>) {
    forall i, j | 0 <= i < j < |picks| && picks[i].drop :: picks[i].sseq != picks[j].sseq
  }

  lemma {:induction false} CandidatesAre(e: Entry, i: nat)
    ensures forall k | 0 <= k < |Candidates(e, i)| :: Addresses(e, Candidates(e, i)[k]) && Candidates(e, i)[k].index >= i
    ensures Increasing(Candidates(e, i)) && DropsLast(Candidates(e, i))
    decreases |PartsOf(e)| - i
  {
    hide Eligible;
    if i < |PartsOf(e)| {
      CandidatesAre(e, i + 1);
    }
  }

  lemma {:induction false} AllCandidatesAre(es: seq<Entry>)
    requires Ascending(es)
    ensures AllAddressed(es, AllCandidates(es)) && Increasing(AllCandidates(es)) && DropsLast(AllCandidates(es))
  {
    if es != [] {
      CandidatesAre(es[0], 0);
      AllCandidatesAre(es[1..]);
      Joined(es, Candidates(es[0], 0), AllCandidates(es[1..]));
    }
  }

  lemma Joined(es: seq<Entry>, first: seq<Pick>, rest: seq<Pick>)
    requires es != [] && Ascending(es) && AllAddressed(es[1..], rest) && Increasing(rest) && DropsLast(rest)
    requires (forall k | 0 <= k < |first| :: Addresses(es[0], first[k])) && Increasing(first) && DropsLast(first)
    ensures AllAddressed(es, first + rest) && Increasing(first + rest) && DropsLast(first + rest)
  {
    hide Addresses, SomeEntry;
    forall k | 0 <= k < |rest| ensures SomeEntry(es, rest[k]) && rest[k].sseq > es[0].sseq {
      LaterEntry(es, rest[k]);
    }
    forall k | 0 <= k < |first| ensures SomeEntry(es, first[k]) && first[k].sseq == es[0].sseq {
      FirstEntry(es, first[k]);
    }
    assert forall k | 0 <= k < |first + rest| :: (first + rest)[k] == if k < |first| then first[k] else rest[k - |first|];
  }

  lemma LaterEntry(es: seq<Entry>, p: Pick)
    requires es != [] && Ascending(es) && SomeEntry(es[1..], p)
    ensures SomeEntry(es, p) && p.sseq > es[0].sseq
  {
    hide Addresses;
    var rest := es[1..];
    var i :| 0 <= i < |rest| && Addresses(rest[i], p);
    assert rest[i] == es[i + 1];
    AddressOf(es[i + 1], p);
  }

  lemma FirstEntry(es: seq<Entry>, p: Pick)
    requires es != [] && Addresses(es[0], p)
    ensures SomeEntry(es, p) && p.sseq == es[0].sseq
  {
  }

  lemma AddressOf(e: Entry, p: Pick)
    requires Addresses(e, p)
    ensures p.sseq == e.sseq
  {
  }

  function Gains(picks: seq<Pick>): nat {
    if picks == [] then 0 else picks[0].original.gain + Gains(picks[1..])
  }

  /** A plan takes candidates from the front; without its last pick the quota is not met. */
  lemma {:induction false} TakeIsMinimal(picks: seq<Pick>, quota: real, room: nat)
    ensures var taken := Take(picks, quota, room);
            && |taken| <= room && |taken| <= |picks| && taken == picks[..|taken|]
            && (taken != [] ==> Gains(taken[..|taken| - 1]) as real < quota)
            && (|taken| < |picks| && |taken| < room ==> Gains(taken) as real >= quota)
    decreases |picks|
  {
    if picks != [] && quota > 0.0 && room > 0 {
      TakeIsMinimal(picks[1..], quota - picks[0].original.gain as real, room - 1);
      var rest := Take(picks[1..], quota - picks[0].original.gain as real, room - 1);
      var taken := [picks[0]] + rest;
      assert taken[1..] == rest;
      if rest != [] {
        assert taken[..|taken| - 1] == [picks[0]] + rest[..|rest| - 1];
        assert taken[..|taken| - 1][1..] == rest[..|rest| - 1];
      }
    }
  }

  lemma {:induction false} InsertTokens(e: Entry, es: seq<Entry>)
    ensures EntryTokens(Insert(e, es)) == e.tokens + EntryTokens(es)
  {
    if es == [] || e.sseq <= es[0].sseq {
      assert ([e] + es)[1..] == es;
    } else {
      InsertTokens(e, es[1..]);
      assert ([es[0]] + Insert(e, es[1..]))[1..] == Insert(e, es[1..]);
    }
  }

  lemma {:induction false} SortTokens(es: seq<Entry>)
    ensures EntryTokens(SortBySseq(es)) == EntryTokens(es)
  {
    if es != [] {
      SortTokens(es[1..]);
      InsertTokens(es[0], SortBySseq(es[1..]));
    }
  }

  lemma QuotaMeans(messages: seq<Entry>, o: Options, gains: nat)
    ensures var quota := Quota(SortBySseq(messages), o);
            if Pressed(messages, o) then Enough(messages, o, gains) <==> gains as real >= quota else quota == 0.0
  {
    SortTokens(messages);
  }

  lemma TakenIsPlanned(messages: seq<Entry>, o: Options, picks: seq<Pick>, start: nat)
    requires DistinctSseq(messages)
    requires ProtectedFrom(SortBySseq(messages), start, o.protectTokens) && Tight(SortBySseq(messages), start, o.protectTokens)
    requires picks == Take(AllCandidates(SortBySseq(messages)[..start]), Quota(SortBySseq(messages), o), MAX_TARGETS)
    ensures Planned(messages, o, picks, start)
  {
    hide SortBySseq, AllCandidates, Take, Gains, Quota, Pressed, Enough, DistinctSseq, Tight;
    var es := SortBySseq(messages);
    var quota := Quota(es, o);
    TakeIsMinimal(AllCandidates(es[..start]), quota, MAX_TARGETS);
    TakeNone(AllCandidates(es[..start]), quota, MAX_TARGETS);
    QuotaMeans(messages, o, Gains(picks));
    if picks != [] {
      QuotaMeans(messages, o, Gains(picks[..|picks| - 1]));
    }
  }

  /** Where the protected end begins is determined. */
  lemma ProtectedStartIsUnique(es: seq<Entry>, a: nat, b: nat, protectTokens: nat)
    requires ProtectedFrom(es, a, protectTokens) && Tight(es, a, protectTokens)
    requires ProtectedFrom(es, b, protectTokens) && Tight(es, b, protectTokens)
    ensures a == b
  {
    if a < b {
      LaterProtectsLess(es, a + 1, b);
    } else if b < a {
      LaterProtectsLess(es, b + 1, a);
    }
  }

  lemma {:induction false} LaterProtectsLess(es: seq<Entry>, a: nat, b: nat)
    requires a <= b <= |es|
    ensures EntryPrompts(es[a..]) >= EntryPrompts(es[b..]) && EntryTokens(es[a..]) >= EntryTokens(es[b..])
    decreases b - a
  {
    hide IsPrompt;
    if a < b {
      EntrySuffix(es, a);
      LaterProtectsLess(es, a + 1, b);
    }
  }

  lemma {:induction false} PrefixGains(picks: seq<Pick>, n: nat)
    requires n <= |picks|
    ensures Gains(picks[..n]) <= Gains(picks)
  {
    if n > 0 {
      PrefixGains(picks[1..], n - 1);
      assert picks[..n][1..] == picks[1..][..n - 1];
    }
  }

  /**
   The billed fill only opens the gate: two plans of one history whose options
   differ in nothing else are the same, or one of them takes nothing. With
   pressure under both, or under neither, they are the same.
   */
  lemma FillOnlyGates(messages: seq<Entry>, o: Options, fill: Option<nat>, p: seq<Pick>, start: nat, p': seq<Pick>, start': nat)
    requires Planned(messages, o, p, start) && Planned(messages, o.(fillTokens := fill), p', start')
    ensures start == start' && (p == p' || p == [] || p' == [])
    ensures (Pressed(messages, o) <==> Pressed(messages, o.(fillTokens := fill))) ==> p == p'
  {
    hide SortBySseq, AllCandidates, Gains, Pressed, DistinctSseq, ProtectedFrom, Tight;
    ProtectedStartIsUnique(SortBySseq(messages), start, start', o.protectTokens);
    if |p| < |p'| && Pressed(messages, o) {
      ShorterIsEnough(messages, o, p, p');
    } else if |p'| < |p| && Pressed(messages, o.(fillTokens := fill)) {
      ShorterIsEnough(messages, o, p', p);
    }
  }

  /** A plan that is enough is no proper start of another one. */
  lemma ShorterIsEnough(messages: seq<Entry>, o: Options, p: seq<Pick>, p': seq<Pick>)
    requires p < p' && Enough(messages, o, Gains(p))
    ensures Enough(messages, o, Gains(p'[..|p'| - 1]))
  {
    PrefixGains(p'[..|p'| - 1], |p|);
    assert p'[..|p'| - 1][..|p|] == p;
  }

  /** A plan: at most 256 blocks, oldest first, none protected, no more than it takes, each message's drop last. */
  ghost predicate PlanOk(messages: seq<Entry>, o: Options, picks: seq<Pick>, start: nat) {
    && DistinctSseq(messages) && start <= |SortBySseq(messages)|
    && |picks| <= MAX_TARGETS && Increasing(picks) && DropsLast(picks)
    && AllAddressed(SortBySseq(messages)[..start], picks)
    && (picks != [] ==> !Enough(messages, o, Gains(picks[..|picks| - 1])))
  }

  lemma PlanIsOk(messages: seq<Entry>, o: Options, picks: seq<Pick>, start: nat)
    requires Planned(messages, o, picks, start)
    ensures PlanOk(messages, o, picks, start)
  {
    hide SortBySseq, AllCandidates, Gains, Addresses, Enough, Pressed, Tight;
    var es := SortBySseq(messages);
    SortSorted(messages);
    var all := AllCandidates(es[..start]);
    AllCandidatesAre(es[..start]);
    assert forall k | 0 <= k < |picks| :: picks[k] == all[k];
  }

  // ------------------------------------------------- nothing is passed over

  function PickOf(e: Entry, k: nat): Pick
    requires k < |PartsOf(e)|
  {
    Pick(e.sseq, k, IsThinking(PartsOf(e)[k]), PartsOf(e)[k])
  }

  /** A block before block `k` of the message is picked to be dropped: later ones have to wait. */
  ghost predicate Dropped(e: Entry, picks: seq<Pick>, k: nat) {
    exists d :: 0 <= d < k && d < |PartsOf(e)| && PickOf(e, d).drop && PickOf(e, d) in picks
  }

  lemma {:induction false} CandidatesAreAll(e: Entry, i: nat, k: nat)
    requires i <= k < |PartsOf(e)| && Eligible(PartsOf(e), k)
    ensures PickOf(e, k) in Candidates(e, i) || Dropped(e, Candidates(e, i), k)
    decreases k - i
  {
    hide Eligible, IsThinking;
    var cs := Candidates(e, i);
    if i < k {
      if !Eligible(PartsOf(e), i) {
        CandidatesAreAll(e, i + 1, k);
      } else if PickOf(e, i).drop {
        assert PickOf(e, i) in cs;
      } else {
        CandidatesAreAll(e, i + 1, k);
        var rest := Candidates(e, i + 1);
        assert cs == [PickOf(e, i)] + rest;
        if Dropped(e, rest, k) {
          var d :| 0 <= d < k && d < |PartsOf(e)| && PickOf(e, d).drop && PickOf(e, d) in rest;
          assert PickOf(e, d) in cs;
        }
      }
    }
  }

  lemma {:induction false} AllCandidatesAreAll(es: seq<Entry>, m: nat, k: nat)
    requires m < |es| && k < |PartsOf(es[m])| && Eligible(PartsOf(es[m]), k)
    ensures PickOf(es[m], k) in AllCandidates(es) || Dropped(es[m], AllCandidates(es), k)
  {
    hide Eligible, Candidates, PickOf;
    var e, all := es[m], AllCandidates(es);
    var first, rest := Candidates(es[0], 0), AllCandidates(es[1..]);
    assert all == first + rest;
    if m == 0 {
      CandidatesAreAll(e, 0, k);
      MoreDropped(e, first, all, k);
    } else {
      assert es[1..][m - 1] == e;
      AllCandidatesAreAll(es[1..], m - 1, k);
      MoreDropped(e, rest, all, k);
    }
  }

  lemma MoreDropped(e: Entry, some: seq<Pick>, all: seq<Pick>, k: nat)
    requires forall p | p in some :: p in all
    ensures Dropped(e, some, k) ==> Dropped(e, all, k)
  {
    hide PickOf;
  }

  /** The address comes no later than that of `p`. */
  predicate UpTo(sseq: nat, index: nat, p: Pick) {
    sseq < p.sseq || (sseq == p.sseq && index <= p.index)
  }

  /** Everything in an increasing list up to one of its members is in the part of it that ends there. */
  lemma InTaken(all: seq<Pick>, n: nat, q: Pick)
    requires Increasing(all) && 0 < n <= |all| && q in all && UpTo(q.sseq, q.index, all[n - 1])
    ensures q in all[..n]
  {
    var j :| 0 <= j < |all| && all[j] == q;
    assert j <= n - 1;
    assert all[..n][j] == q;
  }

  /**
   A plan passes over nothing: an eligible block outside the protected end is
   picked, or waits for a drop of its own message, if it comes no later than
   the last pick, or if the plan is under pressure and neither enough nor out of room.
   */
  lemma PlanIsComplete(messages: seq<Entry>, o: Options, picks: seq<Pick>, start: nat, m: nat, k: nat)
    requires Planned(messages, o, picks, start)
    requires m < start && k < |PartsOf(SortBySseq(messages)[m])| && Eligible(PartsOf(SortBySseq(messages)[m]), k)
    requires (picks != [] && UpTo(SortBySseq(messages)[m].sseq, k, picks[|picks| - 1]))
             || (Pressed(messages, o) && !Enough(messages, o, Gains(picks)) && |picks| < 256)
    ensures var e := SortBySseq(messages)[m];
            PickOf(e, k) in picks || Dropped(e, picks, k)
  {
    hide SortBySseq, AllCandidates, Gains, Eligible, Pressed, Enough, Tight, PickOf, Increasing;
    var es := SortBySseq(messages);
    SortSorted(messages);
    var e, all := es[m], AllCandidates(es[..start]);
    assert es[..start][m] == e;
    AllCandidatesAre(es[..start]);
    AllCandidatesAreAll(es[..start], m, k);
    if |picks| < |all| {
      TakenUpTo(e, all, |picks|, k);
      assert picks == all[..|picks|];
    } else {
      assert picks == all;
    }
  }

  lemma TakenUpTo(e: Entry, all: seq<Pick>, n: nat, k: nat)
    requires Increasing(all) && 0 < n <= |all| && k < |PartsOf(e)| && UpTo(e.sseq, k, all[n - 1])
    requires PickOf(e, k) in all || Dropped(e, all, k)
    ensures PickOf(e, k) in all[..n] || Dropped(e, all[..n], k)
  {
    hide Increasing;
    if PickOf(e, k) in all {
      InTaken(all, n, PickOf(e, k));
    } else {
      var d :| 0 <= d < k && d < |PartsOf(e)| && PickOf(e, d).drop && PickOf(e, d) in all;
      InTaken(all, n, PickOf(e, d));
    }
  }

  // ----------------------------------------------------------- application

  function Stub(b: Stored): Stored {
    if b.block.ToolResult? then Stored(ToolResult(b.block.callId, b.block.isError, ["[cleared]"]), true, 0) else b
  }

  /** One target applied to the blocks of its message, or None where the source rejects the receipt. */
  function ApplyPick(parts: seq<Stored>, p: Pick): Option<seq<Stored>> {
    if p.index >= |parts| || parts[p.index] != p.original then None
    else if !p.drop then
      if !parts[p.index].block.ToolResult? || parts[p.index].stubbed then None else Some(parts[p.index := Stub(parts[p.index])])
    else
      if !IsThinking(parts[p.index]) || !SomeVisible(parts) then None else Some(parts[..p.index] + parts[p.index + 1..])
  }

  /** Targets of one message applied in list order. */
  function ApplyInOrder(parts: seq<Stored>, picks: seq<Pick>): Option<seq<Stored>>
    decreases |picks|
  {
    if picks == [] then Some(parts)
    else match ApplyPick(parts, picks[0])
      case None => None
      case Some(next) => ApplyInOrder(next, picks[1..])
  }

  function Reverse(picks: seq<Pick>): seq<Pick> {
    if picks == [] then [] else [picks[|picks| - 1]] + Reverse(picks[..|picks| - 1])
  }

  /** Targets of one message: increasing, addressing its own blocks, a drop only at the end. */
  ghost predicate OwnPicks(parts: seq<Stored>, picks: seq<Pick>) {
    && (forall i, j | 0 <= i < j < |picks| :: picks[i].index < picks[j].index)
    && (forall i | 0 <= i < |picks| - 1 :: !picks[i].drop)
    && (forall k | 0 <= k < |picks| ::
          picks[k].index < |parts| && picks[k].original == parts[picks[k].index] && Eligible(parts, picks[k].index)
          && picks[k].drop == IsThinking(parts[picks[k].index]))
  }

  ghost predicate Addressed(picks: seq<Pick>, i: nat, drop: bool) {
    exists k :: 0 <= k < |picks| && picks[k].index == i && picks[k].drop == drop
  }

  /** The message with every addressed block replaced in place: what the plan means. */
  ghost function Pruned(parts: seq<Stored>, picks: seq<Pick>, from: nat): seq<Stored>
    decreases |parts| - from
  {
    if from >= |parts| then []
    else
      (if Addressed(picks, from, true) then [] else if Addressed(picks, from, false) then [Stub(parts[from])] else [parts[from]])
      + Pruned(parts, picks, from + 1)
  }

  /** Nothing addressed from `from` on: nothing changes there. */
  lemma {:induction false} PrunedRest(parts: seq<Stored>, picks: seq<Pick>, from: nat)
    requires from <= |parts| && forall k | 0 <= k < |picks| :: picks[k].index < from
    ensures Pruned(parts, picks, from) == parts[from..]
    decreases |parts| - from
  {
    if from < |parts| {
      PrunedRest(parts, picks, from + 1);
    }
  }

  /** Taking the last target first leaves the earlier ones what they meant. */
  lemma {:induction false} PrunedWithoutLast(parts: seq<Stored>, picks: seq<Pick>, next: seq<Stored>, from: nat)
    requires picks != [] && OwnPicks(parts, picks) && ApplyPick(parts, picks[|picks| - 1]) == Some(next)
    requires from <= picks[|picks| - 1].index
    ensures Pruned(next, picks[..|picks| - 1], from) == Pruned(parts, picks, from)
    decreases |parts| - from
  {
    hide Eligible, Stub, Addressed, IsThinking, SomeVisible;
    var init, last := picks[..|picks| - 1], picks[|picks| - 1];
    SplitLast(picks, from);
    if from < last.index {
      PrunedWithoutLast(parts, picks, next, from + 1);
    } else {
      PrunedAtLast(parts, picks, next);
    }
  }

  lemma PrunedAtLast(parts: seq<Stored>, picks: seq<Pick>, next: seq<Stored>)
    requires picks != [] && OwnPicks(parts, picks) && ApplyPick(parts, picks[|picks| - 1]) == Some(next)
    ensures var at := picks[|picks| - 1].index;
            Pruned(next, picks[..|picks| - 1], at) == Pruned(parts, picks, at)
  {
    hide Eligible, Stub, Addressed;
    var init, last := picks[..|picks| - 1], picks[|picks| - 1];
    SplitLast(picks, last.index);
    PrunedRest(parts, picks, last.index + 1);
    PrunedRest(next, init, last.index);
    if last.drop {
      assert next[last.index..] == parts[last.index + 1..];
      assert [] + parts[last.index + 1..] == parts[last.index + 1..];
    } else {
      assert next[last.index..] == [Stub(parts[last.index])] + parts[last.index + 1..];
    }
  }

  lemma SplitLast(picks: seq<Pick>, i: nat)
    requires picks != [] && forall a, b | 0 <= a < b < |picks| :: picks[a].index < picks[b].index
    ensures var last := picks[|picks| - 1];
            forall drop :: Addressed(picks, i, drop) <==> (Addressed(picks[..|picks| - 1], i, drop) && i < last.index) || (i == last.index && drop == last.drop)
  {
    var init := picks[..|picks| - 1];
    forall drop | Addressed(init, i, drop) ensures Addressed(picks, i, drop) && i < picks[|picks| - 1].index {
      var k :| 0 <= k < |init| && init[k].index == i && init[k].drop == drop;
      assert picks[k] == init[k];
    }
    forall drop | Addressed(picks, i, drop) && i != picks[|picks| - 1].index ensures Addressed(init, i, drop) {
      var k :| 0 <= k < |picks| && picks[k].index == i && picks[k].drop == drop;
      assert init[k] == picks[k];
    }
  }

  /** Highest index first, as replay does it: every target still hits its own block. */
  lemma {:induction false} DescendingHits(parts: seq<Stored>, picks: seq<Pick>)
    requires OwnPicks(parts, picks)
    ensures ApplyInOrder(parts, Reverse(picks)) == Some(Pruned(parts, picks, 0))
    decreases |picks|
  {
    hide Pruned;
    if picks == [] {
      NothingPruned(parts);
    } else {
      var last, init := picks[|picks| - 1], picks[..|picks| - 1];
      var next := ApplyPick(parts, last).value;
      LastKeepsOthers(parts, picks, next);
      PrunedWithoutLast(parts, picks, next, 0);
      DescendingHits(next, init);
      assert Reverse(picks)[1..] == Reverse(init);
    }
  }

  lemma NothingPruned(parts: seq<Stored>)
    ensures Pruned(parts, [], 0) == parts
  {
    PrunedRest(parts, [], 0);
  }

  lemma LastKeepsOthers(parts: seq<Stored>, picks: seq<Pick>, next: seq<Stored>)
    requires picks != [] && OwnPicks(parts, picks) && ApplyPick(parts, picks[|picks| - 1]) == Some(next)
    ensures OwnPicks(next, picks[..|picks| - 1])
  {
    hide Stub;
  }

  /** Taking the first target first leaves the later ones what they meant, as long as it is no drop. */
  lemma {:induction false} PrunedWithoutFirst(parts: seq<Stored>, picks: seq<Pick>, next: seq<Stored>, from: nat)
    requires picks != [] && OwnPicks(parts, picks) && !picks[0].drop && ApplyPick(parts, picks[0]) == Some(next)
    ensures Pruned(next, picks[1..], from) == Pruned(parts, picks, from)
    decreases |parts| - from
  {
    hide Eligible, Stub;
    SplitFirst(picks, from);
    if from < |parts| {
      PrunedWithoutFirst(parts, picks, next, from + 1);
    }
  }

  lemma SplitFirst(picks: seq<Pick>, i: nat)
    requires picks != [] && forall a, b | 0 <= a < b < |picks| :: picks[a].index < picks[b].index
    ensures forall drop :: Addressed(picks, i, drop) <==> (Addressed(picks[1..], i, drop) && i > picks[0].index) || (i == picks[0].index && drop == picks[0].drop)
  {
    forall drop | Addressed(picks[1..], i, drop) ensures Addressed(picks, i, drop) && i > picks[0].index {
      var k :| 0 <= k < |picks[1..]| && picks[1..][k].index == i && picks[1..][k].drop == drop;
      assert picks[k + 1] == picks[1..][k];
    }
    forall drop | Addressed(picks, i, drop) && i != picks[0].index ensures Addressed(picks[1..], i, drop) {
      var k :| 0 <= k < |picks| && picks[k].index == i && picks[k].drop == drop;
      assert picks[1..][k - 1] == picks[k];
    }
  }

  lemma FirstKeepsOthers(parts: seq<Stored>, picks: seq<Pick>, next: seq<Stored>)
    requires picks != [] && OwnPicks(parts, picks) && !picks[0].drop && ApplyPick(parts, picks[0]) == Some(next)
    ensures OwnPicks(next, picks[1..])
  {
    hide Stub;
    var at := picks[0].index;
    FirstApplies(parts, picks);
    assert next == parts[at := Stub(parts[at])];
    if SomeVisible(parts) {
      StubStaysVisible(parts, at);
    }
    var rest := picks[1..];
    assert forall k | 0 <= k < |rest| :: rest[k] == picks[k + 1];
    assert forall i, j | 0 <= i < j < |rest| :: rest[i].index < rest[j].index;
    forall k | 0 <= k < |rest|
      ensures rest[k].index < |next| && rest[k].original == next[rest[k].index] && Eligible(next, rest[k].index)
              && rest[k].drop == IsThinking(next[rest[k].index])
    {
      var p := picks[k + 1];
      assert picks[0].index < p.index;
      assert next[p.index] == parts[p.index] && Eligible(parts, p.index);
    }
    OwnFrom(next, rest);
  }

  /** Targets of one message are its own when they come in order and each addresses an eligible block of it. */
  lemma OwnFrom(parts: seq<Stored>, picks: seq<Pick>)
    requires forall i, j | 0 <= i < j < |picks| :: picks[i].index < picks[j].index
    requires forall i | 0 <= i < |picks| - 1 :: !picks[i].drop
    requires forall k | 0 <= k < |picks| ::
               picks[k].index < |parts| && picks[k].original == parts[picks[k].index] && Eligible(parts, picks[k].index)
               && picks[k].drop == IsThinking(parts[picks[k].index])
    ensures OwnPicks(parts, picks)
  {
    hide Eligible;
  }

  lemma FirstApplies(parts: seq<Stored>, picks: seq<Pick>)
    requires picks != [] && OwnPicks(parts, picks)
    ensures ApplyPick(parts, picks[0]).Some?
    ensures |picks| > 1 ==> !picks[0].drop
  {
    var p := picks[0];
    assert p.index < |parts| && p.original == parts[p.index] && Eligible(parts, p.index) && p.drop == IsThinking(parts[p.index]);
    if |picks| > 1 {
      assert picks[0].index < picks[1].index;
    }
  }

  lemma StubStaysVisible(parts: seq<Stored>, i: nat)
    requires i < |parts| && SomeVisible(parts) && parts[i].block.ToolResult?
    ensures SomeVisible(parts[i := Stub(parts[i])])
  {
    var next := parts[i := Stub(parts[i])];
    assert next[i] in next;
  }

  /** Ascending order hits the same blocks: a plan never shifts an address it still needs. */
  lemma {:induction false} AscendingHits(parts: seq<Stored>, picks: seq<Pick>)
    requires OwnPicks(parts, picks)
    ensures ApplyInOrder(parts, picks) == Some(Pruned(parts, picks, 0))
    decreases |picks|
  {
    hide Pruned;
    if picks == [] {
      NothingPruned(parts);
    } else if picks[0].drop {
      FirstApplies(parts, picks);
      assert picks == [picks[0]];
      assert Reverse(picks) == [picks[0]] + Reverse([]);
      assert Reverse(picks) == picks;
      DescendingHits(parts, picks);
    } else {
      FirstApplies(parts, picks);
      var next := ApplyPick(parts, picks[0]).value;
      FirstKeepsOthers(parts, picks, next);
      PrunedWithoutFirst(parts, picks, next, 0);
      AscendingHits(next, picks[1..]);
    }
  }

  /** A pruned message keeps something visible if it had it. */
  lemma {:induction false} PrunedStaysVisible(parts: seq<Stored>, picks: seq<Pick>, from: nat)
    requires OwnPicks(parts, picks) && from <= |parts| && SomeVisible(parts[from..])
    ensures SomeVisible(Pruned(parts, picks, from))
    decreases |parts| - from
  {
    hide Eligible;
    if from < |parts| {
      if IsThinking(parts[from]) {
        assert parts[from..] == [parts[from]] + parts[from + 1..];
        PrunedStaysVisible(parts, picks, from + 1);
        var p :| p in Pruned(parts, picks, from + 1) && !IsThinking(p);
        assert p in Pruned(parts, picks, from);
      } else {
        var p := if Addressed(picks, from, false) then Stub(parts[from]) else parts[from];
        assert !Addressed(picks, from, true);
        assert Pruned(parts, picks, from)[0] == p;
        assert p in Pruned(parts, picks, from);
      }
    }
  }

  // --------------------------------------------- the history stays accepted

  lemma BlocksCons(b: Stored, rest: seq<Stored>)
    ensures BlocksIn([b] + rest) == [b.block] + BlocksIn(rest)
  {
    assert ([b] + rest)[1..] == rest;
  }

  lemma {:induction false} RunCons(active: seq<Call>, b: Block, rest: seq<Block>)
    ensures RunBlocks(active, [b] + rest)
         == match StepBlock(active, b) case Ok(next) => RunBlocks(next, rest) case Rejected(e) => Rejected(e)
  {
    assert ([b] + rest)[1..] == rest;
  }

  /** What pruning does to one block the automaton does not see. */
  lemma StubSteps(active: seq<Call>, b: Stored)
    ensures StepBlock(active, Stub(b).block) == StepBlock(active, b.block)
    ensures b.block.Thinking? ==> StepBlock(active, b.block) == Ok(active)
    ensures Stub(b).block.ToolResult? <==> b.block.ToolResult?
    ensures IsServerBlock(Stub(b).block) <==> IsServerBlock(b.block)
    ensures !b.block.ToolResult? ==> Stub(b) == b
  {
  }

  lemma PrunedStep(parts: seq<Stored>, picks: seq<Pick>, from: nat)
    requires OwnPicks(parts, picks) && from < |parts|
    ensures Addressed(picks, from, true) ==> parts[from].block.Thinking?
    ensures Addressed(picks, from, false) ==> parts[from].block.ToolResult?
    ensures parts[from..] == [parts[from]] + parts[from + 1..]
    ensures Pruned(parts, picks, from)
         == (if Addressed(picks, from, true) then [] else if Addressed(picks, from, false) then [Stub(parts[from])] else [parts[from]])
            + Pruned(parts, picks, from + 1)
  {
    if Addressed(picks, from, false) {
      var k :| 0 <= k < |picks| && picks[k].index == from && picks[k].drop == false;
      assert Eligible(parts, picks[k].index) && picks[k].drop == IsThinking(parts[picks[k].index]);
    }
  }

  lemma {:induction false} PrunedRuns(active: seq<Call>, parts: seq<Stored>, picks: seq<Pick>, from: nat)
    requires OwnPicks(parts, picks) && from <= |parts|
    ensures RunBlocks(active, BlocksIn(Pruned(parts, picks, from))) == RunBlocks(active, BlocksIn(parts[from..]))
    decreases |parts| - from
  {
    hide OwnPicks, Addressed, Stub, RunBlocks, StepBlock, Pruned, BlocksIn;
    if from == |parts| {
      PrunedEnd(parts, picks);
    } else {
      var b := parts[from];
      PrunedStep(parts, picks, from);
      StubSteps(active, b);
      var tail := Pruned(parts, picks, from + 1);
      BlocksCons(b, parts[from + 1..]);
      BlocksCons(b, tail);
      BlocksCons(Stub(b), tail);
      RunCons(active, b.block, BlocksIn(parts[from + 1..]));
      RunCons(active, b.block, BlocksIn(tail));
      RunCons(active, Stub(b).block, BlocksIn(tail));
      assert [] + tail == tail;
      if StepBlock(active, b.block).Ok? {
        PrunedRuns(StepBlock(active, b.block).active, parts, picks, from + 1);
      }
    }
  }

  lemma PrunedEnd(parts: seq<Stored>, picks: seq<Pick>)
    ensures Pruned(parts, picks, |parts|) == [] && parts[|parts|..] == []
  {
  }

  predicate IsServerBlock(b: Block) {
    b.ServerToolUse? || b.WebSearchResult?
  }

  function Servers(bs: seq<Block>): seq<Block> {
    if bs == [] then [] else (if IsServerBlock(bs[0]) then [bs[0]] else []) + Servers(bs[1..])
  }

  lemma {:induction false} ServersAppend(a: seq<Block>, b: seq<Block>)
    ensures Servers(a + b) == Servers(a) + Servers(b)
  {
    if a == [] {
      assert a + b == b;
    } else {
      assert (a + b)[1..] == a[1..] + b;
      ServersAppend(a[1..], b);
      var first := if IsServerBlock(a[0]) then [a[0]] else [];
      assert first + (Servers(a[1..]) + Servers(b)) == (first + Servers(a[1..])) + Servers(b);
    }
  }

  /** Whether server ids are fresh depends on the server blocks alone. */
  lemma {:induction false} FreshByServers(bs: seq<Block>)
    ensures FreshServerIds(bs) <==> FreshServerIds(Servers(bs))
    ensures forall b :: b in Servers(bs) <==> b in bs && IsServerBlock(b)
  {
    if bs != [] {
      FreshByServers(bs[1..]);
      FreshCons(bs[0], bs[1..]);
      assert bs == [bs[0]] + bs[1..];
      if IsServerBlock(bs[0]) {
        FreshCons(bs[0], Servers(bs[1..]));
      } else {
        assert [] + Servers(bs[1..]) == Servers(bs[1..]);
      }
    }
  }

  lemma FreshCons(b: Block, rest: seq<Block>)
    ensures FreshServerIds([b] + rest)
        <==> FreshServerIds(rest) && (b.WebSearchResult? ==> forall c | c in rest && c.ServerToolUse? :: b.callId != c.id)
  {
    var all := [b] + rest;
    assert forall i | 1 <= i < |all| :: all[i] == rest[i - 1] && all[i] in rest;
    if FreshServerIds(all) {
      FreshParts([b], rest);
      forall c | c in rest && c.ServerToolUse? && b.WebSearchResult? ensures b.callId != c.id {
        var i :| 0 <= i < |rest| && rest[i] == c;
        assert all[i + 1] == c && all[0] == b;
      }
    }
  }

  lemma {:induction false} PrunedServers(parts: seq<Stored>, picks: seq<Pick>, from: nat)
    requires OwnPicks(parts, picks) && from <= |parts|
    ensures Servers(BlocksIn(Pruned(parts, picks, from))) == Servers(BlocksIn(parts[from..]))
    decreases |parts| - from
  {
    hide OwnPicks, Addressed, Stub, Servers, Pruned, BlocksIn;
    if from == |parts| {
      PrunedEnd(parts, picks);
    } else {
      var b := parts[from];
      PrunedStep(parts, picks, from);
      StubSteps([], b);
      var tail := Pruned(parts, picks, from + 1);
      PrunedServers(parts, picks, from + 1);
      BlocksCons(b, parts[from + 1..]);
      BlocksCons(b, tail);
      BlocksCons(Stub(b), tail);
      ServersCons(b.block, BlocksIn(parts[from + 1..]));
      ServersCons(b.block, BlocksIn(tail));
      ServersCons(Stub(b).block, BlocksIn(tail));
      assert [] + tail == tail;
    }
  }

  lemma ServersCons(b: Block, rest: seq<Block>)
    ensures Servers([b] + rest) == (if IsServerBlock(b) then [b] + Servers(rest) else Servers(rest))
  {
    assert ([b] + rest)[1..] == rest;
    assert [] + Servers(rest) == Servers(rest);
  }

  /** Pruning adds no kind of block: whatever stands in the pruned message stood there before, stubs standing for results. */
  lemma {:induction false} PrunedKinds(parts: seq<Stored>, picks: seq<Pick>, from: nat)
    requires OwnPicks(parts, picks) && from <= |parts|
    ensures var pruned, before := Pruned(parts, picks, from), parts[from..];
            && (forall p | p in pruned && !p.block.ToolResult? :: p in before)
            && (forall p | p in before && !p.block.ToolResult? && !p.block.Thinking? :: p in pruned)
            && ((exists p :: p in pruned && p.block.ToolResult?) <==> (exists p :: p in before && p.block.ToolResult?))
    decreases |parts| - from
  {
    hide OwnPicks, Addressed, Stub;
    if from == |parts| {
      PrunedEnd(parts, picks);
    } else {
      var b := parts[from];
      PrunedKinds(parts, picks, from + 1);
      PrunedStep(parts, picks, from);
      hide Pruned;
      StubSteps([], b);
      var head := if Addressed(picks, from, true) then [] else if Addressed(picks, from, false) then [Stub(b)] else [b];
      KindsCons(head, b, Pruned(parts, picks, from + 1), parts[from + 1..]);
    }
  }

  lemma KindsCons(head: seq<Stored>, b: Stored, tail: seq<Stored>, rest: seq<Stored>)
    requires head == [b] || (head == [] && b.block.Thinking?) || (|head| == 1 && head[0].block.ToolResult? && b.block.ToolResult?)
    requires (forall p | p in tail && !p.block.ToolResult? :: p in rest)
    requires (forall p | p in rest && !p.block.ToolResult? && !p.block.Thinking? :: p in tail)
    requires (exists p :: p in tail && p.block.ToolResult?) <==> (exists p :: p in rest && p.block.ToolResult?)
    ensures var pruned, before := head + tail, [b] + rest;
            && (forall p | p in pruned && !p.block.ToolResult? :: p in before)
            && (forall p | p in before && !p.block.ToolResult? && !p.block.Thinking? :: p in pruned)
            && ((exists p :: p in pruned && p.block.ToolResult?) <==> (exists p :: p in before && p.block.ToolResult?))
  {
    if p :| p in rest && p.block.ToolResult? {
      var q :| q in tail && q.block.ToolResult?;
      assert q in head + tail;
      assert p in [b] + rest;
    }
    if b.block.ToolResult? {
      assert head[0] in head + tail;
      assert b in [b] + rest;
    }
  }

  // ------------------------------------------------------ whole histories

  /** The targets addressed to one message. */
  function PicksFor(picks: seq<Pick>, sseq: nat): seq<Pick> {
    if picks == [] then []
    else PicksFor(picks[..|picks| - 1], sseq) + (if picks[|picks| - 1].sseq == sseq then [picks[|picks| - 1]] else [])
  }

  ghost function PrunedEntry(e: Entry, picks: seq<Pick>): Entry {
    if e.body.Plain? then e else e.(body := Parts(Pruned(e.body.parts, PicksFor(picks, e.sseq), 0)))
  }

  ghost function PrunedAll(es: seq<Entry>, picks: seq<Pick>): (r: seq<Entry>)
    ensures |r| == |es| && forall i | 0 <= i < |es| :: r[i] == PrunedEntry(es[i], picks)
  {
    if es == [] then [] else [PrunedEntry(es[0], picks)] + PrunedAll(es[1..], picks)
  }

  ghost predicate AllOwn(es: seq<Entry>, picks: seq<Pick>) {
    forall i | 0 <= i < |es| :: OwnPicks(PartsOf(es[i]), PicksFor(picks, es[i].sseq))
  }

  lemma {:induction false} PicksForMembers(picks: seq<Pick>, sseq: nat)
    ensures forall k | 0 <= k < |PicksFor(picks, sseq)| :: PicksFor(picks, sseq)[k] in picks && PicksFor(picks, sseq)[k].sseq == sseq
  {
    if picks != [] {
      PicksForMembers(picks[..|picks| - 1], sseq);
    }
  }

  lemma {:induction false} PicksForOrder(picks: seq<Pick>, sseq: nat)
    requires Increasing(picks) && DropsLast(picks)
    ensures forall i, j | 0 <= i < j < |PicksFor(picks, sseq)| :: PicksFor(picks, sseq)[i].index < PicksFor(picks, sseq)[j].index
    ensures forall i | 0 <= i < |PicksFor(picks, sseq)| - 1 :: !PicksFor(picks, sseq)[i].drop
  {
    if picks != [] {
      var init, last := picks[..|picks| - 1], picks[|picks| - 1];
      assert forall i | 0 <= i < |init| :: init[i] == picks[i];
      PicksForOrder(init, sseq);
      PicksForMembers(init, sseq);
      var own := PicksFor(init, sseq);
      forall i | 0 <= i < |own| && last.sseq == sseq ensures own[i].index < last.index && !own[i].drop {
        var k :| 0 <= k < |init| && init[k] == own[i];
        assert picks[k] == own[i];
      }
    }
  }

  /** A plan gives every message targets of its own only. */
  lemma PlanOwnsItsPicks(messages: seq<Entry>, o: Options, picks: seq<Pick>, start: nat)
    requires PlanOk(messages, o, picks, start)
    ensures AllOwn(messages, picks)
  {
    hide PlanOk, OwnPicks, PicksFor;
    forall i | 0 <= i < |messages| ensures OwnPicks(PartsOf(messages[i]), PicksFor(picks, messages[i].sseq)) {
      EntryOwnsItsPicks(messages, o, picks, start, messages[i]);
    }
  }

  lemma EntryOwnsItsPicks(messages: seq<Entry>, o: Options, picks: seq<Pick>, start: nat, e: Entry)
    requires PlanOk(messages, o, picks, start) && e in messages
    ensures OwnPicks(PartsOf(e), PicksFor(picks, e.sseq))
  {
    hide SortBySseq, Eligible, Increasing, DropsLast, Gains, Addresses, SomeEntry, PicksFor, OwnPicks;
    SortSorted(messages);
    var own := PicksFor(picks, e.sseq);
    PicksForMembers(picks, e.sseq);
    PicksForOrder(picks, e.sseq);
    forall k | 0 <= k < |own|
      ensures own[k].index < |PartsOf(e)| && own[k].original == PartsOf(e)[own[k].index] && Eligible(PartsOf(e), own[k].index)
              && own[k].drop == IsThinking(PartsOf(e)[own[k].index])
    {
      var n :| 0 <= n < |picks| && picks[n] == own[k];
      EntryOfPick(messages, SortBySseq(messages)[..start], e, picks[n]);
      AddressMeans(e, own[k]);
    }
    OwnFrom(PartsOf(e), own);
  }

  lemma AddressMeans(e: Entry, p: Pick)
    requires Addresses(e, p)
    ensures p.index < |PartsOf(e)| && p.original == PartsOf(e)[p.index] && Eligible(PartsOf(e), p.index)
            && p.drop == IsThinking(PartsOf(e)[p.index])
  {
  }

  lemma EntryOfPick(messages: seq<Entry>, es: seq<Entry>, e: Entry, p: Pick)
    requires DistinctSseq(messages) && e in messages && SomeEntry(es, p) && p.sseq == e.sseq
    requires forall x | x in es :: x in messages
    ensures Addresses(e, p)
  {
    hide Addresses;
    var m :| 0 <= m < |es| && Addresses(es[m], p);
    AddressOf(es[m], p);
    SameEntry(messages, es[m], e);
  }

  lemma SameEntry(es: seq<Entry>, a: Entry, b: Entry)
    requires DistinctSseq(es) && a in es && b in es && a.sseq == b.sseq
    ensures a == b
  {
  }

  /** Pruning one message changes neither what the automaton does with it nor whether a turn starts there. */
  lemma PrunedMessage(e: Entry, picks: seq<Pick>)
    requires OwnPicks(PartsOf(e), PicksFor(picks, e.sseq))
    ensures var before, after := Seen(e), Seen(PrunedEntry(e, picks));
            && (forall active: seq<Call> :: StepMessage(active, before).Ok? ==> StepMessage(active, after) == StepMessage(active, before))
            && (IsPrompt(after) <==> IsPrompt(before))
            && Servers(BlocksOf(after)) == Servers(BlocksOf(before))
  {
    hide Pruned, OwnPicks, RunBlocks, Servers;
    if e.body.Parts? {
      var parts, own := e.body.parts, PicksFor(picks, e.sseq);
      assert parts[0..] == parts;
      PrunedServers(parts, own, 0);
      PrunedKinds(parts, own, 0);
      var pruned := Pruned(parts, own, 0);
      ContentKinds(parts, pruned);
      forall active: seq<Call> | StepMessage(active, Seen(e)).Ok?
        ensures StepMessage(active, Seen(PrunedEntry(e, picks))) == StepMessage(active, Seen(e))
      {
        PrunedRuns(active, parts, own, 0);
      }
      PromptKinds(e, parts, pruned);
    }
  }

  lemma ContentKinds(parts: seq<Stored>, pruned: seq<Stored>)
    requires forall p | p in pruned && !p.block.ToolResult? :: p in parts
    ensures HasNonResult(Blocks(BlocksIn(pruned))) ==> HasNonResult(Blocks(BlocksIn(parts)))
  {
    if HasNonResult(Blocks(BlocksIn(pruned))) {
      var i :| 0 <= i < |pruned| && !BlocksIn(pruned)[i].ToolResult?;
      assert pruned[i] in parts;
      var j :| 0 <= j < |parts| && parts[j] == pruned[i];
      assert BlocksIn(parts)[j] == pruned[i].block;
    }
  }

  lemma PromptKinds(e: Entry, parts: seq<Stored>, pruned: seq<Stored>)
    requires e.body == Parts(parts)
    requires (forall p | p in pruned && !p.block.ToolResult? :: p in parts)
    requires (forall p | p in parts && !p.block.ToolResult? && !p.block.Thinking? :: p in pruned)
    requires (exists p :: p in pruned && p.block.ToolResult?) <==> (exists p :: p in parts && p.block.ToolResult?)
    ensures IsPrompt(Seen(e.(body := Parts(pruned)))) <==> IsPrompt(Seen(e))
  {
    HasKinds(parts);
    HasKinds(pruned);
  }

  /** What the prompt test looks for, said of stored blocks. */
  lemma HasKinds(parts: seq<Stored>)
    ensures (exists b :: b in BlocksIn(parts) && IsResult(b)) <==> (exists p :: p in parts && IsResult(p.block))
    ensures (exists b :: b in BlocksIn(parts) && (b.Text? || b.Image?)) <==> (exists p :: p in parts && (p.block.Text? || p.block.Image?))
  {
    if b :| b in BlocksIn(parts) && IsResult(b) {
      var i :| 0 <= i < |parts| && BlocksIn(parts)[i] == b;
      assert parts[i] in parts;
    }
    if p :| p in parts && IsResult(p.block) {
      var i :| 0 <= i < |parts| && parts[i] == p;
      assert BlocksIn(parts)[i] in BlocksIn(parts);
    }
    if b :| b in BlocksIn(parts) && (b.Text? || b.Image?) {
      var i :| 0 <= i < |parts| && BlocksIn(parts)[i] == b;
      assert parts[i] in parts;
    }
    if p :| p in parts && (p.block.Text? || p.block.Image?) {
      var i :| 0 <= i < |parts| && parts[i] == p;
      assert BlocksIn(parts)[i] in BlocksIn(parts);
    }
  }

  lemma {:induction false} PrunedRun(active: seq<Call>, es: seq<Entry>, picks: seq<Pick>)
    requires AllOwn(es, picks) && RunFrom(active, SeenAll(es)).Ok?
    ensures RunFrom(active, SeenAll(PrunedAll(es, picks))) == RunFrom(active, SeenAll(es))
    decreases |es|
  {
    hide StepMessage, PrunedEntry, Seen, OwnPicks;
    if es != [] {
      var e := es[0];
      assert OwnPicks(PartsOf(e), PicksFor(picks, e.sseq));
      PrunedMessage(e, picks);
      assert AllOwn(es[1..], picks);
      assert SeenAll(es)[1..] == SeenAll(es[1..]);
      assert SeenAll(PrunedAll(es, picks))[1..] == SeenAll(PrunedAll(es[1..], picks));
      var next := StepMessage(active, Seen(e));
      PrunedRun(next.active, es[1..], picks);
    }
  }

  lemma {:induction false} PrunedAllServers(es: seq<Entry>, picks: seq<Pick>)
    requires AllOwn(es, picks)
    ensures Servers(AllBlocks(SeenAll(PrunedAll(es, picks)))) == Servers(AllBlocks(SeenAll(es)))
    decreases |es|
  {
    hide PrunedEntry, Seen, OwnPicks, Servers, BlocksOf;
    var before, after := SeenAll(es), SeenAll(PrunedAll(es, picks));
    if es != [] {
      var k := |es| - 1;
      assert OwnPicks(PartsOf(es[k]), PicksFor(picks, es[k].sseq));
      PrunedMessage(es[k], picks);
      assert AllOwn(es[..k], picks);
      PrunedAllServers(es[..k], picks);
      assert before[..k] == SeenAll(es[..k]) && after[..k] == SeenAll(PrunedAll(es[..k], picks));
      ServersAppend(AllBlocks(before[..k]), BlocksOf(before[k]));
      ServersAppend(AllBlocks(after[..k]), BlocksOf(after[k]));
    }
  }

  /** Pruning keeps the history valid, with the very same calls pending. */
  lemma PruneKeepsHistoryValid(es: seq<Entry>, picks: seq<Pick>)
    requires AllOwn(es, picks) && ValidHistory(SeenAll(es))
    ensures ValidHistory(SeenAll(PrunedAll(es, picks)))
    ensures Run(SeenAll(PrunedAll(es, picks))) == Run(SeenAll(es))
  {
    hide AllOwn, FreshServerIds, Servers, CleanAtPrompts, RunFrom, AllBlocks;
    var before, after := SeenAll(es), SeenAll(PrunedAll(es, picks));
    PrunedRun([], es, picks);
    PrunedAllServers(es, picks);
    FreshByServers(AllBlocks(before));
    FreshByServers(AllBlocks(after));
    PrunedStaysClean(es, picks);
  }

  lemma PrunedPrompt(e: Entry, picks: seq<Pick>)
    requires OwnPicks(PartsOf(e), PicksFor(picks, e.sseq))
    ensures IsPrompt(Seen(PrunedEntry(e, picks))) <==> IsPrompt(Seen(e))
  {
    hide OwnPicks, IsPrompt;
    PrunedMessage(e, picks);
  }

  lemma PrunedStaysClean(es: seq<Entry>, picks: seq<Pick>)
    requires AllOwn(es, picks) && CleanAtPrompts(SeenAll(es)) && Run(SeenAll(es)).Ok?
    ensures CleanAtPrompts(SeenAll(PrunedAll(es, picks)))
  {
    hide AllOwn, IsPrompt, RunFrom, PrunedEntry, Seen, SeenAll, PrunedAll;
    var after := SeenAll(PrunedAll(es, picks));
    forall k | 0 <= k < |after| && IsPrompt(after[k]) && Run(after[..k]).Ok? ensures Run(after[..k]).active == [] {
      PrunedCleanAt(es, picks, k);
    }
  }

  lemma PrunedCleanAt(es: seq<Entry>, picks: seq<Pick>, k: nat)
    requires AllOwn(es, picks) && CleanAtPrompts(SeenAll(es)) && Run(SeenAll(es)).Ok? && k < |es|
    requires var after := SeenAll(PrunedAll(es, picks)); IsPrompt(after[k]) && Run(after[..k]).Ok?
    ensures Run(SeenAll(PrunedAll(es, picks))[..k]).active == []
  {
    hide AllOwn, IsPrompt, RunFrom, PrunedEntry, Seen, OwnPicks;
    var before, after := SeenAll(es), SeenAll(PrunedAll(es, picks));
    OwnPrefix(es, picks, k);
    PrunedPrompt(es[k], picks);
    assert before[..k] == SeenAll(es[..k]) && after[..k] == SeenAll(PrunedAll(es[..k], picks));
    RunPrefix(before, k);
    PrunedRun([], es[..k], picks);
  }

  lemma OwnPrefix(es: seq<Entry>, picks: seq<Pick>, k: nat)
    requires AllOwn(es, picks) && k < |es|
    ensures AllOwn(es[..k], picks) && OwnPicks(PartsOf(es[k]), PicksFor(picks, es[k].sseq))
  {
    hide OwnPicks;
  }

  // ------------------------------------------------------------ receipts

  /** Replay's target order for one message: highest block index first. */
  ghost predicate ReplayOrder(targets: seq<Pick>, picks: seq<Pick>) {
    forall s :: PicksFor(targets, s) == Reverse(PicksFor(picks, s))
  }

  ghost predicate Applied(es: seq<Entry>, targets: seq<Pick>, working: map<nat, seq<Stored>>) {
    && (forall i | 0 <= i < |es| && es[i].body.Parts? ::
          ApplyInOrder(es[i].body.parts, PicksFor(targets, es[i].sseq))
          == Some(if es[i].sseq in working then working[es[i].sseq] else es[i].body.parts))
    && (forall i | 0 <= i < |es| && es[i].body.Plain? :: es[i].sseq !in working)
  }

  function FindEntry(es: seq<Entry>, sseq: nat): Option<Entry> {
    if es == [] then None else if es[0].sseq == sseq then Some(es[0]) else FindEntry(es[1..], sseq)
  }

  lemma {:induction false} FindEntryIs(es: seq<Entry>, sseq: nat)
    ensures FindEntry(es, sseq).Some? ==> FindEntry(es, sseq).value in es && FindEntry(es, sseq).value.sseq == sseq
    ensures FindEntry(es, sseq).None? ==> forall e | e in es :: e.sseq != sseq
  {
    if es != [] {
      FindEntryIs(es[1..], sseq);
    }
  }

  lemma {:induction false} InOrderAppend(parts: seq<Stored>, picks: seq<Pick>, p: Pick)
    ensures ApplyInOrder(parts, picks + [p])
         == match ApplyInOrder(parts, picks) case None => None case Some(next) => ApplyPick(next, p)
    decreases |picks|
  {
    hide ApplyPick;
    if picks == [] {
      assert [] + [p] == [p] && [p][1..] == [];
    } else {
      assert (picks + [p])[1..] == picks[1..] + [p];
      var first := ApplyPick(parts, picks[0]);
      if first.Some? {
        InOrderAppend(first.value, picks[1..], p);
      }
    }
  }

  /**
   Apply a receipt on copies, one target after the other; the messages change
   only when every target was found as the plan saw it.
   */
  method ApplyReceiptPrune(es: seq<Entry>, targets: seq<Pick>) returns (r: Option<seq<Entry>>)
    requires DistinctSseq(es)
    ensures r.Some? ==> exists working :: Applied(es, targets, working) && r.value == Commit(es, working)
    ensures r.None? ==> exists k :: 0 <= k < |targets| && Fails(es, targets[..k], targets[k])
  {
    hide ApplyInOrder, PicksFor, Commit, FindEntry;
    var working: map<nat, seq<Stored>> := map[];
    NothingApplied(es);
    for k := 0 to |targets|
      invariant Applied(es, targets[..k], working)
    {
      var target := targets[k];
      FindEntryIs(es, target.sseq);
      var found := FindEntry(es, target.sseq);
      if found.None? || found.value.body.Plain? {
        return None;
      }
      var blocks := if target.sseq in working then working[target.sseq] else found.value.body.parts;
      if target.index >= |blocks| || blocks[target.index] != target.original {
        return None;
      }
      var block := blocks[target.index];
      if !target.drop {
        if !block.block.ToolResult? || block.stubbed {
          return None;
        }
        blocks := blocks[target.index := Stored(ToolResult(block.block.callId, block.block.isError, ["[cleared]"]), true, 0)];
      } else {
        if !block.block.Thinking? || !(exists b :: b in blocks && !b.block.Thinking?) {
          return None;
        }
        blocks := blocks[..target.index] + blocks[target.index + 1..];
      }
      AppliedNext(es, targets[..k], target, found.value, working, blocks);
      assert targets[..k + 1] == targets[..k] + [target];
      working := working[target.sseq := blocks];
    }
    assert targets[..|targets|] == targets;
    r := Some(Commit(es, working));
  }

  /** The target does not find, after those before it, the block it was chosen for. */
  ghost predicate Fails(es: seq<Entry>, before: seq<Pick>, p: Pick) {
    forall e | e in es && e.sseq == p.sseq ::
      e.body.Plain? || (ApplyInOrder(e.body.parts, PicksFor(before, p.sseq)).Some?
                        && ApplyPick(ApplyInOrder(e.body.parts, PicksFor(before, p.sseq)).value, p).None?)
  }

  function Commit(es: seq<Entry>, working: map<nat, seq<Stored>>): (r: seq<Entry>)
    ensures |r| == |es| && forall i | 0 <= i < |es| ::
              r[i] == if es[i].sseq in working then es[i].(body := Parts(working[es[i].sseq])) else es[i]
  {
    if es == [] then []
    else [if es[0].sseq in working then es[0].(body := Parts(working[es[0].sseq])) else es[0]] + Commit(es[1..], working)
  }

  lemma NothingApplied(es: seq<Entry>)
    ensures Applied(es, [], map[])
  {
  }

  lemma AppliedNext(es: seq<Entry>, targets: seq<Pick>, p: Pick, e: Entry, working: map<nat, seq<Stored>>, next: seq<Stored>)
    requires DistinctSseq(es) && Applied(es, targets, working) && e in es && e.sseq == p.sseq && e.body.Parts?
    requires ApplyPick(if p.sseq in working then working[p.sseq] else e.body.parts, p) == Some(next)
    ensures Applied(es, targets + [p], working[p.sseq := next])
  {
    hide ApplyPick, ApplyInOrder, PicksFor, DistinctSseq;
    forall i | 0 <= i < |es| && es[i].body.Parts?
      ensures ApplyInOrder(es[i].body.parts, PicksFor(targets + [p], es[i].sseq))
           == Some(if es[i].sseq in working[p.sseq := next] then working[p.sseq := next][es[i].sseq] else es[i].body.parts)
    {
      PicksForNext(targets, p, es[i].sseq);
      if es[i].sseq == p.sseq {
        SameEntry(es, es[i], e);
        InOrderAppend(e.body.parts, PicksFor(targets, p.sseq), p);
      }
    }
    forall i | 0 <= i < |es| && es[i].body.Plain? ensures es[i].sseq != p.sseq {
      OtherEntry(es, es[i], e);
    }
  }

  lemma PicksForNext(targets: seq<Pick>, p: Pick, sseq: nat)
    ensures PicksFor(targets + [p], sseq) == if p.sseq == sseq then PicksFor(targets, sseq) + [p] else PicksFor(targets, sseq)
  {
    assert (targets + [p])[..|targets|] == targets;
    assert PicksFor(targets, sseq) + [] == PicksFor(targets, sseq);
  }

  lemma OtherEntry(es: seq<Entry>, a: Entry, b: Entry)
    requires DistinctSseq(es) && a in es && b in es && a != b
    ensures a.sseq != b.sseq
  {
  }

  /** Taken highest index first, the targets of a plan leave every message as the plan meant it. */
  lemma ReplayIsThePlan(es: seq<Entry>, picks: seq<Pick>, targets: seq<Pick>, working: map<nat, seq<Stored>>)
    requires AllOwn(es, picks) && ReplayOrder(targets, picks) && Applied(es, targets, working)
    ensures Commit(es, working) == PrunedAll(es, picks)
  {
    hide ApplyInOrder, OwnPicks, Pruned;
    forall i | 0 <= i < |es| ensures Commit(es, working)[i] == PrunedAll(es, picks)[i] {
      var own := PicksFor(picks, es[i].sseq);
      assert OwnPicks(PartsOf(es[i]), own) && PicksFor(targets, es[i].sseq) == Reverse(own);
      DescendingHits(PartsOf(es[i]), own);
    }
  }

  lemma {:induction false} InOrderPrefix(parts: seq<Stored>, a: seq<Pick>, b: seq<Pick>)
    requires ApplyInOrder(parts, a + b).Some?
    ensures ApplyInOrder(parts, a).Some?
    decreases |a|
  {
    hide ApplyPick;
    if a != [] {
      assert (a + b)[1..] == a[1..] + b;
      InOrderPrefix(ApplyPick(parts, a[0]).value, a[1..], b);
    }
  }

  lemma {:induction false} PicksForAppend(a: seq<Pick>, b: seq<Pick>, sseq: nat)
    ensures PicksFor(a + b, sseq) == PicksFor(a, sseq) + PicksFor(b, sseq)
  {
    if b == [] {
      assert a + b == a;
    } else {
      assert (a + b)[..|a + b| - 1] == a + b[..|b| - 1];
      PicksForAppend(a, b[..|b| - 1], sseq);
    }
  }

  /** Replaying a plan never finds a stale target. */
  lemma ReplayNeverFails(es: seq<Entry>, picks: seq<Pick>, targets: seq<Pick>, k: nat)
    requires AllOwn(es, picks) && ReplayOrder(targets, picks) && k < |targets|
    requires exists e :: e in es && e.sseq == targets[k].sseq && e.body.Parts?
    ensures !Fails(es, targets[..k], targets[k])
  {
    hide ApplyInOrder, ApplyPick, OwnPicks, Pruned, PicksFor;
    var p := targets[k];
    var e :| e in es && e.sseq == p.sseq && e.body.Parts?;
    var i :| 0 <= i < |es| && es[i] == e;
    assert OwnPicks(PartsOf(es[i]), PicksFor(picks, e.sseq)) && PicksFor(targets, e.sseq) == Reverse(PicksFor(picks, e.sseq));
    DescendingHits(e.body.parts, PicksFor(picks, e.sseq));
    assert targets == targets[..k] + ([p] + targets[k + 1..]);
    PicksForAppend(targets[..k], [p] + targets[k + 1..], p.sseq);
    PicksForAppend([p], targets[k + 1..], p.sseq);
    OnePick(p);
    var before, rest := PicksFor(targets[..k], p.sseq), PicksFor(targets[k + 1..], p.sseq);
    assert PicksFor(targets, p.sseq) == (before + [p]) + rest;
    InOrderPrefix(e.body.parts, before + [p], rest);
    InOrderPrefix(e.body.parts, before, [p]);
    InOrderAppend(e.body.parts, before, p);
  }

  lemma OnePick(p: Pick)
    ensures PicksFor([p], p.sseq) == [p]
  {
    assert [p][..0] == [] && [] + [p] == [p];
  }

  // ------------------------------------------------- from plan to replay

  /** The order of the receipt's targets: messages oldest first, blocks of a message from the back. */
  predicate Before(a: Pick, b: Pick) {
    a.sseq < b.sseq || (a.sseq == b.sseq && a.index > b.index)
  }

  function InsertTarget(p: Pick, targets: seq<Pick>): seq<Pick> {
    if targets == [] || !Before(targets[0], p) then [p] + targets else [targets[0]] + InsertTarget(p, targets[1..])
  }

  function SortTargets(picks: seq<Pick>): seq<Pick> {
    if picks == [] then [] else InsertTarget(picks[|picks| - 1], SortTargets(picks[..|picks| - 1]))
  }

  /** Messages oldest first, the blocks of one message from the back. */
  ghost predicate InReplayOrder(targets: seq<Pick>) {
    forall i, j | 0 <= i < j < |targets| ::
      targets[i].sseq < targets[j].sseq || (targets[i].sseq == targets[j].sseq && targets[i].index >= targets[j].index)
  }

  lemma {:induction false} InsertedPermutes(p: Pick, targets: seq<Pick>)
    ensures multiset(InsertTarget(p, targets)) == multiset(targets) + multiset{p}
    decreases |targets|
  {
    hide Before;
    if targets != [] && Before(targets[0], p) {
      InsertedPermutes(p, targets[1..]);
      assert targets == [targets[0]] + targets[1..];
    }
  }

  lemma {:induction false} InsertedInOrder(p: Pick, targets: seq<Pick>)
    requires InReplayOrder(targets)
    ensures InReplayOrder(InsertTarget(p, targets))
    decreases |targets|
  {
    if targets != [] && Before(targets[0], p) {
      var rest := InsertTarget(p, targets[1..]);
      InsertedInOrder(p, targets[1..]);
      InsertedPermutes(p, targets[1..]);
      forall j | 0 <= j < |rest|
        ensures targets[0].sseq < rest[j].sseq || (targets[0].sseq == rest[j].sseq && targets[0].index >= rest[j].index)
      {
        assert rest[j] in multiset(rest);
        if rest[j] != p {
          var k :| 0 <= k < |targets[1..]| && targets[1..][k] == rest[j];
          assert targets[k + 1] == rest[j];
        }
      }
      FirstKeepsOrder(targets[0], rest);
    } else if targets != [] {
      FirstKeepsOrder(p, targets);
    }
  }

  lemma FirstKeepsOrder(first: Pick, rest: seq<Pick>)
    requires InReplayOrder(rest)
    requires rest == [] || first.sseq < rest[0].sseq || (first.sseq == rest[0].sseq && first.index >= rest[0].index)
    ensures InReplayOrder([first] + rest)
  {
    forall j | 0 <= j < |rest|
      ensures first.sseq < rest[j].sseq || (first.sseq == rest[j].sseq && first.index >= rest[j].index)
    {
      if j > 0 {
        assert rest[0].sseq <= rest[j].sseq;
      }
    }
  }

  /** The targets are sorted as replay sorts them, and none is lost or added. */
  lemma {:induction false} SortedForReplay(picks: seq<Pick>)
    ensures InReplayOrder(SortTargets(picks)) && multiset(SortTargets(picks)) == multiset(picks)
    decreases |picks|
  {
    if picks != [] {
      var init, last := picks[..|picks| - 1], picks[|picks| - 1];
      SortedForReplay(init);
      InsertedInOrder(last, SortTargets(init));
      InsertedPermutes(last, SortTargets(init));
      assert picks == init + [last];
    }
  }

  /** The newest target of its message goes in front of the message's other ones, and nowhere else matters. */
  lemma {:induction false} InsertedFirst(p: Pick, targets: seq<Pick>, sseq: nat)
    requires forall t | t in targets && t.sseq == p.sseq :: t.index < p.index
    ensures PicksFor(InsertTarget(p, targets), sseq) == (if p.sseq == sseq then [p] else []) + PicksFor(targets, sseq)
    ensures forall t :: t in InsertTarget(p, targets) <==> t == p || t in targets
    decreases |targets|
  {
    hide PicksFor;
    OnePickFor(p, sseq);
    PicksForAppend([p], targets, sseq);
    if targets != [] {
      assert targets == [targets[0]] + targets[1..];
      if Before(targets[0], p) {
        InsertedFirst(p, targets[1..], sseq);
        OnePickFor(targets[0], sseq);
        PicksForAppend([targets[0]], targets[1..], sseq);
        PicksForAppend([targets[0]], InsertTarget(p, targets[1..]), sseq);
        assert targets[0] in targets && targets[0].sseq < p.sseq;
      }
    }
  }

  lemma OnePickFor(p: Pick, sseq: nat)
    ensures PicksFor([p], sseq) == if p.sseq == sseq then [p] else []
  {
    assert [p][..0] == [] && [] + [p] == [p];
  }

  /** Sorting the targets of a plan turns the order of each message's targets around, and loses none. */
  lemma {:induction false} SortIsReplayOrder(picks: seq<Pick>)
    requires Increasing(picks)
    ensures ReplayOrder(SortTargets(picks), picks)
    ensures forall t :: t in SortTargets(picks) <==> t in picks
    decreases |picks|
  {
    hide InsertTarget, PicksFor, Increasing, Reverse;
    if picks == [] {
      forall s ensures PicksFor(SortTargets(picks), s) == Reverse(PicksFor(picks, s)) {
        NoTargets(s);
      }
    } else {
      var init, last := picks[..|picks| - 1], picks[|picks| - 1];
      LastIsNewest(picks);
      SortIsReplayOrder(init);
      assert picks == init + [last];
      forall s ensures PicksFor(SortTargets(picks), s) == Reverse(PicksFor(picks, s)) {
        InsertedFirst(last, SortTargets(init), s);
        ReverseNext(init, last, s);
      }
      InsertedFirst(last, SortTargets(init), 0);
    }
  }

  lemma NoTargets(sseq: nat)
    ensures PicksFor([], sseq) == [] && Reverse([]) == []
  {
  }

  lemma LastIsNewest(picks: seq<Pick>)
    requires picks != [] && Increasing(picks)
    ensures forall t | t in picks[..|picks| - 1] && t.sseq == picks[|picks| - 1].sseq :: t.index < picks[|picks| - 1].index
    ensures Increasing(picks[..|picks| - 1])
  {
    var init := picks[..|picks| - 1];
    forall t | t in init && t.sseq == picks[|picks| - 1].sseq ensures t.index < picks[|picks| - 1].index {
      var i :| 0 <= i < |init| && init[i] == t;
      assert picks[i] == t;
    }
  }

  lemma ReverseNext(init: seq<Pick>, last: Pick, sseq: nat)
    ensures Reverse(PicksFor(init + [last], sseq)) == (if last.sseq == sseq then [last] else []) + Reverse(PicksFor(init, sseq))
  {
    hide Reverse;
    PicksForNext(init, last, sseq);
    ReverseSnoc(PicksFor(init, sseq), last);
    assert [] + Reverse(PicksFor(init, sseq)) == Reverse(PicksFor(init, sseq));
  }

  lemma ReverseSnoc(picks: seq<Pick>, p: Pick)
    ensures Reverse(picks + [p]) == [p] + Reverse(picks)
  {
    assert (picks + [p])[..|picks|] == picks;
  }

  /** What replay does with a prune revision: sort the targets of its receipt, then apply them. */
  method ReplayPrune(es: seq<Entry>, picks: seq<Pick>) returns (r: Option<seq<Entry>>)
    requires DistinctSseq(es)
    ensures AllOwn(es, picks) && Increasing(picks) && AllAddressed(es, picks) ==> r == Some(PrunedAll(es, picks))
  {
    hide AllOwn, Increasing, AllAddressed, Applied, Fails, ReplayOrder;
    var targets := SortTargets(picks);
    r := ApplyReceiptPrune(es, targets);
    if AllOwn(es, picks) && Increasing(picks) && AllAddressed(es, picks) {
      SortIsReplayOrder(picks);
      if r.None? {
        var k :| 0 <= k < |targets| && Fails(es, targets[..k], targets[k]);
        AddressedSomewhere(es, picks, targets[k]);
        ReplayNeverFails(es, picks, targets, k);
      } else {
        var working :| Applied(es, targets, working) && r.value == Commit(es, working);
        ReplayIsThePlan(es, picks, targets, working);
      }
    }
  }

  lemma AddressedSomewhere(es: seq<Entry>, picks: seq<Pick>, p: Pick)
    requires AllAddressed(es, picks) && p in picks
    ensures exists e :: e in es && e.sseq == p.sseq && e.body.Parts?
  {
    var k :| 0 <= k < |picks| && picks[k] == p;
    assert SomeEntry(es, picks[k]);
    var i :| 0 <= i < |es| && Addresses(es[i], p);
    assert es[i] in es;
  }

  /**
   Planning a prune and replaying its receipt: never refused, and every message
   is left as the plan meant it.
   */
  method PlanAndReplay(es: seq<Entry>, o: Options) 
    returns (picks: seq<Pick>, r: Option<seq<Entry>>, ghost start: nat)
    requires DistinctSseq(es)
    ensures if o.usable == 0 then picks == [] else Planned(es, o, picks, start)
    ensures AllOwn(es, picks) && r == Some(PrunedAll(es, picks))
    ensures ValidHistory(SeenAll(es)) ==> ValidHistory(SeenAll(r.value)) && Run(SeenAll(r.value)) == Run(SeenAll(es))
  {
    hide SortBySseq, AllOwn, Increasing, AllAddressed, ValidHistory, PlanOk, Planned, ProtectedFrom, Tight, AllCandidates, Take, Quota;
    picks, start := PlanPruneStubs(es, o);
    if o.usable == 0 {
      NothingPicked(es);
    } else {
      PlanIsOk(es, o, picks, start);
      PlanOwnsItsPicks(es, o, picks, start);
      PlanAddresses(es, o, picks, start);
    }
    r := ReplayPrune(es, picks);
    if ValidHistory(SeenAll(es)) {
      PruneKeepsHistoryValid(es, picks);
    }
  }

  lemma NothingPicked(es: seq<Entry>)
    ensures AllOwn(es, []) && Increasing([]) && AllAddressed(es, [])
  {
  }

  lemma PlanAddresses(es: seq<Entry>, o: Options, picks: seq<Pick>, start: nat)
    requires PlanOk(es, o, picks, start)
    ensures Increasing(picks) && AllAddressed(es, picks)
  {
    hide SortBySseq, Increasing, DropsLast, Gains, Addresses;
    SortSorted(es);
    var sorted := SortBySseq(es)[..start];
    forall k | 0 <= k < |picks| ensures SomeEntry(es, picks[k]) {
      assert SomeEntry(sorted, picks[k]);
      var i :| 0 <= i < |sorted| && Addresses(sorted[i], picks[k]);
      assert sorted[i] == SortBySseq(es)[i] && SortBySseq(es)[i] in es;
      var j :| 0 <= j < |es| && es[j] == sorted[i];
      assert Addresses(es[j], picks[k]);
    }
  }
}
