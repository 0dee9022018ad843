/**
 Fitting the history into the provider window: where an old span may be cut
 off, and why what is left is still a history the projector accepts.
 */
module Compaction {
  import opened Wrappers
  import opened ToolHistory

  const PROTECT_TURNS: int := 2

  // ------------------------------------------------------------- prompts

  predicate IsResult(b: Block) {
    b.ToolResult? || b.WebSearchResult?
  }

  /** A message a turn may start at: from the user, with prompt content, and no tool result. */
  predicate IsPrompt(m: Message) {
    m.fromUser &&
    match m.content
    case Str(_) => true
    case Blocks(bs) => (forall b :: b in bs ==> !IsResult(b)) && (exists b :: b in bs && (b.Text? || b.Image?))
  }

  method IsUserPrompt(m: Message) returns (r: bool)
    ensures r == IsPrompt(m)
  {
    if !m.fromUser {
      return false;
    }
    if m.content.Str? {
      return true;
    }
    var bs := m.content.blocks;
    r := false;
    for i := 0 to |bs|
      invariant forall k | 0 <= k < i :: !IsResult(bs[k])
      invariant r <==> exists k :: 0 <= k < i && (bs[k].Text? || bs[k].Image?)
    {
      if IsResult(bs[i]) {
        return false;
      }
      if bs[i].Text? || bs[i].Image? {
        r := true;
      }
    }
  }

  function Prompts(ms: seq<Message>): (n: nat)
    ensures n <= |ms|
  {
    if ms == [] then 0 else (if IsPrompt(ms[0]) then 1 else 0) + Prompts(ms[1..])
  }

  function Tokens(ms: seq<Message>): nat {
    if ms == [] then 0 else ms[0].tokens + Tokens(ms[1..])
  }

  lemma SuffixStep(ms: seq<Message>, i: nat)
    requires i < |ms|
    ensures Prompts(ms[i..]) == (if IsPrompt(ms[i]) then 1 else 0) + Prompts(ms[i + 1..])
    ensures Tokens(ms[i..]) == ms[i].tokens + Tokens(ms[i + 1..])
  {
    assert ms[i..][1..] == ms[i + 1..];
  }

  /** Nothing but non-prompts before `k`: the suffix has all the prompts. */
  lemma {:induction false} NoPromptBefore(ms: seq<Message>, k: nat)
    requires k <= |ms| && forall j | 0 <= j < k :: !IsPrompt(ms[j])
    ensures Prompts(ms[k..]) == Prompts(ms)
  {
    if k == 0 {
      assert ms[0..] == ms;
    } else {
      SuffixStep(ms, k - 1);
      NoPromptBefore(ms, k - 1);
    }
  }

  lemma {:induction false} PromptsShrink(ms: seq<Message>, i: nat, j: nat)
    requires i <= j <= |ms|
    ensures Prompts(ms[j..]) <= Prompts(ms[i..])
    decreases j - i
  {
    if i < j {
      SuffixStep(ms, i);
      PromptsShrink(ms, i + 1, j);
    }
  }

  lemma PromptsBound(ms: seq<Message>, i: nat)
    requires i <= |ms|
    ensures Prompts(ms[i..]) <= Prompts(ms)
  {
    PromptsShrink(ms, 0, i);
    assert ms[0..] == ms;
  }

  // ------------------------------------------------------------ boundary

  /** From prompt `i` on there are enough turns and enough tokens. */
  ghost predicate Guarded(ms: seq<Message>, i: nat, guardTokens: real, protectTurns: int) {
    i < |ms| && IsPrompt(ms[i]) && Prompts(ms[i..]) >= protectTurns && Tokens(ms[i..]) as real >= guardTokens
  }

  /** The newest guarded prompt; failing that the oldest prompt; failing that the end. */
  ghost predicate IsBoundary(ms: seq<Message>, b: nat, guardTokens: real, protectTurns: int) {
    && b <= |ms|
    && (b < |ms| ==> IsPrompt(ms[b]))
    && (if Guarded(ms, b, guardTokens, protectTurns)
        then forall j: nat | b < j :: !Guarded(ms, j, guardTokens, protectTurns)
        else (forall j: nat :: !Guarded(ms, j, guardTokens, protectTurns)) && (forall j | 0 <= j < b :: !IsPrompt(ms[j])))
  }

  lemma BoundaryIsUnique(ms: seq<Message>, b: nat, c: nat, guardTokens: real, protectTurns: int)
    requires IsBoundary(ms, b, guardTokens, protectTurns) && IsBoundary(ms, c, guardTokens, protectTurns)
    ensures b == c
  {
    if Guarded(ms, b, guardTokens, protectTurns) {
      assert Guarded(ms, c, guardTokens, protectTurns);
    }
  }

  function Min(a: int, b: int): int {
    if a <= b then a else b
  }

  method EvictionBoundary(messages: seq<Message>, guardTokens: real, protectTurns: int) returns (boundary: nat)
    ensures IsBoundary(messages, boundary, guardTokens, protectTurns)
    ensures boundary == |messages| <==> Prompts(messages) == 0
    ensures Prompts(messages[boundary..]) >= Min(protectTurns, Prompts(messages))
  {
    var guarded, seen := 0, 0;
    boundary := 0;
    var i := |messages|;
    var found := false;
    while i > 0 && !found
      invariant 0 <= i <= |messages|
      invariant guarded == Tokens(messages[i..]) && seen == Prompts(messages[i..])
      invariant forall j: nat | (if found then i < j else i <= j) :: !Guarded(messages, j, guardTokens, protectTurns)
      invariant found ==> Guarded(messages, i, guardTokens, protectTurns) && boundary == i
      invariant !found ==> boundary == if i < |messages| then i else 0
    {
      i := i - 1;
      SuffixStep(messages, i);
      boundary := i;
      guarded := guarded + messages[i].tokens;
      var prompt := IsUserPrompt(messages[i]);
      if prompt {
        seen := seen + 1;
        found := seen >= protectTurns && guarded as real >= guardTokens;
      }
    }
    ghost var start := boundary;
    while boundary < |messages|
      invariant start <= boundary <= |messages|
      invariant found ==> boundary == start
      invariant forall j | start <= j < boundary :: !IsPrompt(messages[j])
    {
      var prompt := IsUserPrompt(messages[boundary]);
      if prompt {
        break;
      }
      boundary := boundary + 1;
    }
    if !found {
      NoPromptBefore(messages, boundary);
    } else {
      PromptsBound(messages, boundary);
    }
    if boundary < |messages| {
      SuffixStep(messages, boundary);
      PromptsBound(messages, boundary);
    }
  }

  // ---------------------------------------------------------- truncation

  /** What is left of `total` after the first `k` messages were dropped. */
  ghost function Remaining(ms: seq<Message>, k: nat, total: real, tokenScale: real): real
    requires k <= |ms|
  {
    if k == 0 then total else Remaining(ms, k - 1, total, tokenScale) - ms[k - 1].tokens as real * tokenScale
  }

  /** The prompt that starts the newest `turns` turns, or the oldest prompt when there are fewer; 0 without prompts. */
  ghost predicate IsProtectStart(ms: seq<Message>, p: nat, turns: int) {
    if Prompts(ms) == 0 then p == 0
    else p < |ms| && IsPrompt(ms[p]) && Prompts(ms[p..]) == Min(turns, Prompts(ms))
  }

  /** Prompt `i` is reason enough to stop: protected, or low water is passed once it is counted as dropped. */
  ghost predicate Stops(ms: seq<Message>, i: nat, protectStart: nat, total: real, low: real, tokenScale: real) {
    i < |ms| && IsPrompt(ms[i]) && (i >= protectStart || Remaining(ms, i + 1, total, tokenScale) < low)
  }

  method ProtectStart(messages: seq<Message>, turns: int) returns (p: nat)
    requires turns >= 1
    ensures IsProtectStart(messages, p, turns)
  {
    var seen := 0;
    p := 0;
    var i := |messages|;
    while i > 0
      invariant 0 <= i <= |messages| && seen == Prompts(messages[i..]) && seen < turns
      invariant seen == 0 ==> p == 0
      invariant seen > 0 ==> i <= p < |messages| && IsPrompt(messages[p]) && Prompts(messages[p..]) == seen
    {
      i := i - 1;
      SuffixStep(messages, i);
      var prompt := IsUserPrompt(messages[i]);
      if !prompt {
        continue;
      }
      seen := seen + 1;
      p := i;
      if seen >= turns {
        PromptsBound(messages, p);
        return;
      }
    }
    assert messages[0..] == messages;
  }

  /** The cut: the first prompt that stops the walk; nothing is cut while the total fits or when there is no prompt. */
  ghost predicate IsCut(ms: seq<Message>, cut: nat, protectStart: nat, total: real, usable: real, low: real, tokenScale: real, protectTurns: int) {
    && IsProtectStart(ms, protectStart, if protectTurns < 1 then 1 else protectTurns)
    && if total < usable || Prompts(ms) == 0 then cut == 0
       else Stops(ms, cut, protectStart, total, low, tokenScale) && forall j: nat | j < cut :: !Stops(ms, j, protectStart, total, low, tokenScale)
  }

  /** Where the kept suffix starts: the first prompt that stops the walk. */
  method TruncateCut(messages: seq<Message>, total: real, usable: real, low: real, tokenScale: real, protectTurns: int)
    returns (cut: nat, ghost protectStart: nat)
    ensures IsCut(messages, cut, protectStart, total, usable, low, tokenScale, protectTurns)
    ensures cut > 0 ==> cut <= protectStart < |messages| && IsPrompt(messages[cut])
    ensures Prompts(messages[cut..]) >= Min(if protectTurns < 1 then 1 else protectTurns, Prompts(messages))
  {
    var keptTurns := if protectTurns < 1 then 1 else protectTurns;
    var start := ProtectStart(messages, keptTurns);
    protectStart := start;
    cut := 0;
    assert messages[0..] == messages;
    if total < usable {
      return;
    }
    var remaining := total;
    var i := 0;
    while i < |messages|
      invariant 0 <= i <= |messages| && remaining == Remaining(messages, i, total, tokenScale)
      invariant forall j: nat | j < i :: !Stops(messages, j, start, total, low, tokenScale)
      invariant i > 0 && Prompts(messages) > 0 ==> i <= start
      invariant Prompts(messages) == 0 ==> cut == 0
    {
      var prompt := IsUserPrompt(messages[i]);
      remaining := remaining - messages[i].tokens as real * tokenScale;
      if prompt {
        HasPrompt(messages, i);
        cut := Min(i, start);
        if remaining < low || i >= start {
          PromptsShrink(messages, cut, start);
          return;
        }
      }
      i := i + 1;
    }
  }

  lemma HasPrompt(ms: seq<Message>, i: nat)
    requires i < |ms| && IsPrompt(ms[i])
    ensures Prompts(ms) > 0
  {
    SuffixStep(ms, i);
    PromptsBound(ms, i);
  }

  lemma ProtectStartIsUnique(ms: seq<Message>, p: nat, q: nat, turns: int)
    requires IsProtectStart(ms, p, turns) && IsProtectStart(ms, q, turns)
    ensures p == q
  {
    if p != q {
      var first, later := if p < q then p else q, if p < q then q else p;
      SuffixStep(ms, first);
      PromptsShrink(ms, first + 1, later);
    }
  }

  /** The cut is determined by the messages and the budget. */
  lemma CutIsUnique(ms: seq<Message>, b: nat, c: nat, p: nat, q: nat, total: real, usable: real, low: real, tokenScale: real, protectTurns: int)
    requires IsCut(ms, b, p, total, usable, low, tokenScale, protectTurns) && IsCut(ms, c, q, total, usable, low, tokenScale, protectTurns)
    ensures b == c && p == q
  {
    hide IsProtectStart;
    ProtectStartIsUnique(ms, p, q, if protectTurns < 1 then 1 else protectTurns);
  }

  lemma ScaleSplits(a: nat, b: nat, tokenScale: real)
    ensures (a + b) as real * tokenScale == a as real * tokenScale + b as real * tokenScale
  {
  }

  /** Dropping messages takes their scaled tokens off the total; a scale is not negative, so it never grows. */
  lemma {:induction false} RemainingIs(ms: seq<Message>, k: nat, overhead: real, tokenScale: real)
    requires k <= |ms|
    ensures Remaining(ms, k, overhead + Tokens(ms) as real * tokenScale, tokenScale) == overhead + Tokens(ms[k..]) as real * tokenScale
  {
    hide Tokens, Prompts, IsPrompt, Remaining;
    var total := overhead + Tokens(ms) as real * tokenScale;
    if k == 0 {
      assert ms[k..] == ms;
      NothingDropped(ms, total, tokenScale);
    } else {
      RemainingIs(ms, k - 1, overhead, tokenScale);
      RemainingStep(ms, k - 1, total, tokenScale);
      SuffixStep(ms, k - 1);
      assert Tokens(ms[k - 1..]) == ms[k - 1].tokens + Tokens(ms[k..]);
      ScaleSplits(ms[k - 1].tokens, Tokens(ms[k..]), tokenScale);
    }
  }

  lemma {:induction false} RemainingShrinks(ms: seq<Message>, j: nat, k: nat, total: real, tokenScale: real)
    requires j <= k <= |ms| && tokenScale >= 0.0
    ensures Remaining(ms, k, total, tokenScale) <= Remaining(ms, j, total, tokenScale)
    decreases k
  {
    if j < k {
      RemainingShrinks(ms, j, k - 1, total, tokenScale);
      NotNegative(ms[k - 1].tokens, tokenScale);
    }
  }

  lemma NotNegative(tokens: nat, tokenScale: real)
    requires tokenScale >= 0.0
    ensures tokens as real * tokenScale >= 0.0
  {
  }

  /** Dropping message `j` brings what remains below low water. */
  ghost predicate Crosses(ms: seq<Message>, j: nat, total: real, low: real, tokenScale: real) {
    j < |ms| && Remaining(ms, j, total, tokenScale) >= low > Remaining(ms, j + 1, total, tokenScale)
  }

  /** Somewhere among the first `k` messages what remains falls below low water. */
  lemma {:induction false} CrossesSomewhere(ms: seq<Message>, k: nat, total: real, low: real, tokenScale: real)
    requires k <= |ms| && total >= low > Remaining(ms, k, total, tokenScale)
    ensures exists j: nat :: j < k && Crosses(ms, j, total, low, tokenScale)
  {
    if k > 0 {
      if Remaining(ms, k - 1, total, tokenScale) < low {
        CrossesSomewhere(ms, k - 1, total, low, tokenScale);
      } else {
        assert Crosses(ms, k - 1, total, low, tokenScale);
      }
    }
  }

  /**
   What a cut leaves, `overhead` being what is there besides the messages. It is
   below low water exactly when the total was, or when a dropped message other
   than a prompt brings it there. A prompt that brings it there is itself kept:
   then the rest exceeds low water by less than that prompt.
   */
  lemma CutLeaves(ms: seq<Message>, cut: nat, start: nat, overhead: real, usable: real, low: real, tokenScale: real, protectTurns: int)
    requires tokenScale >= 0.0 && Prompts(ms) > 0
    requires var total := overhead + Tokens(ms) as real * tokenScale;
             total >= usable && IsCut(ms, cut, start, total, usable, low, tokenScale, protectTurns)
    ensures var total, kept := overhead + Tokens(ms) as real * tokenScale, overhead + Tokens(ms[cut..]) as real * tokenScale;
            && kept == Remaining(ms, cut, total, tokenScale)
            && (kept < low <==> total < low || exists j: nat :: j < cut && !IsPrompt(ms[j]) && Crosses(ms, j, total, low, tokenScale))
            && (cut < start ==> kept < low + ms[cut].tokens as real * tokenScale)
  {
    hide IsPrompt, Remaining, Tokens, IsProtectStart;
    var total := overhead + Tokens(ms) as real * tokenScale;
    RemainingIs(ms, cut, overhead, tokenScale);
    RemainingStep(ms, cut, total, tokenScale);
    if Remaining(ms, cut, total, tokenScale) < low <= total {
      CrossesSomewhere(ms, cut, total, low, tokenScale);
      var j: nat :| j < cut && Crosses(ms, j, total, low, tokenScale);
      assert !Stops(ms, j, start, total, low, tokenScale);
    }
    forall j: nat | j < cut && Crosses(ms, j, total, low, tokenScale) ensures Remaining(ms, cut, total, tokenScale) < low {
      RemainingShrinks(ms, j + 1, cut, total, tokenScale);
    }
    RemainingShrinks(ms, 0, cut, total, tokenScale);
  }

  lemma NothingDropped(ms: seq<Message>, total: real, tokenScale: real)
    ensures Remaining(ms, 0, total, tokenScale) == total
  {
  }

  lemma RemainingStep(ms: seq<Message>, k: nat, total: real, tokenScale: real)
    requires k < |ms|
    ensures Remaining(ms, 0, total, tokenScale) == total
    ensures Remaining(ms, k + 1, total, tokenScale) == Remaining(ms, k, total, tokenScale) - ms[k].tokens as real * tokenScale
  {
  }

  /** It does happen that more than low water is kept: here the only cut there is leaves 95 of 100 with low water at 60. */
  lemma KeptSuffixMayExceedLowWater(cut: nat, start: nat)
    requires var ms := [Message(true, Str("a"), 5), Message(true, Str("b"), 90), Message(true, Str("c"), 5)];
             IsCut(ms, cut, start, 100.0, 90.0, 60.0, 1.0, 1)
    ensures var ms := [Message(true, Str("a"), 5), Message(true, Str("b"), 90), Message(true, Str("c"), 5)];
            cut == 1 && Tokens(ms) == 100 && Tokens(ms[1..]) == 95
  {
    var ms := [Message(true, Str("a"), 5), Message(true, Str("b"), 90), Message(true, Str("c"), 5)];
    assert ms[1..][1..] == ms[2..] == [ms[2]] && [ms[2]][1..] == [];
    assert Remaining(ms, 1, 100.0, 1.0) == 95.0;
    assert Remaining(ms, 2, 100.0, 1.0) == 5.0;
    assert Prompts(ms[2..]) == 1 && Prompts(ms) == 3;
    CutIsUnique(ms, 1, cut, 2, start, 100.0, 90.0, 60.0, 1.0, 1);
  }

  // ------------------------------------------------------------- handoff

  function Wrapped(body: string): string {
    "<context-handoff>\n" + body + "\n</context-handoff>"
  }

  /** The wrapped handoff a cut must put back: there is one, and the kept suffix lost it. */
  function RestoreHandoffAfterCut(lastHandoff: Option<string>, kept: seq<Message>): Option<string> {
    if lastHandoff.None? then None
    else if exists m :: m in kept && m.content == Str(Wrapped(lastHandoff.value)) then None
    else Some(Wrapped(lastHandoff.value))
  }

  predicate CutOnlyRestoresHandoff(messages: seq<Message>, cut: nat, lastHandoff: Option<string>)
    requires cut <= |messages|
  {
    cut == 1
    && var restore := RestoreHandoffAfterCut(lastHandoff, messages[cut..]);
       restore.Some? && messages[0].content == Str(restore.value)
  }

  /** The evicted span without the previous handoff, which the summary prompt carries separately. */
  function MessagesForSummary(messages: seq<Message>, lastHandoff: Option<string>): seq<Message> {
    if messages == [] then []
    else if lastHandoff.Some? && messages[0].content == Str(Wrapped(lastHandoff.value)) then MessagesForSummary(messages[1..], lastHandoff)
    else [messages[0]] + MessagesForSummary(messages[1..], lastHandoff)
  }

  datatype Summary = Summary(boundary: nat, evicted: seq<Message>)

  /** A previous handoff, wherever it stands. */
  predicate IsHandoff(m: Message, lastHandoff: Option<string>) {
    lastHandoff.Some? && m.content == Str(Wrapped(lastHandoff.value))
  }

  /** The evicted span is summarized in order and completely, but for the previous handoff. */
  lemma {:induction false} SummarySplits(a: seq<Message>, b: seq<Message>, lastHandoff: Option<string>)
    ensures MessagesForSummary(a + b, lastHandoff) == MessagesForSummary(a, lastHandoff) + MessagesForSummary(b, lastHandoff)
  {
    hide Wrapped;
    if a == [] {
      assert a + b == b;
    } else {
      assert (a + b)[1..] == a[1..] + b;
      SummarySplits(a[1..], b, lastHandoff);
    }
  }

  lemma {:induction false} SummaryOmitsHandoff(ms: seq<Message>, lastHandoff: Option<string>, m: Message)
    ensures multiset(MessagesForSummary(ms, lastHandoff))[m] == if IsHandoff(m, lastHandoff) then 0 else multiset(ms)[m]
  {
    hide Wrapped;
    if ms != [] {
      SummaryOmitsHandoff(ms[1..], lastHandoff, m);
      assert ms == [ms[0]] + ms[1..];
    }
  }

  method PlanSummary(messages: seq<Message>, lastHandoff: Option<string>, guardTokens: real, minimumReclaimTokens: real)
    returns (plan: Option<Summary>, ghost boundary: nat)
    ensures IsBoundary(messages, boundary, guardTokens, PROTECT_TURNS) && boundary <= |messages|
    ensures var evicted := MessagesForSummary(messages[..boundary], lastHandoff);
            && (plan.Some? <==> evicted != [] && Tokens(evicted) as real >= minimumReclaimTokens)
            && (plan.Some? ==> plan.value == Summary(boundary, evicted) && 0 < boundary)
    ensures Prompts(messages[boundary..]) >= Min(PROTECT_TURNS, Prompts(messages))
  {
    var b := EvictionBoundary(messages, guardTokens, PROTECT_TURNS);
    boundary := b;
    var evicted := MessagesForSummary(messages[..b], lastHandoff);
    if b <= 0 || evicted == [] || Tokens(evicted) as real < minimumReclaimTokens {
      plan := None;
      return;
    }
    plan := Some(Summary(b, evicted));
  }

  // ---------------------------------------------- cuts keep acceptance

  /** No call is open where a turn starts. */
  ghost predicate CleanAtPrompts(ms: seq<Message>) {
    forall k | 0 <= k < |ms| && IsPrompt(ms[k]) && Run(ms[..k]).Ok? :: Run(ms[..k]).active == []
  }

  ghost predicate AtPrompt(ms: seq<Message>, cut: nat) {
    cut < |ms| && IsPrompt(ms[cut])
  }

  /** What a cut leaves: the suffix, with the handoff in front when there is one to restore. */
  function Kept(ms: seq<Message>, cut: nat, handoff: seq<Message>): seq<Message>
    requires cut <= |ms|
  {
    handoff + ms[cut..]
  }

  ghost predicate HandoffOnly(handoff: seq<Message>) {
    |handoff| <= 1 && forall m | m in handoff :: m.fromUser && m.content.Str?
  }

  lemma HandoffOpensNothing(handoff: seq<Message>, ms: seq<Message>)
    requires HandoffOnly(handoff)
    ensures Run(handoff + ms) == Run(ms) && Run(handoff) == Ok([])
  {
    RunAppend([], handoff, ms);
    if handoff != [] {
      assert handoff[0] in handoff;
      RunOne([], handoff[0]);
      assert handoff == [handoff[0]];
    }
  }

  /** Cutting at a prompt, handoff or not, leaves an accepted history with the very same calls pending. */
  lemma CutKeepsRequestsValid(ms: seq<Message>, cut: nat, handoff: seq<Message>, allow: bool)
    requires AtPrompt(ms, cut) && Accepted(ms, allow) && CleanAtPrompts(ms) && HandoffOnly(handoff)
    ensures Run(Kept(ms, cut, handoff)) == Run(ms)
    ensures Accepted(Kept(ms, cut, handoff), allow) && CleanAtPrompts(Kept(ms, cut, handoff))
  {
    RunPrefix(ms, cut);
    SuffixKeepsPending(ms, cut);
    HandoffOpensNothing(handoff, ms[cut..]);
    CutStaysClean(ms, cut, handoff);
  }

  lemma CutStaysClean(ms: seq<Message>, cut: nat, handoff: seq<Message>)
    requires cut <= |ms| && CleanAtPrompts(ms) && Run(ms[..cut]) == Ok([]) && HandoffOnly(handoff)
    ensures CleanAtPrompts(Kept(ms, cut, handoff))
  {
    var kept := Kept(ms, cut, handoff);
    forall k | 0 <= k < |kept| && IsPrompt(kept[k]) && Run(kept[..k]).Ok? ensures Run(kept[..k]).active == [] {
      if k < |handoff| {
        assert kept[..k] == [];
      } else {
        var j := cut + k - |handoff|;
        assert kept[..k] == handoff + ms[cut..j];
        HandoffOpensNothing(handoff, ms[cut..j]);
        assert ms[..j][..cut] == ms[..cut] && ms[..j][cut..] == ms[cut..j];
        RunSplit(ms[..j], cut);
        assert IsPrompt(ms[j]);
      }
    }
  }

  /** Without a prompt the whole history goes; the handoff alone is accepted. */
  lemma EverythingEvicted(ms: seq<Message>, handoff: seq<Message>, allow: bool)
    requires HandoffOnly(handoff)
    ensures Accepted(Kept(ms, |ms|, handoff), allow) && CleanAtPrompts(Kept(ms, |ms|, handoff))
  {
    assert Kept(ms, |ms|, handoff) == handoff;
    assert handoff + [] == handoff;
    HandoffOpensNothing(handoff, []);
    forall k | 0 <= k < |handoff| ensures Run(handoff[..k]).active == [] {
      assert handoff[..k] == [];
    }
  }

  /** Why prompts must be clean: a prompt between a call and its result makes an accepted history whose cut is refused. */
  lemma OpenCallAtPromptBreaksCut()
    ensures var call := Message(false, Blocks([ToolUse("a", "bash", Object(None))]), 1);
            var prompt := Message(true, Str("go on"), 1);
            var result := Message(true, Blocks([ToolResult("a", false, [])]), 1);
            var ms := [call, prompt, result];
            Accepted(ms, false) && AtPrompt(ms, 1) && !Accepted(ms[1..], false)
  {
    var call := Message(false, Blocks([ToolUse("a", "bash", Object(None))]), 1);
    var prompt := Message(true, Str("go on"), 1);
    var result := Message(true, Blocks([ToolResult("a", false, [])]), 1);
    var ms := [call, prompt, result];
    var open := [Call("a", false)];
    assert [] + open == open;
    assert call.content.blocks[1..] == [] && result.content.blocks[1..] == [];
    assert StepMessage([], call) == Ok(open);
    assert StepMessage(open, prompt) == Ok(open);
    assert open[0] in open && Has(open, "a");
    assert Remove(open, "a") == [];
    assert StepMessage(open, result) == Ok([]);
    assert ms[1..] == [prompt, result] && ms[1..][1..] == [result] && [result][1..] == [];
    RunOne(open, result);
    assert RunFrom(open, ms[1..]) == Ok([]);
    assert ms[..1] == [call];
    RunSplit(ms, 1);
    RunOne([], call);
    SuffixAccepted(ms, 1);
  }
}
