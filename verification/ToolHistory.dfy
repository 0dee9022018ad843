/**
 The request projector's tool-call automaton over a conversation history:
 which histories a provider request may carry, and what may be cut off them.
 */
module ToolHistory {
  import opened Wrappers

  /** A content block. An empty id stands for an id that is missing or not a non-empty string. */
  datatype Block =
    | Text(text: string)
    | Image
    | Thinking(text: string, signature: string)
    | ToolUse(id: string, name: string, input: Input)
    | ServerToolUse(id: string)
    | ToolResult(callId: string, isError: bool, parts: seq<string>)
    | WebSearchResult(callId: string)
    | Context
    | Other

  /** A call's input: an object, with its duplicate-detection key when it has one, or something else. */
  datatype Input = NotAnObject | Object(key: Option<string>)

  datatype Content = Str(text: string) | Blocks(blocks: seq<Block>)

  datatype Message = Message(fromUser: bool, content: Content, tokens: nat)

  /** A call that has no result yet. */
  datatype Call = Call(id: string, server: bool)

  datatype Error =
    | InterruptsServerTool
    | ContextUnsupported
    | CallHasNoId
    | DuplicateCall(id: string)
    | ResultHasNoId
    | UnmatchedResult(id: string)
    | Incomplete(id: string)

  datatype Outcome = Ok(active: seq<Call>) | Rejected(error: Error)

  // ---------------------------------------------------- specification

  predicate Has(active: seq<Call>, id: string) {
    exists c :: c in active && c.id == id
  }

  predicate HasServer(active: seq<Call>) {
    exists c :: c in active && c.server
  }

  ghost predicate DistinctIds(active: seq<Call>) {
    forall i, j | 0 <= i < j < |active| :: active[i].id != active[j].id
  }

  function Remove(active: seq<Call>, id: string): seq<Call> {
    if active == [] then []
    else if active[0].id == id then active[1..]
    else [active[0]] + Remove(active[1..], id)
  }

  ghost function StepBlock(active: seq<Call>, b: Block): Outcome {
    match b
    case Context => Rejected(ContextUnsupported)
    case ToolUse(id, _, _) => Open(active, id, false)
    case ServerToolUse(id) => Open(active, id, true)
    case ToolResult(id, _, _) => Answer(active, id)
    case WebSearchResult(id) => Answer(active, id)
    case _ => Ok(active)
  }

  ghost function Open(active: seq<Call>, id: string, server: bool): Outcome {
    if id == "" then Rejected(CallHasNoId)
    else if Has(active, id) then Rejected(DuplicateCall(id))
    else Ok(active + [Call(id, server)])
  }

  ghost function Answer(active: seq<Call>, id: string): Outcome {
    if id == "" then Rejected(ResultHasNoId)
    else if !Has(active, id) then Rejected(UnmatchedResult(id))
    else Ok(Remove(active, id))
  }

  ghost function RunBlocks(active: seq<Call>, bs: seq<Block>): Outcome
    decreases |bs|
  {
    if bs == [] then Ok(active)
    else match StepBlock(active, bs[0])
      case Ok(next) => RunBlocks(next, bs[1..])
      case Rejected(e) => Rejected(e)
  }

  /** User content that is not a client tool result. */
  predicate HasNonResult(c: Content) {
    match c
    case Str(text) => text != ""
    case Blocks(bs) => exists b :: b in bs && !b.ToolResult?
  }

  ghost function StepMessage(active: seq<Call>, m: Message): Outcome {
    if m.fromUser && HasServer(active) && HasNonResult(m.content) then Rejected(InterruptsServerTool)
    else if m.content.Str? then Ok(active)
    else RunBlocks(active, m.content.blocks)
  }

  ghost function RunFrom(active: seq<Call>, ms: seq<Message>): Outcome
    decreases |ms|
  {
    if ms == [] then Ok(active)
    else match StepMessage(active, ms[0])
      case Ok(next) => RunFrom(next, ms[1..])
      case Rejected(e) => Rejected(e)
  }

  ghost function Run(ms: seq<Message>): Outcome {
    RunFrom([], ms)
  }

  ghost predicate MayStayOpen(active: seq<Call>, allowPendingServerTools: bool) {
    forall c | c in active :: c.server && allowPendingServerTools
  }

  /** The projector accepts the history. */
  ghost predicate Accepted(ms: seq<Message>, allowPendingServerTools: bool) {
    Run(ms).Ok? && MayStayOpen(Run(ms).active, allowPendingServerTools)
  }

  // ------------------------------------------------------ composition

  lemma {:induction false} RunAppend(active: seq<Call>, xs: seq<Message>, ys: seq<Message>)
    ensures RunFrom(active, xs + ys)
         == match RunFrom(active, xs) case Ok(next) => RunFrom(next, ys) case Rejected(e) => Rejected(e)
    decreases |xs|
  {
    if xs == [] {
      assert xs + ys == ys;
    } else {
      assert (xs + ys)[0] == xs[0] && (xs + ys)[1..] == xs[1..] + ys;
      var next := StepMessage(active, xs[0]);
      if next.Ok? {
        RunAppend(next.active, xs[1..], ys);
      }
    }
  }

  lemma {:induction false} BlocksAppend(active: seq<Call>, xs: seq<Block>, ys: seq<Block>)
    ensures RunBlocks(active, xs + ys)
         == match RunBlocks(active, xs) case Ok(next) => RunBlocks(next, ys) case Rejected(e) => Rejected(e)
    decreases |xs|
  {
    if xs == [] {
      assert xs + ys == ys;
    } else {
      assert (xs + ys)[0] == xs[0] && (xs + ys)[1..] == xs[1..] + ys;
      var next := StepBlock(active, xs[0]);
      if next.Ok? {
        BlocksAppend(next.active, xs[1..], ys);
      }
    }
  }

  lemma RunOne(active: seq<Call>, m: Message)
    ensures RunFrom(active, [m]) == StepMessage(active, m)
  {
    assert [m][1..] == [];
  }

  lemma RunSplit(ms: seq<Message>, k: nat)
    requires k <= |ms|
    ensures Run(ms) == match Run(ms[..k]) case Ok(next) => RunFrom(next, ms[k..]) case Rejected(e) => Rejected(e)
  {
    assert ms[..k] + ms[k..] == ms;
    RunAppend([], ms[..k], ms[k..]);
  }

  lemma RunPrefix(ms: seq<Message>, k: nat)
    requires k <= |ms| && Run(ms).Ok?
    ensures Run(ms[..k]).Ok?
  {
    RunSplit(ms, k);
  }

  // -------------------------------------------------------- open calls

  lemma {:induction false} RemoveFacts(active: seq<Call>, id: string)
    requires DistinctIds(active)
    ensures DistinctIds(Remove(active, id)) && !Has(Remove(active, id), id)
    ensures forall c :: c in Remove(active, id) <==> c in active && c.id != id
  {
    if active != [] {
      RemoveFacts(active[1..], id);
      assert forall c :: c in active <==> c == active[0] || c in active[1..];
      if active[0].id != id {
        var rest := Remove(active[1..], id);
        assert forall i | 0 <= i < |rest| :: rest[i] in active[1..];
      }
    }
  }

  lemma StepKeepsDistinct(active: seq<Call>, b: Block)
    requires DistinctIds(active) && StepBlock(active, b).Ok?
    ensures DistinctIds(StepBlock(active, b).active)
  {
    if b.ToolResult? || b.WebSearchResult? {
      RemoveFacts(active, b.callId);
    }
  }

  lemma {:induction false} BlocksKeepDistinct(active: seq<Call>, bs: seq<Block>)
    requires DistinctIds(active) && RunBlocks(active, bs).Ok?
    ensures DistinctIds(RunBlocks(active, bs).active)
    decreases |bs|
  {
    if bs != [] {
      StepKeepsDistinct(active, bs[0]);
      BlocksKeepDistinct(StepBlock(active, bs[0]).active, bs[1..]);
    }
  }

  /** No id is open twice. */
  lemma {:induction false} RunKeepsDistinct(active: seq<Call>, ms: seq<Message>)
    requires DistinctIds(active) && RunFrom(active, ms).Ok?
    ensures DistinctIds(RunFrom(active, ms).active)
    decreases |ms|
  {
    if ms != [] {
      if ms[0].content.Blocks? {
        BlocksKeepDistinct(active, ms[0].content.blocks);
      }
      RunKeepsDistinct(StepMessage(active, ms[0]).active, ms[1..]);
    }
  }

  // ------------------------------------------------ forgetting a prefix

  /** The calls whose id is not in `gone`. */
  function Without(active: seq<Call>, gone: set<string>): seq<Call> {
    if active == [] then []
    else if active[0].id in gone then Without(active[1..], gone)
    else [active[0]] + Without(active[1..], gone)
  }

  ghost predicate AllOpen(active: seq<Call>, ids: set<string>) {
    forall id | id in ids :: Has(active, id)
  }

  lemma {:induction false} WithoutMembers(active: seq<Call>, gone: set<string>)
    ensures forall c :: c in Without(active, gone) <==> c in active && c.id !in gone
  {
    if active != [] {
      WithoutMembers(active[1..], gone);
      assert forall c :: c in active <==> c == active[0] || c in active[1..];
    }
  }

  lemma {:induction false} WithoutAppend(active: seq<Call>, c: Call, gone: set<string>)
    requires c.id !in gone
    ensures Without(active + [c], gone) == Without(active, gone) + [c]
  {
    if active == [] {
      assert [c][1..] == [];
      assert [] + [c] == [c];
    } else {
      WithoutAppend(active[1..], c, gone);
      assert (active + [c])[1..] == active[1..] + [c];
    }
  }

  lemma {:induction false} WithoutRemove(active: seq<Call>, id: string, gone: set<string>)
    requires id !in gone
    ensures Without(Remove(active, id), gone) == Remove(Without(active, gone), id)
  {
    if active != [] {
      WithoutRemove(active[1..], id, gone);
    }
  }

  /**
   A run that starts with some calls missing: it is rejected as soon as one of
   them is answered, and until then it holds the same calls but those.
   */
  lemma BlockWithout(active: seq<Call>, gone: set<string>, b: Block)
    requires DistinctIds(active) && AllOpen(active, gone) && StepBlock(active, b).Ok?
    ensures var next := StepBlock(Without(active, gone), b);
            next.Rejected?
            || (next == Ok(Without(StepBlock(active, b).active, gone)) && AllOpen(StepBlock(active, b).active, gone))
  {
    WithoutMembers(active, gone);
    match b
    case ToolUse(id, _, _) => OpenWithout(active, gone, id, false);
    case ServerToolUse(id) => OpenWithout(active, gone, id, true);
    case ToolResult(id, _, _) => AnswerWithout(active, gone, id);
    case WebSearchResult(id) => AnswerWithout(active, gone, id);
    case _ =>
  }

  lemma OpenWithout(active: seq<Call>, gone: set<string>, id: string, server: bool)
    requires AllOpen(active, gone) && Open(active, id, server).Ok?
    ensures Open(Without(active, gone), id, server) == Ok(Without(Open(active, id, server).active, gone))
    ensures AllOpen(Open(active, id, server).active, gone)
  {
    WithoutMembers(active, gone);
    WithoutAppend(active, Call(id, server), gone);
    forall x | x in gone ensures Has(active + [Call(id, server)], x) {
      var c :| c in active && c.id == x;
      assert c in active + [Call(id, server)];
    }
  }

  lemma AnswerWithout(active: seq<Call>, gone: set<string>, id: string)
    requires DistinctIds(active) && AllOpen(active, gone) && Answer(active, id).Ok?
    ensures if id in gone then Answer(Without(active, gone), id).Rejected?
            else Answer(Without(active, gone), id) == Ok(Without(Answer(active, id).active, gone))
                 && AllOpen(Answer(active, id).active, gone)
  {
    WithoutMembers(active, gone);
    if id !in gone {
      WithoutRemove(active, id, gone);
      RemoveFacts(active, id);
      assert Has(Without(active, gone), id) by {
        var c :| c in active && c.id == id;
        assert c in Without(active, gone);
      }
      forall x | x in gone ensures Has(Remove(active, id), x) {
        var c :| c in active && c.id == x;
        assert c in Remove(active, id);
      }
    }
  }

  lemma {:induction false} BlocksWithout(active: seq<Call>, gone: set<string>, bs: seq<Block>)
    requires DistinctIds(active) && AllOpen(active, gone) && RunBlocks(active, bs).Ok?
    ensures var next := RunBlocks(Without(active, gone), bs);
            next.Rejected?
            || (next == Ok(Without(RunBlocks(active, bs).active, gone)) && AllOpen(RunBlocks(active, bs).active, gone))
    decreases |bs|
  {
    if bs != [] {
      BlockWithout(active, gone, bs[0]);
      StepKeepsDistinct(active, bs[0]);
      if StepBlock(Without(active, gone), bs[0]).Ok? {
        BlocksWithout(StepBlock(active, bs[0]).active, gone, bs[1..]);
      }
    }
  }

  lemma {:induction false} RunWithout(active: seq<Call>, gone: set<string>, ms: seq<Message>)
    requires DistinctIds(active) && AllOpen(active, gone) && RunFrom(active, ms).Ok?
    ensures var next := RunFrom(Without(active, gone), ms);
            next.Rejected?
            || (next == Ok(Without(RunFrom(active, ms).active, gone)) && AllOpen(RunFrom(active, ms).active, gone))
    decreases |ms|
  {
    if ms != [] {
      WithoutMembers(active, gone);
      if ms[0].content.Blocks? {
        BlocksWithout(active, gone, ms[0].content.blocks);
        BlocksKeepDistinct(active, ms[0].content.blocks);
      }
      if StepMessage(Without(active, gone), ms[0]).Ok? {
        RunWithout(StepMessage(active, ms[0]).active, gone, ms[1..]);
      }
    }
  }

  ghost function Ids(active: seq<Call>): set<string> {
    set i | 0 <= i < |active| :: active[i].id
  }

  lemma {:induction false} AllGone(active: seq<Call>, gone: set<string>)
    requires forall c | c in active :: c.id in gone
    ensures Without(active, gone) == []
  {
    if active != [] {
      assert active[0] in active;
      AllGone(active[1..], gone);
    }
  }

  lemma IdsAreOpen(active: seq<Call>)
    ensures AllOpen(active, Ids(active)) && Without(active, Ids(active)) == []
    ensures active != [] ==> active[0].id in Ids(active)
  {
    assert forall c | c in active :: c.id in Ids(active);
    AllGone(active, Ids(active));
    forall id | id in Ids(active) ensures Has(active, id) {
      var i :| 0 <= i < |active| && active[i].id == id;
      assert active[i] in active;
    }
  }

  /** Cutting a prefix off keeps the same calls pending exactly when no call is open at the cut. */
  lemma SuffixKeepsPending(ms: seq<Message>, k: nat)
    requires k <= |ms| && Run(ms).Ok?
    ensures Run(ms[..k]).Ok?
    ensures Run(ms[k..]) == Run(ms) <==> Run(ms[..k]).active == []
  {
    RunSplit(ms, k);
    var active := Run(ms[..k]).active;
    if active != [] {
      RunKeepsDistinct([], ms[..k]);
      IdsAreOpen(active);
      RunWithout(active, Ids(active), ms[k..]);
      WithoutMembers(Run(ms).active, Ids(active));
      assert Ids(active) != {} by {
        assert active[0].id in Ids(active);
      }
      if AllOpen(Run(ms).active, Ids(active)) {
        var c :| c in Run(ms).active && c.id == active[0].id;
        assert c !in Without(Run(ms).active, Ids(active));
      }
    }
  }

  /** In the strict form, the suffix is accepted exactly when no call is open at the cut. */
  lemma SuffixAccepted(ms: seq<Message>, k: nat)
    requires k <= |ms| && Accepted(ms, false)
    ensures Run(ms[..k]).Ok?
    ensures Accepted(ms[k..], false) <==> Run(ms[..k]).active == []
  {
    SuffixKeepsPending(ms, k);
    NothingOpen(Run(ms).active);
    if Run(ms[k..]).Ok? {
      NothingOpen(Run(ms[k..]).active);
    }
  }

  lemma NothingOpen(active: seq<Call>)
    ensures MayStayOpen(active, false) <==> active == []
  {
    if active != [] {
      assert active[0] in active;
    }
  }

  // ---------------------------------------------------------- validation

  /** Why the projector refuses the history, and the message it refuses; None when it accepts. */
  method ValidateToolSequences(messages: seq<Message>, allowPendingServerTools: bool)
    returns (error: Option<Error>, at: nat)
    ensures error.None? <==> Accepted(messages, allowPendingServerTools)
    ensures error.Some? && Run(messages).Ok? ==> FirstUnfinished(Run(messages).active, allowPendingServerTools, error.value)
    ensures error.Some? && Run(messages).Rejected? ==>
              at < |messages| && Run(messages[..at]).Ok? && Run(messages[..at + 1]) == Rejected(error.value)
  {
    var active: seq<Call> := [];
    at := 0;
    while at < |messages|
      invariant at <= |messages| && Run(messages[..at]) == Ok(active)
      decreases |messages| - at
    {
      var message := messages[at];
      RunNext(messages, at);
      if message.fromUser && HasServer(active) && HasNonResult(message.content) {
        return Some(InterruptsServerTool), at;
      }
      if message.content.Blocks? {
        error, active := ValidateBlocks(active, message.content.blocks);
        if error.Some? {
          return;
        }
      }
      at := at + 1;
    }
    assert messages[..at] == messages;
    error := UnfinishedCall(active, allowPendingServerTools);
  }

  lemma RunNext(ms: seq<Message>, k: nat)
    requires k < |ms| && Run(ms[..k]).Ok?
    ensures Run(ms[..k + 1]) == StepMessage(Run(ms[..k]).active, ms[k])
    ensures Run(ms[..k + 1]).Rejected? ==> Run(ms) == Run(ms[..k + 1])
  {
    assert ms[..k + 1] == ms[..k] + [ms[k]];
    RunAppend([], ms[..k], [ms[k]]);
    RunOne(Run(ms[..k]).active, ms[k]);
    RunSplit(ms, k + 1);
  }

  method ValidateBlocks(before: seq<Call>, blocks: seq<Block>) returns (error: Option<Error>, active: seq<Call>)
    ensures RunBlocks(before, blocks) == if error.Some? then Rejected(error.value) else Ok(active)
  {
    active := before;
    var i := 0;
    while i < |blocks|
      invariant i <= |blocks| && RunBlocks(before, blocks) == RunBlocks(active, blocks[i..])
    {
      var block := blocks[i];
      i := i + 1;
      assert blocks[i - 1..][1..] == blocks[i..];
      if block.Context? {
        return Some(ContextUnsupported), active;
      }
      if block.ToolUse? || block.ServerToolUse? {
        if block.id == "" {
          return Some(CallHasNoId), active;
        }
        if Has(active, block.id) {
          return Some(DuplicateCall(block.id)), active;
        }
        active := active + [Call(block.id, block.ServerToolUse?)];
        continue;
      }
      if !(block.ToolResult? || block.WebSearchResult?) {
        continue;
      }
      if block.callId == "" {
        return Some(ResultHasNoId), active;
      }
      if !Has(active, block.callId) {
        return Some(UnmatchedResult(block.callId)), active;
      }
      active := Remove(active, block.callId);
    }
    error := None;
  }

  /** `error` names the oldest open call that may not stay open. */
  ghost predicate FirstUnfinished(active: seq<Call>, allowPendingServerTools: bool, error: Error) {
    exists i :: 0 <= i < |active| && error == Incomplete(active[i].id)
                && !(active[i].server && allowPendingServerTools) && MayStayOpen(active[..i], allowPendingServerTools)
  }

  method UnfinishedCall(active: seq<Call>, allowPendingServerTools: bool) returns (error: Option<Error>)
    ensures error.None? <==> MayStayOpen(active, allowPendingServerTools)
    ensures error.Some? ==> FirstUnfinished(active, allowPendingServerTools, error.value)
  {
    for i := 0 to |active|
      invariant MayStayOpen(active[..i], allowPendingServerTools)
    {
      if !active[i].server || !allowPendingServerTools {
        return Some(Incomplete(active[i].id));
      }
    }
    assert active[..|active|] == active;
    error := None;
  }
}
