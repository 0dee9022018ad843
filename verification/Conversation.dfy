/**
 The agent's conversation history over whole sessions: prompts, tool turns,
 repairs after crashes and failed streams, truncation and summarization, and
 why the request projector keeps accepting what they leave.
 */
module Conversation {
  import opened JsText
  import opened Wrappers
  import opened ToolHistory
  import opened Compaction
  import opened ToolTurn
  import opened ToolWaves

  // ------------------------------------------------------ whole histories

  function BlocksOf(m: Message): seq<Block> {
    if m.content.Blocks? then m.content.blocks else []
  }

  function AllBlocks(ms: seq<Message>): seq<Block> {
    if ms == [] then [] else AllBlocks(ms[..|ms| - 1]) + BlocksOf(ms[|ms| - 1])
  }

  lemma {:induction false} AllBlocksAppend(a: seq<Message>, b: seq<Message>)
    ensures AllBlocks(a + b) == AllBlocks(a) + AllBlocks(b)
  {
    if b == [] {
      assert a + b == a;
    } else {
      assert (a + b)[..|a + b| - 1] == a + b[..|b| - 1];
      AllBlocksAppend(a, b[..|b| - 1]);
    }
  }

  lemma FreshParts(a: seq<Block>, b: seq<Block>)
    requires FreshServerIds(a + b)
    ensures FreshServerIds(a) && FreshServerIds(b)
  {
    assert forall i | 0 <= i < |a| :: (a + b)[i] == a[i];
    assert forall i | 0 <= i < |b| :: (a + b)[|a| + i] == b[i];
  }

  /** Between turns: accepted, with at most server calls pending, none at a prompt, and no reused server id. */
  ghost predicate ValidHistory(ms: seq<Message>) {
    Accepted(ms, true) && CleanAtPrompts(ms) && FreshServerIds(AllBlocks(ms))
  }

  /** What an accepted history holds open is decided by its blocks alone, whatever messages they stand in. */
  lemma {:induction false} HistoryIsItsBlocks(ms: seq<Message>)
    requires Run(ms).Ok?
    ensures RunBlocks([], AllBlocks(ms)) == Run(ms)
  {
    hide StepBlock;
    if ms != [] {
      var k := |ms| - 1;
      RunPrefix(ms, k);
      HistoryIsItsBlocks(ms[..k]);
      RunNext(ms, k);
      assert ms[..k + 1] == ms;
      BlocksAppend([], AllBlocks(ms[..k]), BlocksOf(ms[k]));
    }
  }

  /** Whatever is open is visible to the block scan that guards new prompts. */
  lemma HistoryOpenIsSeen(ms: seq<Message>)
    requires Run(ms).Ok? && FreshServerIds(AllBlocks(ms))
    ensures PendingSeen(Run(ms).active, AllBlocks(ms))
  {
    HistoryIsItsBlocks(ms);
    assert [] + AllBlocks(ms) == AllBlocks(ms);
    OpenIsSeen([], [], AllBlocks(ms));
  }

  /** What the guard reports of an accepted history: an open server call without a search result, or a client result in the place of one. */
  lemma GuardReports(ms: seq<Message>)
    requires Run(ms).Ok?
    ensures HasPendingServerTools(AllBlocks(ms))
        <==> exists id :: OpenUnanswered(Run(ms).active, AllBlocks(ms), id) || AnsweredByClient(AllBlocks(ms), id)
    ensures FreshServerIds(AllBlocks(ms)) <==> SeenThroughout(AllBlocks(ms))
  {
    hide HasPendingServerTools, OpenUnanswered, AnsweredByClient, FreshServerIds, SeenThroughout;
    HistoryIsItsBlocks(ms);
    PendingMeans(AllBlocks(ms));
    FreshMeansSeen(AllBlocks(ms));
  }

  /** The guard the agent evaluates: when it finds nothing pending, nothing is open. */
  lemma GuardIsSound(ms: seq<Message>)
    requires ValidHistory(ms) && !HasPendingServerTools(AllBlocks(ms))
    ensures Run(ms).active == []
  {
    HistoryOpenIsSeen(ms);
    assert forall c | c in Run(ms).active :: c.server;
    NoneIsEmpty(Run(ms).active);
  }

  lemma NoneIsEmpty(active: seq<Call>)
    ensures (forall c :: c !in active) ==> active == []
  {
    if active != [] {
      assert active[0] in active;
    }
  }

  lemma AppendOne(ms: seq<Message>, m: Message)
    requires Run(ms).Ok?
    ensures Run(ms + [m]) == StepMessage(Run(ms).active, m)
  {
    RunAppend([], ms, [m]);
    RunOne(Run(ms).active, m);
  }

  lemma CleanAppend(ms: seq<Message>, m: Message)
    requires CleanAtPrompts(ms) && (IsPrompt(m) && Run(ms).Ok? ==> Run(ms).active == [])
    ensures CleanAtPrompts(ms + [m])
  {
    var all := ms + [m];
    forall k | 0 <= k < |all| && IsPrompt(all[k]) && Run(all[..k]).Ok? ensures Run(all[..k]).active == [] {
      if k < |ms| {
        assert all[..k] == ms[..k];
      } else {
        assert all[..k] == ms;
      }
    }
  }

  // --------------------------------------------------------- tool turns

  /** The response can follow the history: the automaton takes it, leaves its own calls open, and server ids are new. */
  ghost predicate Continues(ms: seq<Message>, blocks: seq<Block>) {
    && Run(ms).Ok? && RunBlocks(Run(ms).active, blocks).Ok?
    && OwnCallsOpen(RunBlocks(Run(ms).active, blocks).active, Uses(blocks))
    && FreshServerIds(AllBlocks(ms) + blocks)
  }

  ghost predicate OwnCallsOpen(active: seq<Call>, uses: seq<Block>) {
    forall i | 0 <= i < |uses| :: uses[i].ToolUse? && Has(active, uses[i].id)
  }

  /** What a turn leaves pending: the response's open calls without its client calls. */
  ghost function StillOpen(active: seq<Call>, blocks: seq<Block>): seq<Call>
    requires RunBlocks(active, blocks).Ok?
  {
    Without(RunBlocks(active, blocks).active, UseIds(Uses(blocks)))
  }

  /** Client calls left open by a response are calls of that response. */
  lemma {:induction false} ClientCallsAreUses(active: seq<Call>, bs: seq<Block>)
    requires DistinctIds(active) && RunBlocks(active, bs).Ok?
    ensures forall c | c in RunBlocks(active, bs).active && !c.server :: c in active || c.id in UseIds(Uses(bs))
    decreases |bs|
  {
    hide Remove, UseIds, Uses, StepBlock, DistinctIds;
    if bs != [] {
      var next := StepBlock(active, bs[0]).active;
      StepKeepsDistinct(active, bs[0]);
      ClientCallsAreUses(next, bs[1..]);
      StepMembers(active, bs[0]);
      UseIdsStep(bs);
    }
  }

  lemma StepMembers(active: seq<Call>, b: Block)
    requires DistinctIds(active) && StepBlock(active, b).Ok?
    ensures forall c | c in StepBlock(active, b).active && !c.server :: c in active || (b.ToolUse? && c.id == b.id)
  {
    hide Remove;
    if b.ToolResult? || b.WebSearchResult? {
      RemoveFacts(active, b.callId);
    }
  }

  lemma UseIdsStep(bs: seq<Block>)
    requires bs != []
    ensures UseIds(Uses(bs)) == (if bs[0].ToolUse? then {bs[0].id} else {}) + UseIds(Uses(bs[1..]))
  {
    if bs[0].ToolUse? {
      assert Uses(bs)[1..] == Uses(bs[1..]);
    } else {
      assert Uses(bs) == Uses(bs[1..]);
    }
  }

  /** Only server calls stay pending once the client calls are answered. */
  lemma OnlyServerCallsStay(active: seq<Call>, blocks: seq<Block>)
    requires DistinctIds(active) && MayStayOpen(active, true) && RunBlocks(active, blocks).Ok?
    ensures MayStayOpen(Without(RunBlocks(active, blocks).active, UseIds(Uses(blocks))), true)
  {
    ClientCallsAreUses(active, blocks);
    WithoutMembers(RunBlocks(active, blocks).active, UseIds(Uses(blocks)));
  }

  /** The messages a turn appends: the response, and the answer to its calls when it has any. */
  function TurnMessages(blocks: seq<Block>, answer: seq<Block>, t: nat, u: nat): seq<Message> {
    [Message(false, Blocks(blocks), t)] + (if Uses(blocks) == [] then [] else [Message(true, Blocks(answer), u)])
  }

  /** Results, or results and then sibling guidance. */
  ghost predicate AnswersTurn(answer: seq<Block>, uses: seq<Block>, guided: bool) {
    if guided then answer != [] && Answers(answer[..|answer| - 1], uses) && answer[|answer| - 1].Text?
    else Answers(answer, uses)
  }

  lemma ResponseStep(ms: seq<Message>, blocks: seq<Block>, t: nat)
    requires Run(ms).Ok?
    ensures Run(ms + [Message(false, Blocks(blocks), t)]) == RunBlocks(Run(ms).active, blocks)
  {
    AppendOne(ms, Message(false, Blocks(blocks), t));
  }

  /** The answer closes the calls of a response, guided or not, and nothing else. */
  lemma AnswerStep(active: seq<Call>, uses: seq<Block>, answer: seq<Block>, guided: bool, u: nat)
    requires DistinctIds(active) && DistinctUses(uses) && uses != [] && AnswersTurn(answer, uses, guided)
    requires guided ==> !HasServer(active)
    ensures var outcome := StepMessage(active, Message(true, Blocks(answer), u));
            if OwnCallsOpen(active, uses) then outcome == Ok(Without(active, UseIds(uses))) else outcome.Rejected?
    ensures !IsPrompt(Message(true, Blocks(answer), u))
  {
    hide RunBlocks, Without, HasServer, OwnCallsOpen, DistinctUses, DistinctIds;
    var results := if guided then answer[..|answer| - 1] else answer;
    assert answer[0] in answer && answer[0].ToolResult?;
    assert forall b | b in results :: b.ToolResult?;
    ResultsStep(active, uses, results);
    if guided {
      assert answer == results + [answer[|answer| - 1]];
      TextPasses(active, results, answer[|answer| - 1]);
    }
  }

  lemma ResultsStep(active: seq<Call>, uses: seq<Block>, results: seq<Block>)
    requires DistinctIds(active) && DistinctUses(uses) && Answers(results, uses)
    ensures if OwnCallsOpen(active, uses) then RunBlocks(active, results) == Ok(Without(active, UseIds(uses)))
            else RunBlocks(active, results).Rejected?
  {
    hide RunBlocks, Without, DistinctIds, Has;
    if OwnCallsOpen(active, uses) {
      ResultsClose(active, uses, results);
    } else {
      ResultsNeedCalls(active, uses, results);
    }
  }

  lemma TextPasses(active: seq<Call>, results: seq<Block>, text: Block)
    requires text.Text?
    ensures RunBlocks(active, results + [text]) == RunBlocks(active, results)
  {
    BlocksAppend(active, results, [text]);
    assert [text][1..] == [];
  }

  lemma FreshThenAnswer(before: seq<Block>, answer: seq<Block>)
    requires forall b | b in answer :: !b.WebSearchResult? && !b.ServerToolUse?
    ensures FreshServerIds(before + answer) <==> FreshServerIds(before)
  {
    var all := before + answer;
    if FreshServerIds(before) {
      forall i, j | 0 <= i < j < |all| && all[i].WebSearchResult? && all[j].ServerToolUse? ensures all[i].callId != all[j].id {
        assert all[i] in answer || all[i] == before[i];
        assert all[j] in answer || (j < |before| && all[j] == before[j]);
      }
    }
    if FreshServerIds(all) {
      FreshParts(before, answer);
    }
  }

  lemma AnswerIsPlain(answer: seq<Block>, uses: seq<Block>, guided: bool)
    requires AnswersTurn(answer, uses, guided)
    ensures forall b | b in answer :: !b.WebSearchResult? && !b.ServerToolUse?
  {
    forall b | b in answer ensures !b.WebSearchResult? && !b.ServerToolUse? {
      var i :| 0 <= i < |answer| && answer[i] == b;
      assert i < |uses| && !guided ==> answer[i].ToolResult?;
      assert guided && i < |answer| - 1 ==> answer[..|answer| - 1][i] == b;
    }
  }

  lemma TurnBlocks(ms: seq<Message>, blocks: seq<Block>, answer: seq<Block>, t: nat, u: nat)
    ensures AllBlocks(ms + TurnMessages(blocks, answer, t, u))
         == AllBlocks(ms) + blocks + (if Uses(blocks) == [] then [] else answer)
  {
    var turn := TurnMessages(blocks, answer, t, u);
    AllBlocksAppend(ms, turn);
    var first := Message(false, Blocks(blocks), t);
    assert turn[..1] == [first] && [first][..0] == [];
    assert AllBlocks([first]) == [] + blocks;
    assert [] + blocks == blocks;
    if Uses(blocks) == [] {
      assert turn == [first];
      assert AllBlocks(ms) + blocks + [] == AllBlocks(ms) + blocks;
    } else {
      assert turn[..|turn| - 1] == [first];
      assert AllBlocks(turn) == blocks + answer;
    }
  }

  lemma NoUses(active: seq<Call>, blocks: seq<Block>)
    requires Uses(blocks) == []
    ensures OwnCallsOpen(active, Uses(blocks)) && Without(active, UseIds(Uses(blocks))) == active
  {
    WithoutNothing(active);
  }

  /**
   A whole turn keeps the history valid exactly when its response can follow
   the history; then just the response's client calls are answered.
   */
  lemma TurnCloses(ms: seq<Message>, blocks: seq<Block>, answer: seq<Block>, guided: bool, t: nat, u: nat)
    requires ValidHistory(ms) && DistinctUses(Uses(blocks))
    requires Uses(blocks) != [] ==> AnswersTurn(answer, Uses(blocks), guided)
    requires Uses(blocks) != [] && guided ==> !HasPendingServerTools(AllBlocks(ms) + blocks)
    ensures ValidHistory(ms + TurnMessages(blocks, answer, t, u)) <==> Continues(ms, blocks)
    ensures Continues(ms, blocks) ==>
              Run(ms + TurnMessages(blocks, answer, t, u)) == Ok(StillOpen(Run(ms).active, blocks))
  {
    hide CleanAtPrompts, FreshServerIds, Without, IsPrompt, OwnCallsOpen, HasPendingServerTools, AnswersTurn;
    var uses := Uses(blocks);
    var first := Message(false, Blocks(blocks), t);
    var whole := ms + TurnMessages(blocks, answer, t, u);
    ResponseStep(ms, blocks, t);
    NotAPrompt(first);
    CleanAppend(ms, first);
    TurnBlocks(ms, blocks, answer, t, u);
    if uses == [] {
      if RunBlocks(Run(ms).active, blocks).Ok? {
        NoUses(RunBlocks(Run(ms).active, blocks).active, blocks);
      }
      assert whole == ms + [first];
      assert AllBlocks(ms) + blocks + [] == AllBlocks(ms) + blocks;
      PendingIsServer(ms, blocks);
    } else {
      assert whole == (ms + [first]) + [Message(true, Blocks(answer), u)];
      AnswerIsPlain(answer, uses, guided);
      FreshThenAnswer(AllBlocks(ms) + blocks, answer);
      AnswerAfterResponse(ms, blocks, answer, guided, t, u);
    }
  }

  lemma NotAPrompt(m: Message)
    requires !m.fromUser
    ensures !IsPrompt(m)
  {
  }

  lemma PendingIsServer(ms: seq<Message>, blocks: seq<Block>)
    requires Accepted(ms, true)
    ensures RunBlocks(Run(ms).active, blocks).Ok? ==>
              MayStayOpen(Without(RunBlocks(Run(ms).active, blocks).active, UseIds(Uses(blocks))), true)
  {
    if RunBlocks(Run(ms).active, blocks).Ok? {
      RunKeepsDistinct([], ms);
      OnlyServerCallsStay(Run(ms).active, blocks);
    }
  }

  lemma AnswerAfterResponse(ms: seq<Message>, blocks: seq<Block>, answer: seq<Block>, guided: bool, t: nat, u: nat)
    requires ValidHistory(ms) && DistinctUses(Uses(blocks)) && Uses(blocks) != []
    requires CleanAtPrompts(ms + [Message(false, Blocks(blocks), t)])
    requires Run(ms + [Message(false, Blocks(blocks), t)]) == RunBlocks(Run(ms).active, blocks)
    requires AnswersTurn(answer, Uses(blocks), guided)
    requires guided ==> !HasPendingServerTools(AllBlocks(ms) + blocks)
    ensures var whole := ms + [Message(false, Blocks(blocks), t)] + [Message(true, Blocks(answer), u)];
            && CleanAtPrompts(whole)
            && (FreshServerIds(AllBlocks(ms) + blocks) ==> (Accepted(whole, true) <==> Continues(ms, blocks)))
            && (Continues(ms, blocks) ==>
                  Run(whole) == Ok(StillOpen(Run(ms).active, blocks)))
  {
    hide CleanAtPrompts, FreshServerIds, Without, IsPrompt, AnswersTurn, UseIds, BlocksOf, PendingSeen, StepMessage;
    var begun := ms + [Message(false, Blocks(blocks), t)];
    var reply := Message(true, Blocks(answer), u);
    if RunBlocks(Run(ms).active, blocks).Rejected? {
      RunAppend([], begun, [reply]);
      ReplyIsNoPrompt(answer, Uses(blocks), guided, u);
      CleanAppend(begun, reply);
    } else {
      var active := RunBlocks(Run(ms).active, blocks).active;
      RunKeepsDistinct([], ms);
      BlocksKeepDistinct(Run(ms).active, blocks);
      PendingIsServer(ms, blocks);
      AppendOne(begun, reply);
      ReplyIsNoPrompt(answer, Uses(blocks), guided, u);
      CleanAppend(begun, reply);
      if FreshServerIds(AllBlocks(ms) + blocks) {
        GuidedIsAlone(ms, blocks, active, guided);
        AnswerStep(active, Uses(blocks), answer, guided, u);
      }
    }
  }

  lemma ReplyIsNoPrompt(answer: seq<Block>, uses: seq<Block>, guided: bool, u: nat)
    requires uses != [] && AnswersTurn(answer, uses, guided)
    ensures !IsPrompt(Message(true, Blocks(answer), u))
  {
    assert answer[0] in answer && answer[0].ToolResult?;
  }

  /** Sibling guidance is only added where no server call is open. */
  lemma GuidedIsAlone(ms: seq<Message>, blocks: seq<Block>, active: seq<Call>, guided: bool)
    requires Run(ms).Ok? && FreshServerIds(AllBlocks(ms) + blocks) && RunBlocks(Run(ms).active, blocks) == Ok(active)
    requires guided ==> !HasPendingServerTools(AllBlocks(ms) + blocks)
    ensures guided ==> !HasServer(active)
  {
    FreshParts(AllBlocks(ms), blocks);
    HistoryOpenIsSeen(ms);
    RunKeepsDistinct([], ms);
    OpenIsSeen(Run(ms).active, AllBlocks(ms), blocks);
  }

  // ------------------------------------------------------ plain responses

  /** Text, thinking and named client calls only. */
  ghost predicate Plain(blocks: seq<Block>) {
    forall b | b in blocks :: b.Text? || b.Thinking? || (b.ToolUse? && b.id != "")
  }

  ghost predicate NoneOpen(active: seq<Call>, uses: seq<Block>) {
    forall i | 0 <= i < |uses| :: uses[i].ToolUse? && !Has(active, uses[i].id)
  }

  function CallsFor(uses: seq<Block>): seq<Call>
    requires forall u | u in uses :: u.ToolUse?
  {
    if uses == [] then [] else [Call(uses[0].id, false)] + CallsFor(uses[1..])
  }

  lemma {:induction false} PlainUses(blocks: seq<Block>)
    requires Plain(blocks)
    ensures forall i | 0 <= i < |Uses(blocks)| :: Uses(blocks)[i].id != ""
  {
    if blocks != [] {
      assert blocks[0] in blocks && Plain(blocks[1..]);
      PlainUses(blocks[1..]);
    }
  }

  /** A plain response is taken exactly when its call ids are distinct and none of them is open already. */
  lemma {:induction false} PlainRun(active: seq<Call>, blocks: seq<Block>)
    requires Plain(blocks)
    ensures RunBlocks(active, blocks).Ok? <==> DistinctUses(Uses(blocks)) && NoneOpen(active, Uses(blocks))
    ensures RunBlocks(active, blocks).Ok? ==> RunBlocks(active, blocks).active == active + CallsFor(Uses(blocks))
    decreases |blocks|
  {
    PlainUses(blocks);
    if blocks == [] {
      assert active + [] == active;
    } else {
      var b := blocks[0];
      assert b in blocks && Plain(blocks[1..]);
      if b.ToolUse? {
        var rest := Uses(blocks[1..]);
        assert Uses(blocks) == [b] + rest && Uses(blocks)[1..] == rest;
        if !Has(active, b.id) {
          PlainRun(active + [Call(b.id, false)], blocks[1..]);
          OpenedNext(active, b.id, rest);
          assert active + [Call(b.id, false)] + CallsFor(rest) == active + CallsFor(Uses(blocks));
        } else {
          assert !NoneOpen(active, Uses(blocks)) by {
            assert Uses(blocks)[0] == b;
          }
        }
      } else {
        PlainRun(active, blocks[1..]);
        assert Uses(blocks) == Uses(blocks[1..]);
      }
    }
  }

  lemma OpenedNext(active: seq<Call>, id: string, rest: seq<Block>)
    requires (forall u | u in rest :: u.ToolUse?) && !Has(active, id)
    ensures NoneOpen(active + [Call(id, false)], rest)
        <==> NoneOpen(active, rest) && forall i | 0 <= i < |rest| :: rest[i].id != id
  {
    var next := active + [Call(id, false)];
    assert next[|active|] in next;
    assert forall c :: c in next <==> c in active || c == Call(id, false);
    if NoneOpen(next, rest) {
      forall i | 0 <= i < |rest| ensures !Has(active, rest[i].id) && rest[i].id != id {
        assert !Has(next, rest[i].id);
      }
    }
  }

  lemma {:induction false} CallsForMembers(uses: seq<Block>)
    requires forall u | u in uses :: u.ToolUse?
    ensures forall i | 0 <= i < |uses| :: Call(uses[i].id, false) in CallsFor(uses)
  {
    if uses != [] {
      CallsForMembers(uses[1..]);
      forall i | 0 <= i < |uses| ensures Call(uses[i].id, false) in CallsFor(uses) {
        assert i > 0 ==> uses[i] == uses[1..][i - 1];
      }
    }
  }

  lemma PlainIsFresh(ms: seq<Message>, blocks: seq<Block>)
    requires Plain(blocks) && FreshServerIds(AllBlocks(ms))
    ensures FreshServerIds(AllBlocks(ms) + blocks)
  {
    FreshThenAnswer(AllBlocks(ms), blocks);
  }

  /** A plain response follows a history exactly when its call ids are distinct and none of them is pending. */
  lemma PlainContinues(ms: seq<Message>, blocks: seq<Block>)
    requires ValidHistory(ms) && Plain(blocks)
    ensures Continues(ms, blocks) <==> DistinctUses(Uses(blocks)) && NoneOpen(Run(ms).active, Uses(blocks))
  {
    hide FreshServerIds, CleanAtPrompts;
    PlainRun(Run(ms).active, blocks);
    PlainIsFresh(ms, blocks);
    CallsForMembers(Uses(blocks));
    var uses := Uses(blocks);
    if RunBlocks(Run(ms).active, blocks).Ok? {
      var active := RunBlocks(Run(ms).active, blocks).active;
      forall i | 0 <= i < |uses| ensures Has(active, uses[i].id) {
        assert Call(uses[i].id, false) in active;
      }
    }
  }

  lemma {:induction false} SalvageIsPlain(blocks: seq<Block>)
    ensures Plain(Salvage(blocks))
  {
    SalvageKind(blocks);
    forall b | b in Salvage(blocks) && b.ToolUse? ensures b.id != "" {
      NamedIsNotEmpty(b);
    }
  }

  lemma TrimExamples()
    ensures Trim("a") == "a" && Trim("a ") == "a" && Trim("grep") == "grep"
  {
    hide Trim;
    assert "a" + " " == "a ";
    TrimNothing("a");
    TrimNothing("grep");
  }

  lemma SalvageTwo(a: Block, b: Block)
    ensures Salvage([a, b]) == SalvageOne(a) + SalvageOne(b)
  {
    hide SalvageOne;
    assert [a, b][..1] == [a] && [a][..0] == [];
    assert Salvage([a]) == [] + SalvageOne(a);
    assert Salvage([a]) == SalvageOne(a);
  }

  lemma SameIdTwice(a: Block)
    requires a.ToolUse? && a.id != ""
    ensures !Continues([], [a, a])
  {
    assert Plain([a, a]);
    var uses := Uses([a, a]);
    assert [a, a][1..] == [a] && [a][1..] == [];
    assert Uses([a]) == [a] + [] && Uses([a, a]) == [a] + Uses([a]);
    assert uses == [a, a] && uses[0].id == uses[1].id;
    PlainRun([], [a, a]);
  }

  /** Salvage trims ids, so two calls can end up with one id, and the history is refused from then on. */
  lemma SalvageMayCollide()
    ensures !Continues([], Salvage([ToolUse("a", "grep", Object(None)), ToolUse("a ", "grep", Object(None))]))
  {
    hide Trim, Continues;
    var a := ToolUse("a", "grep", Object(None));
    TrimExamples();
    SalvageTwo(a, ToolUse("a ", "grep", Object(None)));
    assert SalvageOne(a) + SalvageOne(a) == [a, a];
    SameIdTwice(a);
  }

  // ------------------------------------------------------------- history

  datatype TurnResult = Refused(error: AdmissionError) | Done(answer: seq<Block>, guided: bool)

  /** The tracker is asked only after a turn that nobody interrupted or steered. */
  function Offered(o: Outside): Option<string> {
    if o.interrupted || o.steered then None else o.recovery
  }

  /**
   Guidance stands behind the results, except while a server call is pending:
   then it is the last part of the first result, and nothing else changes.
   */
  ghost predicate GuidedBy(answer: seq<Block>, results: seq<Block>, response: seq<Block>, recovery: Option<string>) {
    if recovery.None? then answer == results
    else if !HasPendingServerTools(response) then answer == results + [Text(recovery.value)]
    else
      && |answer| == |results| && (forall i | 1 <= i < |results| :: answer[i] == results[i])
      && (results != [] ==>
        && results[0].ToolResult? && answer[0].ToolResult?
        && answer[0].callId == results[0].callId && answer[0].isError == results[0].isError
        && answer[0].parts == results[0].parts + [RECOVERY_HEADING + recovery.value])
  }

  lemma RanAnswers(uses: seq<Block>, inputErrors: seq<Option<string>>, o: Outside, waves: seq<seq<Entry>>,
                   results: seq<Block>, answered: nat, tries: seq<Option<Attempt>>)
    requires ToolsRan(uses, inputErrors, o, waves, results, answered, tries)
    ensures Answers(results, uses)
  {
  }

  /** How far repeated truncation can still go. */
  function Weight(ms: seq<Message>, lastHandoff: Option<string>): nat {
    2 * |ms| + (if lastHandoff.Some? && ms != [] && ms[0].content == Str(Wrapped(lastHandoff.value)) then 0 else 1)
  }

  /** The handoff stands somewhere among the messages. */
  ghost predicate Carries(ms: seq<Message>, lastHandoff: Option<string>) {
    exists m :: m in ms && IsHandoff(m, lastHandoff)
  }

  function HandoffMessage(wrapped: string, tokens: nat): Message {
    Message(true, Str(wrapped), tokens)
  }

  lemma SuffixIsFresh(ms: seq<Message>, cut: nat, handoff: seq<Message>)
    requires cut <= |ms| && FreshServerIds(AllBlocks(ms)) && HandoffOnly(handoff)
    ensures FreshServerIds(AllBlocks(Kept(ms, cut, handoff)))
  {
    hide FreshServerIds, AllBlocks, HandoffOnly;
    assert ms[..cut] + ms[cut..] == ms;
    AllBlocksAppend(ms[..cut], ms[cut..]);
    AllBlocksAppend(handoff, ms[cut..]);
    FreshParts(AllBlocks(ms[..cut]), AllBlocks(ms[cut..]));
    HandoffHasNoBlocks(handoff);
    assert [] + AllBlocks(ms[cut..]) == AllBlocks(ms[cut..]);
  }

  lemma HandoffHasNoBlocks(handoff: seq<Message>)
    requires HandoffOnly(handoff)
    ensures AllBlocks(handoff) == []
  {
    if handoff != [] {
      assert handoff[0] in handoff && handoff[..0] == [];
    }
  }

  /** A cut at a prompt, or of everything, keeps the history valid; at a prompt the same calls stay pending. */
  lemma CutStaysValid(ms: seq<Message>, cut: nat, handoff: seq<Message>)
    requires ValidHistory(ms) && HandoffOnly(handoff) && (AtPrompt(ms, cut) || cut == |ms|)
    ensures ValidHistory(Kept(ms, cut, handoff))
    ensures AtPrompt(ms, cut) ==> Run(Kept(ms, cut, handoff)) == Run(ms)
  {
    hide FreshServerIds, CleanAtPrompts, HandoffOnly;
    SuffixIsFresh(ms, cut, handoff);
    if AtPrompt(ms, cut) {
      CutKeepsRequestsValid(ms, cut, handoff, true);
    } else {
      EverythingEvicted(ms, handoff, true);
    }
  }

  lemma {:induction false} TokensAppend(a: seq<Message>, b: seq<Message>)
    ensures Tokens(a + b) == Tokens(a) + Tokens(b)
  {
    if a == [] {
      assert a + b == b;
    } else {
      assert (a + b)[1..] == a[1..] + b;
      TokensAppend(a[1..], b);
    }
  }

  class History {
    var history: seq<Message>
    var lastHandoff: Option<string>

    ghost predicate Valid()
      reads `history
    {
      ValidHistory(history)
    }

    constructor ()
      ensures Valid() && history == [] && lastHandoff == None
    {
      history, lastHandoff := [], None;
    }

    /** A new prompt, a steering line or a note to the model: only where no server call is pending. */
    method PushPrompt(prompt: Message) returns (pushed: bool)
      requires Valid() && UserPrompt(prompt)
      modifies `history
      ensures Valid()
      ensures pushed <==> !HasPendingServerTools(AllBlocks(old(history)))
      ensures history == old(history) + (if pushed then [prompt] else [])
      ensures pushed ==> Accepted(history, false)
    {
      if HasPendingServerTools(AllBlocks(history)) {
        return false;
      }
      PromptKeepsValid(history, prompt);
      history := history + [prompt];
      pushed := true;
    }

    /**
     A direct shell command, recorded without looking at pending server calls.
     The history survives it exactly when no server call is open.
     */
    method RunBangCommand(text: string, tokens: nat)
      requires Valid() && text != ""
      modifies `history
      ensures history == old(history) + [Message(true, Str(text), tokens)]
      ensures Valid() <==> !HasServer(Run(old(history)).active)
      ensures !Valid() ==> Run(history) == Rejected(InterruptsServerTool)
    {
      BangOutcome(history, text, tokens);
      history := history + [Message(true, Str(text), tokens)];
    }

    /**
     One response and, when it has client calls, the message that answers every
     one of them: what the tools gave, with the guidance the tracker offers in
     a turn that nobody interrupted or steered.
     */
    method Turn(blocks: seq<Block>, inputErrors: seq<Option<string>>, o: Outside, t: nat, u: nat)
      returns (r: TurnResult, ghost results: seq<Block>, ghost answered: nat, ghost waves: seq<seq<Entry>>, ghost tries: seq<Option<Attempt>>)
      requires Valid() && |o.attempts| == |inputErrors| == |Uses(blocks)|
      modifies `history
      ensures r.Refused? <==> !Admitted(blocks)
      ensures r.Refused? ==> history == old(history)
      ensures r.Done? ==> history == old(history) + TurnMessages(blocks, r.answer, t, u)
      ensures r.Done? && Uses(blocks) == [] ==> r.answer == [] && !r.guided
      ensures r.Done? && Uses(blocks) != [] ==>
                && AnswersTurn(r.answer, Uses(blocks), r.guided)
                && (r.guided <==> Offered(o).Some? && !HasPendingServerTools(AllBlocks(old(history)) + blocks))
                && ToolsRan(Uses(blocks), inputErrors, o, waves, results, answered, tries)
                && GuidedBy(r.answer, results, AllBlocks(old(history)) + blocks, Offered(o))
      ensures r.Done? ==> (Valid() <==> Continues(old(history), blocks))
      ensures r.Done? && Valid() ==> Run(history) == Ok(StillOpen(Run(old(history)).active, blocks))
    {
      hide Admitted, Valid, AnswersTurn, TurnOk, FreshServerIds, Uses, HasPendingServerTools, Continues, ToolsRan, GuidedBy;
      ValidIs();
      results, answered, waves, tries := [], 0, [], [];
      var error := ProviderToolAdmissionError(blocks);
      if error.Some? {
        r := Refused(error.value);
        return;
      }
      ghost var before := history;
      AdmittedUses(blocks);
      history := history + [Message(false, Blocks(blocks), t)];
      ResponseBlocks(before, blocks, t);
      var uses := Uses(blocks);
      var answer: seq<Block> := [];
      var guided := false;
      if uses != [] {
        var outcomes, reached;
        outcomes, reached, waves, tries := RunTools(uses, inputErrors, o);
        results, answered := outcomes, reached;
        RanAnswers(uses, inputErrors, o, waves, outcomes, reached, tries);
        var offered := if !o.interrupted && !o.steered then o.recovery else None;
        assert offered == Offered(o);
        answer, guided := Guide(uses, outcomes, AllBlocks(history), offered);
        history := history + [Message(true, Blocks(answer), u)];
      }
      r := Done(answer, guided);
      assert history == before + TurnMessages(blocks, answer, t, u);
      ValidIs();
      TurnCloses(before, blocks, answer, guided, t, u);
    }

    lemma ValidIs()
      ensures Valid() <==> ValidHistory(history)
    {
    }

    /** The results with the recovery guidance of the loop tracker, if it offers any. */
    method Guide(uses: seq<Block>, outcomes: seq<Block>, response: seq<Block>, recovery: Option<string>)
      returns (answer: seq<Block>, guided: bool)
      requires Answers(outcomes, uses)
      ensures AnswersTurn(answer, uses, guided) && GuidedBy(answer, outcomes, response, recovery)
      ensures guided <==> recovery.Some? && !HasPendingServerTools(response)
    {
      if recovery.None? {
        return outcomes, false;
      }
      RecoveryKeepsAnswers(outcomes, uses, response, recovery.value);
      answer := ToolResultsWithRecovery(outcomes, response, recovery.value);
      guided := !HasPendingServerTools(response);
      assert guided ==> answer[..|answer| - 1] == outcomes;
    }

    /** After a crash: the last response may have been recorded without its results. */
    method CompleteInterruptedToolTurn(u: nat)
      requires ResumableHistory(history)
      modifies `history
      ensures EndsUnanswered(old(history)) ==>
                exists results: seq<Block> :: Answers(results, Uses(BlocksOf(old(history)[|old(history)| - 1])))
                                  && (forall r | r in results :: r.ToolResult? && r.isError)
                                  && history == old(history) + [Message(true, Blocks(results), u)]
      ensures !EndsUnanswered(old(history)) ==> history == old(history)
      ensures Valid() || (old(history) != [] && !Admitted(BlocksOf(old(history)[|old(history)| - 1])))
    {
      hide Admitted, ValidHistory, NoticeText, Continues, Uses;
      if history == [] || history[|history| - 1].fromUser || history[|history| - 1].content.Str? {
        return;
      }
      var blocks := history[|history| - 1].content.blocks;
      var error := ProviderToolAdmissionError(blocks);
      if error.Some? {
        return;
      }
      AdmittedUses(blocks);
      var results := FailAll(Uses(blocks), OutcomeUnknown);
      ghost var start, t := history[..|history| - 1], history[|history| - 1].tokens;
      assert history == start + [Message(false, Blocks(blocks), t)];
      if results != [] {
        history := history + [Message(true, Blocks(results), u)];
      }
      assert history == start + TurnMessages(blocks, results, t, u);
      TurnCloses(start, blocks, results, false, t, u);
    }

    /** Error results for calls that were not carried out. */
    method FailAll(uses: seq<Block>, notice: Notice) returns (results: seq<Block>)
      requires forall i | 0 <= i < |uses| :: uses[i].ToolUse?
      ensures Answers(results, uses) && forall r | r in results :: r.ToolResult? && r.isError
    {
      hide NoticeText;
      results := [];
      while |results| < |uses|
        invariant |results| <= |uses|
        invariant forall i | 0 <= i < |results| :: results[i].ToolResult? && results[i].isError && results[i].callId == uses[i].id
        decreases |uses| - |results|
      {
        results := results + [Failed(uses[|results|], NoticeText(notice))];
      }
    }

    /**
     A stream that failed half-way: what was shown is kept, its calls are
     answered as not run. The history survives exactly when the salvaged call
     ids are distinct and none of them is still pending.
     */
    method PersistFailedStreamTurn(blocks: seq<Block>, interrupted: bool, t: nat, u: nat)
      requires Valid()
      modifies `history
      ensures interrupted || Salvage(blocks) == [] ==> history == old(history)
      ensures !interrupted && Salvage(blocks) != [] ==>
                exists results: seq<Block> :: Answers(results, Uses(Salvage(blocks)))
                                  && (forall r | r in results :: r.ToolResult? && r.isError)
                                  && history == old(history) + TurnMessages(Salvage(blocks), results, t, u)
      ensures Valid() <==> interrupted || (DistinctUses(Uses(Salvage(blocks))) && NoneOpen(Run(old(history)).active, Uses(Salvage(blocks))))
    {
      hide ValidHistory, NoticeText, Continues, Uses, Salvage;
      PlainNothing(history);
      if interrupted {
        return;
      }
      ghost var before := history;
      var salvaged := SalvageAssistantBlocks(blocks);
      SalvageIsIdempotent(blocks);
      SalvageIsPlain(blocks);
      PlainContinues(before, salvaged);
      if salvaged == [] {
        return;
      }
      history := history + [Message(false, Blocks(salvaged), t)];
      var results := FailAll(Uses(salvaged), StreamEnded);
      if results != [] {
        history := history + [Message(true, Blocks(results), u)];
      }
      assert history == before + TurnMessages(salvaged, results, t, u);
      FailedTurn(before, salvaged, results, t, u);
    }

    /**
     Last resort: drop whole old turns, put the handoff back when the cut lost
     it. Nothing is dropped when nothing need be, when there is nothing to drop,
     or when the cut would only take away the handoff it puts back.
     */
    method Truncate(total: real, usable: real, low: real, tokenScale: real, protectTurns: int, handoffTokens: nat)
      returns (done: bool, ghost cut: nat, ghost start: nat, ghost handoff: seq<Message>)
      requires Valid()
      modifies `history
      ensures Valid() && Run(history) == Run(old(history)) && cut <= |old(history)|
      ensures if total < usable then cut == 0 else IsCut(old(history), cut, start, total, usable, low, tokenScale, protectTurns)
      ensures done <==> cut > 0 && !(cut == 1 && IsHandoff(old(history)[0], lastHandoff) && !Carries(old(history)[1..], lastHandoff))
      ensures !done ==> history == old(history)
      ensures done ==> AtPrompt(old(history), cut) && HandoffOnly(handoff) && history == handoff + old(history)[cut..]
      ensures done ==> if lastHandoff.None? || Carries(old(history)[cut..], lastHandoff) then handoff == []
                       else handoff == [HandoffMessage(Wrapped(lastHandoff.value), handoffTokens)]
      ensures done && lastHandoff.Some? ==> Carries(history, lastHandoff)
      ensures done ==> Prompts(old(history)[cut..]) >= Min(if protectTurns < 1 then 1 else protectTurns, Prompts(old(history)))
      ensures done ==> Weight(history, lastHandoff) < Weight(old(history), lastHandoff)
    {
      hide ValidHistory, Wrapped, IsCut;
      cut, start, handoff := 0, 0, [];
      if total < usable {
        done := false;
        return;
      }
      var at;
      at, start := TruncateCut(history, total, usable, low, tokenScale, protectTurns);
      cut := at;
      if at <= 0 || CutOnlyRestoresHandoff(history, at, lastHandoff) {
        done := false;
        return;
      }
      var restore := RestoreHandoffAfterCut(lastHandoff, history[at..]);
      handoff := if restore.Some? then [HandoffMessage(restore.value, handoffTokens)] else [];
      CutStaysValid(history, at, handoff);
      CutLosesWeight(history, at, lastHandoff, handoffTokens);
      history := history[at..];
      if restore.Some? {
        history := [HandoffMessage(restore.value, handoffTokens)] + history;
      }
      assert history == Kept(old(history), cut, handoff);
      if restore.Some? {
        assert history[0] in history && IsHandoff(history[0], lastHandoff);
      } else {
        assert forall m | m in old(history)[cut..] :: m in history;
      }
      done := true;
    }

    /**
     Fold the evicted span into one handoff: exactly when there is enough to
     fold, the model gave a text, and the handoff is smaller than the span.
     */
    method Summarize(guardTokens: real, minimumReclaimTokens: real, text: string, handoffTokens: nat)
      returns (done: bool, ghost boundary: nat)
      requires Valid()
      modifies `history, `lastHandoff
      ensures Valid()
      ensures IsBoundary(old(history), boundary, guardTokens, PROTECT_TURNS) && boundary <= |old(history)|
      ensures var evicted := MessagesForSummary(old(history)[..boundary], old(lastHandoff));
              done <==> evicted != [] && Tokens(evicted) as real >= minimumReclaimTokens
                        && text != "" && handoffTokens < Tokens(old(history)[..boundary])
      ensures !done ==> history == old(history) && lastHandoff == old(lastHandoff)
      ensures done ==>
                && 0 < boundary && lastHandoff == Some(text)
                && history == [HandoffMessage(Wrapped(text), handoffTokens)] + old(history)[boundary..]
                && Tokens(history) < Tokens(old(history))
                && (boundary < |old(history)| ==> Run(history) == Run(old(history)))
    {
      hide ValidHistory, Wrapped, IsBoundary;
      var plan;
      plan, boundary := PlanSummary(history, lastHandoff, guardTokens, minimumReclaimTokens);
      if plan.None? {
        done := false;
        return;
      }
      var b := plan.value.boundary;
      BoundaryIsPrompt(history, b, guardTokens);
      if text == "" || handoffTokens >= Tokens(history[..b]) {
        done := false;
        return;
      }
      ghost var handoff := [HandoffMessage(Wrapped(text), handoffTokens)];
      CutStaysValid(history, b, handoff);
      assert history[..b] + history[b..] == history;
      TokensAppend(history[..b], history[b..]);
      TokensAppend(handoff, history[b..]);
      lastHandoff := Some(text);
      history := [HandoffMessage(Wrapped(text), handoffTokens)] + history[b..];
      assert history == Kept(old(history), b, handoff);
      done := true;
    }
  }

  lemma BoundaryIsPrompt(ms: seq<Message>, b: nat, guardTokens: real)
    requires IsBoundary(ms, b, guardTokens, PROTECT_TURNS)
    ensures b <= |ms| && (b < |ms| ==> AtPrompt(ms, b))
  {
  }

  /** What the agent records for a prompt: its text, with images as further blocks. */
  ghost predicate UserPrompt(m: Message) {
    && m.fromUser
    && (m.content.Blocks? ==> m.content.blocks != [] && forall b | b in m.content.blocks :: b.Text? || b.Image?)
  }

  lemma PromptKeepsValid(ms: seq<Message>, prompt: Message)
    requires ValidHistory(ms) && UserPrompt(prompt) && !HasPendingServerTools(AllBlocks(ms))
    ensures ValidHistory(ms + [prompt]) && Accepted(ms + [prompt], false)
  {
    hide FreshServerIds, CleanAtPrompts, AllBlocks, HasPendingServerTools;
    GuardIsSound(ms);
    AppendOne(ms, prompt);
    PromptOpensNothing(prompt);
    CleanAppend(ms, prompt);
    AllBlocksNext(ms, prompt);
    FreshThenAnswer(AllBlocks(ms), BlocksOf(prompt));
  }

  lemma AllBlocksNext(ms: seq<Message>, m: Message)
    ensures AllBlocks(ms + [m]) == AllBlocks(ms) + BlocksOf(m)
  {
    assert (ms + [m])[..|ms|] == ms;
  }

  lemma {:induction false} PromptOpensNothing(prompt: Message)
    requires UserPrompt(prompt)
    ensures StepMessage([], prompt) == Ok([]) && IsPrompt(prompt)
    ensures forall b | b in BlocksOf(prompt) :: b.Text? || b.Image?
  {
    if prompt.content.Blocks? {
      InertBlocks([], prompt.content.blocks);
      assert prompt.content.blocks[0] in prompt.content.blocks;
    }
  }

  lemma {:induction false} InertBlocks(active: seq<Call>, bs: seq<Block>)
    requires forall b | b in bs :: b.Text? || b.Image?
    ensures RunBlocks(active, bs) == Ok(active)
  {
    if bs != [] {
      assert bs[0] in bs;
      InertBlocks(active, bs[1..]);
    }
  }

  lemma OpensOne(id: string)
    requires id != ""
    ensures RunBlocks([], [ServerToolUse(id)]) == Ok([Call(id, true)])
  {
    var bs, none: seq<Call> := [ServerToolUse(id)], [];
    assert bs[1..] == [] && none + [Call(id, true)] == [Call(id, true)];
    assert StepBlock(none, bs[0]) == Ok([Call(id, true)]);
  }

  /** It does happen: a valid history whose response waits for a search result, and a shell command behind it. */
  lemma BangInterrupts(hi: string, id: string, text: string)
    requires hi != "" && id != "" && text != ""
    ensures var ms := [Message(true, Str(hi), 1), Message(false, Blocks([ServerToolUse(id)]), 1)];
            ValidHistory(ms) && Run(ms + [Message(true, Str(text), 1)]) == Rejected(InterruptsServerTool)
  {
    var prompt, response := Message(true, Str(hi), 1), Message(false, Blocks([ServerToolUse(id)]), 1);
    var ms := [prompt, response];
    assert [] + [prompt] == [prompt] && [prompt] + [response] == ms;
    assert Run([]) == Ok([]);
    AppendOne([], prompt);
    assert Run([prompt]) == Ok([]);
    AppendOne([prompt], response);
    OpensOne(id);
    assert Run(ms) == Ok([Call(id, true)]);
    assert ms[..1] == [prompt] && [prompt][..0] == [] && ms[..0] == [];
    assert AllBlocks([prompt]) == [] + [] && AllBlocks(ms) == AllBlocks([prompt]) + [ServerToolUse(id)];
    assert !IsPrompt(ms[1]);
    assert CleanAtPrompts(ms);
    BangOutcome(ms, text, 1);
  }

  lemma BangOutcome(ms: seq<Message>, text: string, tokens: nat)
    requires ValidHistory(ms) && text != ""
    ensures var m := Message(true, Str(text), tokens);
            && (ValidHistory(ms + [m]) <==> !HasServer(Run(ms).active))
            && (HasServer(Run(ms).active) ==> Run(ms + [m]) == Rejected(InterruptsServerTool))
  {
    hide FreshServerIds, CleanAtPrompts;
    var m := Message(true, Str(text), tokens);
    AppendOne(ms, m);
    AllBlocksAppend(ms, [m]);
    assert [m][..0] == [] && AllBlocks([m]) == [] + [];
    assert AllBlocks(ms) + [] == AllBlocks(ms);
    if !HasServer(Run(ms).active) {
      assert forall c | c in Run(ms).active :: c.server;
      NoneIsEmpty(Run(ms).active);
      CleanAppend(ms, m);
    }
  }

  lemma ResponseBlocks(ms: seq<Message>, blocks: seq<Block>, t: nat)
    ensures AllBlocks(ms + [Message(false, Blocks(blocks), t)]) == AllBlocks(ms) + blocks
  {
    AllBlocksAppend(ms, [Message(false, Blocks(blocks), t)]);
    assert [Message(false, Blocks(blocks), t)][..0] == [];
    assert AllBlocks([Message(false, Blocks(blocks), t)]) == [] + blocks;
    assert [] + blocks == blocks;
  }

  /** What a resumed session may hold: a valid history whose last response can still be missing its results. */
  ghost predicate ResumableHistory(ms: seq<Message>) {
    if ms != [] && !ms[|ms| - 1].fromUser && ms[|ms| - 1].content.Blocks?
    then ValidHistory(ms[..|ms| - 1]) && Continues(ms[..|ms| - 1], BlocksOf(ms[|ms| - 1]))
    else ValidHistory(ms)
  }

  /** The last message is a well-formed response with client calls. */
  ghost predicate EndsUnanswered(ms: seq<Message>) {
    ms != [] && !ms[|ms| - 1].fromUser && ms[|ms| - 1].content.Blocks?
    && Admitted(BlocksOf(ms[|ms| - 1])) && Uses(BlocksOf(ms[|ms| - 1])) != []
  }

  lemma PlainNothing(ms: seq<Message>)
    requires ValidHistory(ms)
    ensures Uses([]) == [] && DistinctUses(Uses([])) && NoneOpen(Run(ms).active, Uses([]))
  {
  }

  lemma FailedTurn(ms: seq<Message>, blocks: seq<Block>, results: seq<Block>, t: nat, u: nat)
    requires ValidHistory(ms) && Plain(blocks) && Answers(results, Uses(blocks))
    ensures ValidHistory(ms + TurnMessages(blocks, results, t, u))
        <==> DistinctUses(Uses(blocks)) && NoneOpen(Run(ms).active, Uses(blocks))
  {
    hide FreshServerIds, CleanAtPrompts, Continues;
    PlainContinues(ms, blocks);
    if DistinctUses(Uses(blocks)) {
      TurnCloses(ms, blocks, results, false, t, u);
    } else {
      PlainRun(Run(ms).active, blocks);
      ResponseStep(ms, blocks, t);
      var turn := TurnMessages(blocks, results, t, u);
      var first := Message(false, Blocks(blocks), t);
      assert (ms + turn)[..|ms| + 1] == ms + [first];
      RunSplit(ms + turn, |ms| + 1);
    }
  }

  lemma CutLosesWeight(ms: seq<Message>, cut: nat, lastHandoff: Option<string>, handoffTokens: nat)
    requires 0 < cut <= |ms| && !CutOnlyRestoresHandoff(ms, cut, lastHandoff)
    ensures var restore := RestoreHandoffAfterCut(lastHandoff, ms[cut..]);
            var handoff := if restore.Some? then [HandoffMessage(restore.value, handoffTokens)] else [];
            Weight(Kept(ms, cut, handoff), lastHandoff) < Weight(ms, lastHandoff) && HandoffOnly(handoff)
  {
    hide Wrapped;
  }
}
