/**
 One tool turn: the calls of a response, the results that answer them one by
 one in call order, and the repairs made when a turn is cut short.
 */
module ToolTurn {
  import opened JsText
  import opened Wrappers
  import opened ToolHistory
  import opened ToolWaves

  // ---------------------------------------------------------- admission

  datatype AdmissionError = MissingIdentity | DuplicateIdentity | ArgumentsNotAnObject

  predicate WellFormedUse(b: Block)
    requires b.ToolUse?
  {
    Trim(b.id) != "" && Trim(b.name) != "" && b.input.Object?
  }

  ghost predicate Admitted(blocks: seq<Block>) {
    && (forall i | 0 <= i < |blocks| && blocks[i].ToolUse? :: WellFormedUse(blocks[i]))
    && (forall i, j | 0 <= i < j < |blocks| && blocks[i].ToolUse? && blocks[j].ToolUse? :: blocks[i].id != blocks[j].id)
  }

  /** An earlier call among the first `n` blocks has this id. */
  ghost predicate TakenId(blocks: seq<Block>, n: nat, id: string) {
    exists k :: 0 <= k < n && k < |blocks| && blocks[k].ToolUse? && blocks[k].id == id
  }

  lemma NothingAdmitted(blocks: seq<Block>)
    requires blocks == []
    ensures Admitted(blocks)
  {
  }

  lemma AdmittedNext(blocks: seq<Block>, i: nat)
    requires i < |blocks| && Admitted(blocks[..i])
    ensures Admitted(blocks[..i + 1])
        <==> (blocks[i].ToolUse? ==> WellFormedUse(blocks[i]) && !TakenId(blocks, i, blocks[i].id))
  {
    hide WellFormedUse;
    var next := blocks[..i + 1];
    assert next[i] == blocks[i] && forall k | 0 <= k < i :: next[k] == blocks[..i][k] == blocks[k];
    if blocks[i].ToolUse? && TakenId(blocks, i, blocks[i].id) {
      var k :| 0 <= k < i && blocks[k].ToolUse? && blocks[k].id == blocks[i].id;
      assert next[k].id == next[i].id;
    }
  }

  lemma AdmittedPrefix(blocks: seq<Block>, k: nat)
    requires k <= |blocks|
    ensures Admitted(blocks) ==> Admitted(blocks[..k])
  {
    hide WellFormedUse;
  }

  method ProviderToolAdmissionError(blocks: seq<Block>) returns (error: Option<AdmissionError>)
    ensures error.None? <==> Admitted(blocks)
    ensures error.Some? ==> exists i :: 0 <= i < |blocks| && Admitted(blocks[..i]) && !Admitted(blocks[..i + 1])
  {
    hide Trim, Admitted;
    var ids: set<string> := {};
    assert Admitted(blocks[..0]) by {
      NothingAdmitted(blocks[..0]);
    }
    for i := 0 to |blocks|
      invariant Admitted(blocks[..i])
      invariant forall id :: id in ids <==> TakenId(blocks, i, id)
    {
      var block := blocks[i];
      AdmittedNext(blocks, i);
      AdmittedPrefix(blocks, i + 1);
      if !block.ToolUse? {
        continue;
      }
      if Trim(block.id) == "" || Trim(block.name) == "" {
        return Some(MissingIdentity);
      }
      if block.id in ids {
        return Some(DuplicateIdentity);
      }
      ids := ids + {block.id};
      if !block.input.Object? {
        return Some(ArgumentsNotAnObject);
      }
    }
    assert blocks[..|blocks|] == blocks;
    error := None;
  }

  // ------------------------------------------------------ calls, results

  /** The client calls of a response, in order. */
  function Uses(blocks: seq<Block>): (uses: seq<Block>)
    ensures forall u | u in uses :: u.ToolUse?
  {
    if blocks == [] then []
    else (if blocks[0].ToolUse? then [blocks[0]] else []) + Uses(blocks[1..])
  }

  /** One result per call, in call order. */
  ghost predicate Answers(results: seq<Block>, uses: seq<Block>) {
    && |results| == |uses|
    && forall i | 0 <= i < |uses| :: uses[i].ToolUse? && results[i].ToolResult? && results[i].callId == uses[i].id
  }

  ghost predicate DistinctUses(uses: seq<Block>) {
    && (forall i | 0 <= i < |uses| :: uses[i].ToolUse? && uses[i].id != "")
    && (forall i, j | 0 <= i < j < |uses| :: uses[i].id != uses[j].id)
  }

  ghost function UseIds(uses: seq<Block>): set<string>
    requires forall u | u in uses :: u.ToolUse?
  {
    if uses == [] then {} else {uses[0].id} + UseIds(uses[1..])
  }

  lemma NamedIsNotEmpty(b: Block)
    requires b.ToolUse? && WellFormedUse(b)
    ensures b.id != "" && b.name != ""
  {
  }

  lemma AdmittedTail(blocks: seq<Block>)
    requires Admitted(blocks) && blocks != []
    ensures Admitted(blocks[1..])
    ensures blocks[0].ToolUse? ==> blocks[0].id != "" && NoCall(blocks[1..], blocks[0].id)
  {
    hide WellFormedUse;
    if blocks[0].ToolUse? {
      NamedIsNotEmpty(blocks[0]);
    }
  }

  ghost predicate NoCall(blocks: seq<Block>, id: string) {
    forall i | 0 <= i < |blocks| && blocks[i].ToolUse? :: blocks[i].id != id
  }

  lemma {:induction false} UsesNoCall(blocks: seq<Block>, id: string)
    requires NoCall(blocks, id)
    ensures NoCall(Uses(blocks), id)
  {
    if blocks != [] {
      assert NoCall(blocks[1..], id);
      UsesNoCall(blocks[1..], id);
    }
  }

  lemma {:induction false} AdmittedUses(blocks: seq<Block>)
    requires Admitted(blocks)
    ensures DistinctUses(Uses(blocks))
  {
    hide Admitted;
    if blocks != [] {
      AdmittedTail(blocks);
      AdmittedUses(blocks[1..]);
      if blocks[0].ToolUse? {
        UsesNoCall(blocks[1..], blocks[0].id);
      }
    }
  }

  lemma {:induction false} WithoutNothing(active: seq<Call>)
    ensures Without(active, {}) == active
  {
    if active != [] {
      WithoutNothing(active[1..]);
    }
  }

  lemma {:induction false} RemoveThenWithout(active: seq<Call>, id: string, gone: set<string>)
    requires DistinctIds(active)
    ensures Without(Remove(active, id), gone) == Without(active, gone + {id})
  {
    if active != [] {
      if active[0].id == id {
        assert forall c | c in active[1..] :: c.id != id;
        WithoutSame(active[1..], gone, gone + {id});
      } else {
        RemoveThenWithout(active[1..], id, gone);
      }
    }
  }

  lemma {:induction false} WithoutSame(active: seq<Call>, a: set<string>, b: set<string>)
    requires forall c | c in active :: c.id in a <==> c.id in b
    ensures Without(active, a) == Without(active, b)
  {
    if active != [] {
      assert active[0] in active;
      WithoutSame(active[1..], a, b);
    }
  }

  /** One result per open call, in order: every one of the calls is closed and nothing else is touched. */
  lemma {:induction false} ResultsClose(active: seq<Call>, uses: seq<Block>, results: seq<Block>)
    requires DistinctIds(active) && DistinctUses(uses) && Answers(results, uses)
    requires forall i | 0 <= i < |uses| :: Has(active, uses[i].id)
    ensures RunBlocks(active, results) == Ok(Without(active, UseIds(uses)))
    decreases |uses|
  {
    hide Remove, Without;
    if uses == [] {
      WithoutNothing(active);
    } else {
      var id := uses[0].id;
      RemoveFacts(active, id);
      forall i | 0 <= i < |uses[1..]| ensures Has(Remove(active, id), uses[1..][i].id) {
        var c :| c in active && c.id == uses[i + 1].id;
        assert c in Remove(active, id);
      }
      ResultsClose(Remove(active, id), uses[1..], results[1..]);
      RemoveThenWithout(active, id, UseIds(uses[1..]));
      assert UseIds(uses) == UseIds(uses[1..]) + {id};
    }
  }

  /** A result whose call is not open is refused, wherever it stands. */
  lemma {:induction false} ResultsNeedCalls(active: seq<Call>, uses: seq<Block>, results: seq<Block>)
    requires DistinctIds(active) && Answers(results, uses)
    requires exists i :: 0 <= i < |uses| && !Has(active, uses[i].id)
    ensures RunBlocks(active, results).Rejected?
    decreases |uses|
  {
    hide Remove;
    var i :| 0 <= i < |uses| && !Has(active, uses[i].id);
    if Has(active, uses[0].id) && uses[0].id != "" {
      RemoveFacts(active, uses[0].id);
      assert uses[1..][i - 1] == uses[i];
      assert !Has(Remove(active, uses[0].id), uses[1..][i - 1].id);
      ResultsNeedCalls(Remove(active, uses[0].id), uses[1..], results[1..]);
    }
  }

  // --------------------------------------------------------- server tools

  /** Some server call of these blocks has no search result among them. */
  predicate HasPendingServerTools(blocks: seq<Block>) {
    exists b :: b in blocks && b.ServerToolUse? && WebSearchResult(b.id) !in blocks
  }

  /** A server call never takes an id that was answered before. */
  ghost predicate FreshServerIds(blocks: seq<Block>) {
    forall i, j | 0 <= i < j < |blocks| && blocks[i].WebSearchResult? && blocks[j].ServerToolUse? :: blocks[i].callId != blocks[j].id
  }

  /** Every open server call is seen as pending in `blocks`. */
  ghost predicate PendingSeen(active: seq<Call>, blocks: seq<Block>) {
    forall c | c in active && c.server :: ServerToolUse(c.id) in blocks && WebSearchResult(c.id) !in blocks
  }

  /** Under fresh ids, what the automaton still holds open is what the block scan calls pending. */
  lemma {:induction false} OpenIsSeen(active: seq<Call>, before: seq<Block>, bs: seq<Block>)
    requires DistinctIds(active) && PendingSeen(active, before) && FreshServerIds(before + bs) && RunBlocks(active, bs).Ok?
    ensures PendingSeen(RunBlocks(active, bs).active, before + bs)
    decreases |bs|
  {
    if bs == [] {
      assert before + bs == before;
    } else {
      var b := bs[0];
      StepKeepsDistinct(active, b);
      StepIsSeen(active, before, b, bs);
      assert before + bs == (before + [b]) + bs[1..];
      OpenIsSeen(StepBlock(active, b).active, before + [b], bs[1..]);
    }
  }

  lemma StepIsSeen(active: seq<Call>, before: seq<Block>, b: Block, bs: seq<Block>)
    requires bs != [] && bs[0] == b && DistinctIds(active) && PendingSeen(active, before) && FreshServerIds(before + bs)
    requires StepBlock(active, b).Ok?
    ensures PendingSeen(StepBlock(active, b).active, before + [b])
  {
    assert (before + bs)[|before|] == b;
    if b.ServerToolUse? {
      forall i | 0 <= i < |before| ensures before[i] != WebSearchResult(b.id) {
        assert (before + bs)[i] == before[i];
      }
    }
    if b.ToolResult? || b.WebSearchResult? {
      RemoveFacts(active, b.callId);
    }
  }

  lemma BlocksPrefix(bs: seq<Block>, k: nat)
    requires k <= |bs| && RunBlocks([], bs).Ok?
    ensures RunBlocks([], bs[..k]).Ok?
    ensures k < |bs| ==> StepBlock(RunBlocks([], bs[..k]).active, bs[k]).Ok?
                         && RunBlocks([], bs[..k + 1]) == StepBlock(RunBlocks([], bs[..k]).active, bs[k])
  {
    hide StepBlock;
    assert bs == bs[..k] + bs[k..];
    BlocksAppend([], bs[..k], bs[k..]);
    if k < |bs| {
      BlocksSnoc(bs[..k], bs[k]);
      assert bs[..k + 1] == bs[..k] + [bs[k]];
      assert bs[k..][0] == bs[k];
    }
  }

  lemma BlocksSnoc(bs: seq<Block>, b: Block)
    requires RunBlocks([], bs).Ok?
    ensures RunBlocks([], bs + [b]) == StepBlock(RunBlocks([], bs).active, b)
  {
    hide StepBlock;
    BlocksAppend([], bs, [b]);
    assert [b][1..] == [];
  }

  /** At every point of the blocks, each open server call is without a search result up to there. */
  ghost predicate SeenThroughout(bs: seq<Block>) {
    forall k | 0 <= k <= |bs| :: RunBlocks([], bs[..k]).Ok? ==> PendingSeen(RunBlocks([], bs[..k]).active, bs[..k])
  }

  /** The scan sees every open server call, at every point, exactly when no server call takes an id answered before. */
  lemma FreshMeansSeen(bs: seq<Block>)
    requires RunBlocks([], bs).Ok?
    ensures FreshServerIds(bs) <==> SeenThroughout(bs)
  {
    hide RunBlocks, StepBlock;
    if FreshServerIds(bs) {
      forall k | 0 <= k <= |bs| ensures RunBlocks([], bs[..k]).Ok? && PendingSeen(RunBlocks([], bs[..k]).active, bs[..k]) {
        BlocksPrefix(bs, k);
        assert [] + bs[..k] == bs[..k];
        OpenIsSeen([], [], bs[..k]);
      }
    }
    if SeenThroughout(bs) {
      forall i, j | 0 <= i < j < |bs| && bs[i].WebSearchResult? && bs[j].ServerToolUse? ensures bs[i].callId != bs[j].id {
        BlocksPrefix(bs, j);
        BlocksPrefix(bs, j + 1);
        Opened(RunBlocks([], bs[..j]).active, bs[j]);
        assert bs[..j + 1][i] == bs[i];
      }
    }
  }

  lemma Opened(active: seq<Call>, b: Block)
    requires b.ServerToolUse? && StepBlock(active, b).Ok?
    ensures Call(b.id, true) in StepBlock(active, b).active
  {
  }

  /** A server call that a client result answered, and no search result ever. */
  ghost predicate AnsweredByClient(bs: seq<Block>, id: string) {
    && WebSearchResult(id) !in bs
    && exists i, j :: 0 <= i < j < |bs| && bs[i] == ServerToolUse(id) && bs[j].ToolResult? && bs[j].callId == id
  }

  /** An open server call without any search result for its id. */
  ghost predicate OpenUnanswered(active: seq<Call>, bs: seq<Block>, id: string) {
    Call(id, true) in active && WebSearchResult(id) !in bs
  }

  /**
   What the scan reports: a server call is open and its id was never answered by
   a search result, or a client result answered it in the place of one.
   */
  lemma PendingMeans(bs: seq<Block>)
    requires RunBlocks([], bs).Ok?
    ensures HasPendingServerTools(bs)
        <==> exists id :: OpenUnanswered(RunBlocks([], bs).active, bs, id) || AnsweredByClient(bs, id)
  {
    hide RunBlocks;
    OpenComesFrom(bs);
    forall b | b in bs && b.ServerToolUse? && WebSearchResult(b.id) !in bs
      ensures OpenUnanswered(RunBlocks([], bs).active, bs, b.id) || AnsweredByClient(bs, b.id)
    {
      StaysOpen(bs, b.id);
    }
    forall id | AnsweredByClient(bs, id) ensures ServerToolUse(id) in bs {
    }
  }

  /** When an open server call is missed: search results carry the ids of all open ones, and no client result took the place of one. */
  lemma ScanMisses(bs: seq<Block>)
    requires RunBlocks([], bs).Ok? && HasServer(RunBlocks([], bs).active)
    ensures !HasPendingServerTools(bs)
        <==> (forall c | c in RunBlocks([], bs).active && c.server :: WebSearchResult(c.id) in bs) && (forall id :: !AnsweredByClient(bs, id))
  {
    hide RunBlocks, HasPendingServerTools, AnsweredByClient;
    PendingMeans(bs);
    var active := RunBlocks([], bs).active;
    if forall id :: !OpenUnanswered(active, bs, id) {
      forall c | c in active && c.server ensures WebSearchResult(c.id) in bs {
        assert c == Call(c.id, true);
        assert !OpenUnanswered(active, bs, c.id);
      }
    }
  }

  lemma {:induction false} OpenComesFrom(bs: seq<Block>)
    requires RunBlocks([], bs).Ok?
    ensures DistinctIds(RunBlocks([], bs).active)
    ensures forall c | c in RunBlocks([], bs).active && c.server :: ServerToolUse(c.id) in bs
  {
    hide RunBlocks;
    if bs == [] {
      NothingOpened();
    } else {
      var init, b := bs[..|bs| - 1], bs[|bs| - 1];
      BlocksPrefix(bs, |bs| - 1);
      assert bs[..|bs|] == bs;
      OpenComesFrom(init);
      StepKeepsDistinct(RunBlocks([], init).active, b);
      StepAdds(RunBlocks([], init).active, b);
    }
  }

  lemma NothingOpened()
    ensures RunBlocks([], []) == Ok([])
  {
  }

  lemma StepAdds(active: seq<Call>, b: Block)
    requires DistinctIds(active) && StepBlock(active, b).Ok?
    ensures forall c | c in StepBlock(active, b).active && c.server :: c in active || b == ServerToolUse(c.id)
    ensures forall c | c in active && c !in StepBlock(active, b).active :: (b.ToolResult? || b.WebSearchResult?) && b.callId == c.id
  {
    hide Remove;
    if b.ToolResult? || b.WebSearchResult? {
      RemoveFacts(active, b.callId);
    }
  }

  /** Only a result closes a server call. */
  lemma {:induction false} StaysOpen(bs: seq<Block>, id: string)
    requires RunBlocks([], bs).Ok? && ServerToolUse(id) in bs && WebSearchResult(id) !in bs
    ensures Call(id, true) in RunBlocks([], bs).active || AnsweredByClient(bs, id)
  {
    hide RunBlocks, StepBlock;
    var n := |bs| - 1;
    var init, b := bs[..n], bs[n];
    BlocksPrefix(bs, n);
    assert bs[..n + 1] == bs;
    if ServerToolUse(id) in init {
      StaysOpen(init, id);
      OpenComesFrom(init);
      StepAdds(RunBlocks([], init).active, b);
      if AnsweredByClient(init, id) {
        var i, j :| 0 <= i < j < n && init[i] == ServerToolUse(id) && init[j].ToolResult? && init[j].callId == id;
        assert bs[i] == init[i] && bs[j] == init[j];
      } else if Call(id, true) !in RunBlocks([], bs).active {
        var i :| 0 <= i < n && init[i] == ServerToolUse(id);
        assert bs[i] == init[i] && b != WebSearchResult(id);
      }
    } else {
      Opened(RunBlocks([], init).active, b);
    }
  }

  /** Without fresh ids the scan can miss an open server call. */
  lemma ReusedServerIdIsMissed()
    ensures var blocks := [ServerToolUse("s"), WebSearchResult("s"), ServerToolUse("s")];
            RunBlocks([], blocks) == Ok([Call("s", true)]) && !HasPendingServerTools(blocks)
  {
    var blocks := [ServerToolUse("s"), WebSearchResult("s"), ServerToolUse("s")];
    var open := [Call("s", true)];
    assert [] + open == open;
    assert open[0] in open && Has(open, "s");
    assert Remove(open, "s") == [];
    assert blocks[1..] == [WebSearchResult("s"), ServerToolUse("s")] && blocks[1..][1..] == [ServerToolUse("s")];
    assert [ServerToolUse("s")][1..] == [];
    assert RunBlocks([], [ServerToolUse("s")]) == Ok(open);
    assert RunBlocks(open, blocks[1..]) == Ok(open);
  }

  // ------------------------------------------------------------- recovery

  const RECOVERY_HEADING: string := "[Harness recovery guidance]\n"

  /** Recovery guidance goes beside the results, or inside the first one while a server call is pending. */
  function ToolResultsWithRecovery(results: seq<Block>, response: seq<Block>, recovery: string): seq<Block>
    requires forall r | r in results :: r.ToolResult?
  {
    if !HasPendingServerTools(response) then results + [Text(recovery)]
    else if results == [] then []
    else [results[0].(parts := results[0].parts + [RECOVERY_HEADING + recovery])] + results[1..]
  }

  /** Guidance never disturbs the pairing, and is a sibling block only when no server call is pending. */
  lemma RecoveryKeepsAnswers(results: seq<Block>, uses: seq<Block>, response: seq<Block>, recovery: string)
    requires Answers(results, uses)
    ensures forall r | r in results :: r.ToolResult?
    ensures var guided := ToolResultsWithRecovery(results, response, recovery);
            if HasPendingServerTools(response) then Answers(guided, uses)
            else guided == results + [Text(recovery)]
  {
  }

  // ------------------------------------------------------------- salvage

  /** What one block of a failed stream leaves in history: itself, cleaned, or nothing. */
  function SalvageOne(b: Block): seq<Block> {
    match b
    case Text(text) => if text != "" then [b] else []
    case Thinking(text, signature) => if signature != "" || text != "" then [b] else []
    case ToolUse(id, name, input) =>
      if Trim(id) != "" && Trim(name) != "" && input.Object? then [ToolUse(Trim(id), Trim(name), input)] else []
    case _ => []
  }

  function Salvage(blocks: seq<Block>): seq<Block> {
    if blocks == [] then [] else Salvage(blocks[..|blocks| - 1]) + SalvageOne(blocks[|blocks| - 1])
  }

  method SalvageAssistantBlocks(blocks: seq<Block>) returns (salvaged: seq<Block>)
    ensures salvaged == Salvage(blocks)
  {
    salvaged := [];
    for i := 0 to |blocks|
      invariant salvaged == Salvage(blocks[..i])
    {
      var block := blocks[i];
      assert blocks[..i + 1][..i] == blocks[..i];
      if block.Text? {
        if block.text != "" {
          salvaged := salvaged + [block];
        }
        continue;
      }
      if block.Thinking? {
        if block.signature != "" || block.text != "" {
          salvaged := salvaged + [block];
        }
        continue;
      }
      if !block.ToolUse? {
        continue;
      }
      var id, name := Trim(block.id), Trim(block.name);
      if id == "" || name == "" || !block.input.Object? {
        continue;
      }
      salvaged := salvaged + [ToolUse(id, name, block.input)];
    }
    assert blocks[..|blocks|] == blocks;
  }

  /** What a salvaged response can consist of. */
  ghost predicate Salvaged(b: Block) {
    (b.Text? && b.text != "") || (b.Thinking? && (b.signature != "" || b.text != ""))
    || (b.ToolUse? && WellFormedUse(b) && Trim(b.id) == b.id && Trim(b.name) == b.name)
  }

  lemma {:induction false} SalvageKind(blocks: seq<Block>)
    ensures forall b | b in Salvage(blocks) :: Salvaged(b)
  {
    hide Trim;
    if blocks != [] {
      SalvageKind(blocks[..|blocks| - 1]);
      var last := blocks[|blocks| - 1];
      if last.ToolUse? {
        TrimTwice(last.id);
        TrimTwice(last.name);
      }
    }
  }

  lemma {:induction false} SalvageSplits(a: seq<Block>, b: seq<Block>)
    ensures Salvage(a + b) == Salvage(a) + Salvage(b)
  {
    hide SalvageOne;
    if b == [] {
      assert a + b == a;
    } else {
      assert (a + b)[..|a + b| - 1] == a + b[..|b| - 1];
      SalvageSplits(a, b[..|b| - 1]);
    }
  }

  /**
   Every block is salvaged by itself, in its place: text and thinking stay
   unless they are empty, a well-formed call stays with its names trimmed, and
   no other block stays or keeps another one out.
   */
  lemma EachBlockIsSalvaged(a: seq<Block>, x: Block, b: seq<Block>)
    ensures Salvage(a + [x] + b) == Salvage(a) + Salvage([x]) + Salvage(b)
    ensures Salvage([x]) ==
            if x.Text? && x.text != "" then [x]
            else if x.Thinking? && (x.text != "" || x.signature != "") then [x]
            else if x.ToolUse? && WellFormedUse(x) then [ToolUse(Trim(x.id), Trim(x.name), x.input)]
            else []
  {
    hide Trim;
    SalvageSplits(a + [x], b);
    SalvageSplits(a, [x]);
    assert [x][..0] == [];
  }

  /** Salvaging keeps exactly the blocks that need no salvage, and so is idempotent. */
  lemma {:induction false} SalvageIsIdempotent(blocks: seq<Block>)
    ensures Salvage(Salvage(blocks)) == Salvage(blocks)
  {
    SalvageKind(blocks);
    SalvageFixes(Salvage(blocks));
  }

  lemma {:induction false} SalvageFixes(blocks: seq<Block>)
    requires forall b | b in blocks :: Salvaged(b)
    ensures Salvage(blocks) == blocks
  {
    hide Salvaged, SalvageOne;
    if blocks != [] {
      var init, last := blocks[..|blocks| - 1], blocks[|blocks| - 1];
      SalvageFixes(init);
      SalvageOneFixes(last);
      assert blocks == init + [last];
    }
  }

  lemma SalvageOneFixes(b: Block)
    requires Salvaged(b)
    ensures SalvageOne(b) == [b]
  {
    hide Trim;
  }

  // -------------------------------------------- running the tools of a turn

  predicate IsUi(u: Block)
    requires u.ToolUse?
  {
    u.name == "browser" || u.name == "desktop"
  }

  function CallsOf(uses: seq<Block>): (calls: seq<ToolCall>)
    requires forall u | u in uses :: u.ToolUse?
    ensures |calls| == |uses|
    ensures forall i | 0 <= i < |uses| ::
              calls[i] == ToolCall(uses[i].name, if uses[i].input.Object? then uses[i].input.key else None)
  {
    if uses == [] then [] else [ToolCall(uses[0].name, if uses[0].input.Object? then uses[0].input.key else None)] + CallsOf(uses[1..])
  }

  // ---------------------------------------------------------- carrying out a call

  /** Where carrying out a call can raise: before the tool acts, while it acts, or after. */
  datatype Stage = Approving | Admitting | Acting | Releasing

  datatype Attempt = Completed(isError: bool, content: seq<string>) | Raised(stage: Stage, message: string)

  /** What a browser or desktop session raises while it acts becomes an ordinary error result; the rest escapes. */
  predicate Escapes(use: Block, a: Attempt)
    requires use.ToolUse?
  {
    a.Raised? && !(IsUi(use) && a.stage.Acting?)
  }

  function Outcome(use: Block, a: Attempt): (r: Block)
    requires use.ToolUse?
    ensures r.ToolResult? && r.callId == use.id && (r.isError <==> a.Raised? || a.isError)
    ensures a.Completed? ==> r.parts == a.content
    ensures a.Raised? ==> r.parts == [if Escapes(use, a) then a.message else "error: " + a.message]
  {
    match a
    case Completed(isError, content) => ToolResult(use.id, isError, content)
    case Raised(_, message) => ToolResult(use.id, true, [if Escapes(use, a) then message else "error: " + message])
  }

  /** Why a call was answered without being carried out; the wording is not modelled. */
  datatype Notice = UiHalted | DuplicateAction | Interrupted | SteeringArrived | StreamEnded | OutcomeUnknown

  function NoticeText(n: Notice): string {
    match n
    case UiHalted => "error: not run"
    case DuplicateAction => "error: duplicate action"
    case Interrupted => "(interrupted)"
    case SteeringArrived => "(not executed)"
    case StreamEnded => "(stream ended)"
    case OutcomeUnknown => "error: outcome unknown"
  }

  function Failed(u: Block, message: string): (r: Block)
    requires u.ToolUse?
    ensures r.ToolResult? && r.callId == u.id && r.isError
  {
    ToolResult(u.id, true, [message])
  }

  // ---------------------------------------------------------- what a turn establishes

  /** Result `j` is an error that a browser or desktop call returned, not one that escaped from it. */
  ghost predicate Halts(uses: seq<Block>, outcomes: seq<Block>, tries: seq<Option<Attempt>>, j: nat)
    requires j < |outcomes| == |tries| <= |uses|
    requires forall k | 0 <= k < |uses| :: uses[k].ToolUse?
  {
    && IsUi(uses[j]) && outcomes[j].ToolResult? && outcomes[j].isError
    && !(tries[j].Some? && Escapes(uses[j], tries[j].value))
  }

  /** One of the first `n` results halts the browser and desktop calls after it. */
  ghost predicate UiFailed(uses: seq<Block>, outcomes: seq<Block>, tries: seq<Option<Attempt>>, n: nat)
    requires n <= |outcomes| == |tries| <= |uses|
    requires forall k | 0 <= k < |uses| :: uses[k].ToolUse?
  {
    exists j :: 0 <= j < n && Halts(uses, outcomes, tries, j)
  }

  /** How one call is answered, by the first rule that applies; `attempt` is there when it was carried out. */
  ghost predicate Answered(use: Block, inputError: Option<string>, e: Entry, uiHalted: bool, original: Option<Block>,
                           outcome: Block, attempt: Option<Attempt>)
    requires use.ToolUse?
  {
    if IsUi(use) && uiHalted then attempt.None? && outcome == Failed(use, NoticeText(UiHalted))
    else if inputError.Some? then attempt.None? && outcome == Failed(use, inputError.value)
    else if e.duplicateOf.None? then attempt.Some? && outcome == Outcome(use, attempt.value)
    else if e.reuseResult then
      attempt.None? && original.Some? && original.value.ToolResult? && outcome == original.value.(callId := use.id)
    else attempt.None? && outcome == Failed(use, NoticeText(DuplicateAction))
  }

  /**
   What the run of a turn's tools established so far. `tries[i]` is what
   happened when call `i` was carried out; it is there exactly for those calls.
   */
  ghost predicate TurnOk(uses: seq<Block>, inputErrors: seq<Option<string>>, entries: seq<Entry>,
                         outcomes: seq<Block>, tries: seq<Option<Attempt>>)
  {
    && |entries| == |uses| == |inputErrors| && |outcomes| == |tries| <= |uses|
    && (forall i | 0 <= i < |uses| :: uses[i].ToolUse?)
    && (forall i | 0 <= i < |outcomes| :: OutcomeOk(uses, inputErrors, entries, outcomes, tries, i))
  }

  ghost predicate OutcomeOk(uses: seq<Block>, inputErrors: seq<Option<string>>, entries: seq<Entry>,
                            outcomes: seq<Block>, tries: seq<Option<Attempt>>, i: nat)
    requires i < |outcomes| == |tries| <= |uses| == |entries| == |inputErrors|
    requires forall k | 0 <= k < |uses| :: uses[k].ToolUse?
  {
    && (entries[i].duplicateOf.Some? ==> entries[i].duplicateOf.value < i)
    && Answered(uses[i], inputErrors[i], entries[i], UiFailed(uses, outcomes, tries, i),
                if entries[i].duplicateOf.Some? then Some(outcomes[entries[i].duplicateOf.value]) else None,
                outcomes[i], tries[i])
  }

  /**
   What happens to a turn from outside: what carrying out each call gives, the
   wave before which the run of the tools is stopped, if any, whether the user
   interrupts or steers, and the guidance the loop tracker offers.
   */
  datatype Outside = Outside(
    attempts: seq<Attempt>, stop: Option<nat>, interrupted: bool, steered: bool, recovery: Option<string>)

  /** How many of the waves are run. */
  function Reached(waves: seq<seq<Entry>>, stop: Option<nat>): (n: nat)
    ensures n <= |waves|
  {
    if stop.Some? && stop.value < |waves| then stop.value else |waves|
  }

  /** The results of a turn: those of the waves that were run, and a notice for every later call. */
  ghost predicate ToolsRan(uses: seq<Block>, inputErrors: seq<Option<string>>, o: Outside, waves: seq<seq<Entry>>,
                           results: seq<Block>, answered: nat, tries: seq<Option<Attempt>>)
  {
    && Answers(results, uses) && answered <= |uses| <= |o.attempts|
    && ScheduleOk(CallsOf(uses), waves) && answered == |Flat(waves[..Reached(waves, o.stop)])|
    && TurnOk(uses, inputErrors, Flat(waves), results[..answered], tries)
    && (forall i | 0 <= i < answered && tries[i].Some? :: tries[i].value == o.attempts[i])
    && (forall i | answered <= i < |uses| :: results[i] == Failed(uses[i], NoticeText(if o.interrupted then Interrupted else SteeringArrived)))
  }

  // ---------------------------------------------------------- the rule for browser and desktop calls

  /** A valid call that repeats no earlier one: it runs unless it is halted. */
  predicate Runnable(inputError: Option<string>, e: Entry) {
    inputError.None? && e.duplicateOf.None?
  }

  /** An earlier browser or desktop call of the turn has an error result, however it came about. */
  ghost predicate UiErrorBefore(uses: seq<Block>, outcomes: seq<Block>, n: nat)
    requires n <= |outcomes| <= |uses|
    requires forall k | 0 <= k < |uses| :: uses[k].ToolUse?
  {
    exists j :: 0 <= j < n && IsUi(uses[j]) && outcomes[j].ToolResult? && outcomes[j].isError
  }

  /**
   A runnable browser or desktop call runs exactly when no earlier one returned
   an error. That is the promised rule (no earlier one failed at all) exactly
   when some earlier one returned an error or none failed.
   */
  lemma UiRule(uses: seq<Block>, inputErrors: seq<Option<string>>, entries: seq<Entry>, outcomes: seq<Block>,
               tries: seq<Option<Attempt>>, i: nat)
    requires TurnOk(uses, inputErrors, entries, outcomes, tries) && i < |outcomes|
    requires IsUi(uses[i]) && Runnable(inputErrors[i], entries[i])
    ensures tries[i].Some? <==> !UiFailed(uses, outcomes, tries, i)
    ensures tries[i].None? ==> outcomes[i] == Failed(uses[i], NoticeText(UiHalted))
    ensures (tries[i].Some? <==> !UiErrorBefore(uses, outcomes, i))
        <==> UiFailed(uses, outcomes, tries, i) || !UiErrorBefore(uses, outcomes, i)
  {
    assert OutcomeOk(uses, inputErrors, entries, outcomes, tries, i);
    if UiFailed(uses, outcomes, tries, i) {
      var j :| 0 <= j < i && Halts(uses, outcomes, tries, j);
      assert IsUi(uses[j]) && outcomes[j].ToolResult? && outcomes[j].isError;
    }
  }

  /** An action that raises while it acts stops every later one; one that raises elsewhere stops none. */
  lemma RaisedActionHalts(uses: seq<Block>, inputErrors: seq<Option<string>>, entries: seq<Entry>, outcomes: seq<Block>,
                          tries: seq<Option<Attempt>>, j: nat, i: nat)
    requires TurnOk(uses, inputErrors, entries, outcomes, tries) && j < i < |outcomes|
    requires IsUi(uses[j]) && tries[j].Some? && tries[j].value.Raised?
    ensures Halts(uses, outcomes, tries, j) <==> tries[j].value.stage.Acting?
    ensures tries[j].value.stage.Acting? && IsUi(uses[i]) ==> tries[i].None? && outcomes[i] == Failed(uses[i], NoticeText(UiHalted))
  {
    assert OutcomeOk(uses, inputErrors, entries, outcomes, tries, j);
    assert OutcomeOk(uses, inputErrors, entries, outcomes, tries, i);
  }

  /** Two browser calls: raising at the approval of the first leaves the second to run. */
  lemma EscapedFailureDoesNotHalt(first: Block, second: Block, message: string, done: Attempt)
    requires first.ToolUse? && second.ToolUse? && IsUi(first) && IsUi(second)
    ensures var attempt := Raised(Approving, message);
            var outcomes := [Outcome(first, attempt), Outcome(second, done)];
            && outcomes[0].isError
            && TurnOk([first, second], [None, None], [Entry(0, None, false), Entry(1, None, false)],
                      outcomes, [Some(attempt), Some(done)])
  {
    var uses, inputErrors := [first, second], [None, None];
    var entries := [Entry(0, None, false), Entry(1, None, false)];
    var attempt := Raised(Approving, message);
    var outcomes, tries := [Outcome(first, attempt), Outcome(second, done)], [Some(attempt), Some(done)];
    assert !Halts(uses, outcomes, tries, 0);
    assert !UiFailed(uses, outcomes, tries, 0) && !UiFailed(uses, outcomes, tries, 1);
    assert OutcomeOk(uses, inputErrors, entries, outcomes, tries, 0);
    assert OutcomeOk(uses, inputErrors, entries, outcomes, tries, 1);
  }

  // ---------------------------------------------------------- the tool loop

  /** One more result leaves what was established about the others as it was. */
  lemma SameUiFailed(uses: seq<Block>, outcomes: seq<Block>, tries: seq<Option<Attempt>>, outcome: Block,
                     attempt: Option<Attempt>, n: nat)
    requires n <= |outcomes| == |tries| < |uses| && forall k | 0 <= k < |uses| :: uses[k].ToolUse?
    ensures UiFailed(uses, outcomes + [outcome], tries + [attempt], n) <==> UiFailed(uses, outcomes, tries, n)
  {
    forall j | 0 <= j < n
      ensures Halts(uses, outcomes + [outcome], tries + [attempt], j) <==> Halts(uses, outcomes, tries, j)
    {
      assert (outcomes + [outcome])[j] == outcomes[j] && (tries + [attempt])[j] == tries[j];
    }
  }

  lemma UiFailedNext(uses: seq<Block>, outcomes: seq<Block>, tries: seq<Option<Attempt>>, n: nat)
    requires n < |outcomes| == |tries| <= |uses| && forall k | 0 <= k < |uses| :: uses[k].ToolUse?
    ensures UiFailed(uses, outcomes, tries, n + 1)
        <==> UiFailed(uses, outcomes, tries, n) || Halts(uses, outcomes, tries, n)
  {
  }

  lemma OneMore(uses: seq<Block>, inputErrors: seq<Option<string>>, entries: seq<Entry>, outcomes: seq<Block>,
                tries: seq<Option<Attempt>>, outcome: Block, attempt: Option<Attempt>)
    requires TurnOk(uses, inputErrors, entries, outcomes, tries) && |outcomes| < |uses|
    requires OutcomeOk(uses, inputErrors, entries, outcomes + [outcome], tries + [attempt], |outcomes|)
    ensures TurnOk(uses, inputErrors, entries, outcomes + [outcome], tries + [attempt])
  {
    hide IsUi, UiFailed;
    forall k | 0 <= k < |outcomes|
      ensures OutcomeOk(uses, inputErrors, entries, outcomes + [outcome], tries + [attempt], k)
    {
      assert OutcomeOk(uses, inputErrors, entries, outcomes, tries, k);
      SameUiFailed(uses, outcomes, tries, outcome, attempt, k);
    }
  }

  /** One call of a wave: skipped, refused, copied, or carried out, which gives `a`. */
  method RunCall(use: Block, inputError: Option<string>, e: Entry, outcomes: seq<Block>, uiHalted: bool, a: Attempt)
    returns (outcome: Block, halted: bool, ghost attempt: Option<Attempt>)
    requires use.ToolUse? && (forall k | 0 <= k < |outcomes| :: outcomes[k].ToolResult?)
    requires e.duplicateOf.Some? ==> e.duplicateOf.value < |outcomes|
    ensures Answered(use, inputError, e, uiHalted,
                     if e.duplicateOf.Some? then Some(outcomes[e.duplicateOf.value]) else None, outcome, attempt)
    ensures halted <==> uiHalted || (IsUi(use) && outcome.isError && !(attempt.Some? && Escapes(use, attempt.value)))
    ensures attempt.Some? ==> attempt.value == a
    ensures outcome.ToolResult? && outcome.callId == use.id
  {
    hide NoticeText;
    var ui := use.name == "browser" || use.name == "desktop";
    attempt, halted := None, uiHalted;
    if ui && uiHalted {
      outcome := Failed(use, NoticeText(UiHalted));
      return;
    }
    if inputError.Some? {
      outcome := Failed(use, inputError.value);
    } else if e.duplicateOf.Some? {
      if !e.reuseResult {
        outcome := Failed(use, NoticeText(DuplicateAction));
      } else {
        outcome := outcomes[e.duplicateOf.value].(callId := use.id);
      }
    } else {
      outcome, attempt := Outcome(use, a), Some(a);
      if Escapes(use, a) {
        return;
      }
    }
    if ui && outcome.isError {
      halted := true;
    }
  }

  lemma AnsweredIsOk(uses: seq<Block>, inputErrors: seq<Option<string>>, entries: seq<Entry>, outcomes: seq<Block>,
                     tries: seq<Option<Attempt>>, outcome: Block, attempt: Option<Attempt>)
    requires TurnOk(uses, inputErrors, entries, outcomes, tries) && |outcomes| < |uses|
    requires var e := entries[|outcomes|];
             && (e.duplicateOf.Some? ==> e.duplicateOf.value < |outcomes|)
             && Answered(uses[|outcomes|], inputErrors[|outcomes|], e, UiFailed(uses, outcomes, tries, |outcomes|),
                         if e.duplicateOf.Some? then Some(outcomes[e.duplicateOf.value]) else None, outcome, attempt)
             && outcome.ToolResult?
    ensures var i := |outcomes|;
            && TurnOk(uses, inputErrors, entries, outcomes + [outcome], tries + [attempt])
            && (UiFailed(uses, outcomes + [outcome], tries + [attempt], i + 1)
                <==> UiFailed(uses, outcomes, tries, i)
                     || (IsUi(uses[i]) && outcome.isError && !(attempt.Some? && Escapes(uses[i], attempt.value))))
  {
    hide IsUi, UiFailed, Answered, Escapes;
    var i := |outcomes|;
    SameUiFailed(uses, outcomes, tries, outcome, attempt, i);
    UiFailedNext(uses, outcomes + [outcome], tries + [attempt], i);
    CopyOk(outcomes, outcome, entries[i]);
    assert OutcomeOk(uses, inputErrors, entries, outcomes + [outcome], tries + [attempt], i);
    OneMore(uses, inputErrors, entries, outcomes, tries, outcome, attempt);
  }

  lemma CopyOk(outcomes: seq<Block>, outcome: Block, e: Entry)
    ensures e.duplicateOf.Some? && e.duplicateOf.value < |outcomes| ==>
              (outcomes + [outcome])[e.duplicateOf.value] == outcomes[e.duplicateOf.value]
  {
  }

  /**
   The tool loop of one response: waves run until an interruption or a
   steering line stops them between two waves; every remaining call is answered
   as not executed. `answered` results are genuine, the others are notices.
   */
  method RunTools(uses: seq<Block>, inputErrors: seq<Option<string>>, o: Outside)
    returns (outcomes: seq<Block>, answered: nat, ghost waves: seq<seq<Entry>>, ghost tries: seq<Option<Attempt>>)
    requires |o.attempts| == |inputErrors| == |uses| && forall u | u in uses :: u.ToolUse?
    ensures ToolsRan(uses, inputErrors, o, waves, outcomes, answered, tries)
  {
    hide NoticeText, OutcomeOk, EntryOk, CallsOf, UiFailed, Flat, WaveOk, Packed, Answered, Escapes;
    var calls := CallsOf(uses);
    var schedule := ToolExecutionWaves(calls);
    waves := schedule;
    ghost var entries := Flat(waves);
    outcomes, tries := [], [];
    var uiHalted := false;
    NoUiYet(uses);
    FlatEnds(waves);
    var w := 0;
    while w < |schedule| && o.stop != Some(w)
      invariant w <= Reached(waves, o.stop) && |outcomes| == |Flat(waves[..w])|
      invariant TurnOk(uses, inputErrors, entries, outcomes, tries) && Tried(o, tries)
      invariant uiHalted <==> UiFailed(uses, outcomes, tries, |outcomes|)
      decreases |schedule| - w
    {
      for k := 0 to |schedule[w]|
        invariant |outcomes| == |Flat(waves[..w])| + k
        invariant TurnOk(uses, inputErrors, entries, outcomes, tries) && Tried(o, tries)
        invariant uiHalted <==> UiFailed(uses, outcomes, tries, |outcomes|)
      {
        FlatPosition(waves, w, k);
        var entry := schedule[w][k];
        OriginalIsEarlier(calls, entry);
        ResultsSoFar(uses, inputErrors, entries, outcomes, tries);
        ghost var attempt: Option<Attempt>;
        var outcome, halted;
        outcome, halted, attempt := RunCall(uses[entry.index], inputErrors[entry.index], entry, outcomes, uiHalted, o.attempts[entry.index]);
        AnsweredIsOk(uses, inputErrors, entries, outcomes, tries, outcome, attempt);
        outcomes, tries := outcomes + [outcome], tries + [attempt];
        uiHalted := halted;
      }
      FlatNext(waves, w);
      w := w + 1;
    }
    answered := |outcomes|;
    ResultsSoFar(uses, inputErrors, entries, outcomes, tries);
    outcomes := AnswerRest(uses, outcomes, o.interrupted);
  }

  /** Every attempt so far gave what was to come of it. */
  ghost predicate Tried(o: Outside, tries: seq<Option<Attempt>>) {
    |tries| <= |o.attempts| && forall i | 0 <= i < |tries| && tries[i].Some? :: tries[i].value == o.attempts[i]
  }

  /** Pair the calls that were not reached. */
  method AnswerRest(uses: seq<Block>, answered: seq<Block>, interrupted: bool) returns (outcomes: seq<Block>)
    requires |answered| <= |uses| && forall u | u in uses :: u.ToolUse?
    requires forall i | 0 <= i < |answered| :: answered[i].ToolResult? && answered[i].callId == uses[i].id
    ensures Answers(outcomes, uses) && outcomes[..|answered|] == answered
    ensures forall i | |answered| <= i < |uses| ::
              outcomes[i] == Failed(uses[i], NoticeText(if interrupted then Interrupted else SteeringArrived))
  {
    hide NoticeText;
    outcomes := answered;
    while |outcomes| < |uses|
      invariant |answered| <= |outcomes| <= |uses| && outcomes[..|answered|] == answered
      invariant forall i | 0 <= i < |outcomes| :: outcomes[i].ToolResult? && outcomes[i].callId == uses[i].id
      invariant forall i | |answered| <= i < |outcomes| ::
                  outcomes[i] == Failed(uses[i], NoticeText(if interrupted then Interrupted else SteeringArrived))
      decreases |uses| - |outcomes|
    {
      outcomes := outcomes + [Failed(uses[|outcomes|], NoticeText(if interrupted then Interrupted else SteeringArrived))];
    }
  }

  lemma FlatNext(waves: seq<seq<Entry>>, w: nat)
    requires w < |waves|
    ensures |Flat(waves[..w + 1])| == |Flat(waves[..w])| + |waves[w]|
  {
    assert waves[..w + 1][..w] == waves[..w];
  }

  lemma FlatEnds(waves: seq<seq<Entry>>)
    ensures waves[..0] == [] && Flat([]) == []
  {
  }

  lemma NoUiYet(uses: seq<Block>)
    requires forall u | u in uses :: u.ToolUse?
    ensures !UiFailed(uses, [], [], 0)
  {
  }

  lemma OriginalIsEarlier(calls: seq<ToolCall>, e: Entry)
    requires EntryOk(calls, e)
    ensures e.duplicateOf.Some? ==> e.duplicateOf.value < e.index
  {
  }

  lemma ResultsSoFar(uses: seq<Block>, inputErrors: seq<Option<string>>, entries: seq<Entry>, outcomes: seq<Block>,
                     tries: seq<Option<Attempt>>)
    requires TurnOk(uses, inputErrors, entries, outcomes, tries)
    ensures forall i | 0 <= i < |outcomes| :: outcomes[i].ToolResult? && outcomes[i].callId == uses[i].id
  {
    forall i | 0 <= i < |outcomes| ensures outcomes[i].ToolResult? && outcomes[i].callId == uses[i].id {
      assert OutcomeOk(uses, inputErrors, entries, outcomes, tries, i);
    }
  }
}
