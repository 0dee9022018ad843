/**
 Batch ordering of the tool calls of one response: runs of reads go in waves
 of at most four, every other call is a barrier of its own, and a call that
 repeats an earlier one is tied to it instead of being run again.
 */
module ToolWaves {
  import opened Wrappers

  const TOOL_CONCURRENCY := 4

  const READ_TOOLS := {"read_file", "read_files", "grep", "glob", "fetch"}

  /** A call and its key: a digest of its canonical name and input, None when the input is not representable. */
  datatype ToolCall = ToolCall(name: string, key: Option<string>)

  datatype Entry = Entry(index: nat, duplicateOf: Option<nat>, reuseResult: bool)

  predicate IsRead(c: ToolCall) {
    c.name in READ_TOOLS
  }

  // ------------------------------------------------------- specification

  /** Read `i` asks again what read `j` asked, with no action in between. */
  ghost predicate RepeatsRead(calls: seq<ToolCall>, i: nat, j: nat) {
    && j < i < |calls| && calls[i].key.Some? && calls[j].key == calls[i].key
    && forall k | j <= k <= i :: IsRead(calls[k])
  }

  /** Action `i` ends an unbroken run of one and the same action that `j` belongs to. */
  ghost predicate RepeatsAction(calls: seq<ToolCall>, i: nat, j: nat) {
    && j < i < |calls| && calls[i].key.Some?
    && forall k | j <= k <= i :: !IsRead(calls[k]) && calls[k].key == calls[i].key
  }

  ghost predicate Repeats(calls: seq<ToolCall>, i: nat, j: nat) {
    RepeatsRead(calls, i, j) || RepeatsAction(calls, i, j)
  }

  /** A repeat is tied to the original, which itself repeats nothing; only a read's result is reused. */
  ghost predicate EntryOk(calls: seq<ToolCall>, e: Entry) {
    && e.index < |calls|
    && (e.duplicateOf.None? <==> forall j: nat :: !Repeats(calls, e.index, j))
    && (e.duplicateOf.Some? ==>
          && Repeats(calls, e.index, e.duplicateOf.value)
          && forall j: nat :: !Repeats(calls, e.duplicateOf.value, j))
    && (e.reuseResult <==> e.duplicateOf.Some? && IsRead(calls[e.index]))
  }

  function Flat(waves: seq<seq<Entry>>): seq<Entry> {
    if waves == [] then [] else Flat(waves[..|waves| - 1]) + waves[|waves| - 1]
  }

  ghost predicate InOrder(calls: seq<ToolCall>, entries: seq<Entry>) {
    forall i | 0 <= i < |entries| :: entries[i].index == i && EntryOk(calls, entries[i])
  }

  ghost predicate Reads(calls: seq<ToolCall>, wave: seq<Entry>) {
    && 1 <= |wave| <= TOOL_CONCURRENCY
    && forall e | e in wave :: e.index < |calls| && IsRead(calls[e.index])
  }

  ghost predicate Action(calls: seq<ToolCall>, wave: seq<Entry>) {
    |wave| == 1 && wave[0].index < |calls| && !IsRead(calls[wave[0].index])
  }

  ghost predicate WaveOk(calls: seq<ToolCall>, wave: seq<Entry>) {
    Reads(calls, wave) || Action(calls, wave)
  }

  /** Reads are packed: a wave of reads that is not full is followed by an action. */
  ghost predicate Packed(calls: seq<ToolCall>, waves: seq<seq<Entry>>) {
    forall i | 0 <= i < |waves| - 1 ::
      Reads(calls, waves[i]) && Reads(calls, waves[i + 1]) ==> |waves[i]| == TOOL_CONCURRENCY
  }

  ghost predicate ScheduleOk(calls: seq<ToolCall>, waves: seq<seq<Entry>>) {
    && |Flat(waves)| == |calls| && InOrder(calls, Flat(waves))
    && (forall i | 0 <= i < |waves| :: WaveOk(calls, waves[i]))
    && Packed(calls, waves)
  }

  lemma OlderIsRepeated(calls: seq<ToolCall>, i: nat, j: nat, k: nat)
    requires Repeats(calls, i, j) && Repeats(calls, i, k)
    ensures j < k ==> Repeats(calls, k, j)
  {
  }

  /** The original of a repeat is unique. */
  lemma OriginalIsUnique(calls: seq<ToolCall>, i: nat, j: nat, k: nat)
    requires Repeats(calls, i, j) && Repeats(calls, i, k)
    requires (forall m: nat :: !Repeats(calls, j, m)) && (forall m: nat :: !Repeats(calls, k, m))
    ensures j == k
  {
    OlderIsRepeated(calls, i, j, k);
    OlderIsRepeated(calls, i, k, j);
  }

  lemma EntryIsUnique(calls: seq<ToolCall>, d: Entry, e: Entry)
    requires EntryOk(calls, d) && EntryOk(calls, e) && d.index == e.index
    ensures d == e
  {
    if d.duplicateOf.Some? && e.duplicateOf.Some? {
      OriginalIsUnique(calls, d.index, d.duplicateOf.value, e.duplicateOf.value);
    }
  }

  // ------------------------------------------------------------ schedule

  lemma FlatAppend(waves: seq<seq<Entry>>, wave: seq<Entry>)
    ensures Flat(waves + [wave]) == Flat(waves) + wave
  {
    assert (waves + [wave])[..|waves|] == waves;
  }

  /** The reads since the last barrier, by key: each key maps to the first read that has it. */
  ghost predicate FirstReads(calls: seq<ToolCall>, from: nat, to: nat, readKeys: map<string, nat>) {
    && (forall key | key in readKeys ::
          from <= readKeys[key] < to <= |calls| && calls[readKeys[key]].key == Some(key)
          && forall j | from <= j < readKeys[key] :: calls[j].key != Some(key))
    && (forall j | from <= j < to && j < |calls| && calls[j].key.Some? :: calls[j].key.value in readKeys)
  }

  /** Everything from `from` to `to` is a read, and what precedes is a barrier. */
  ghost predicate ReadSegment(calls: seq<ToolCall>, from: nat, to: nat) {
    && from <= to <= |calls| && (forall j | from <= j < to :: IsRead(calls[j]))
    && (from > 0 ==> !IsRead(calls[from - 1]))
  }

  /** The run of equal actions that ends right before `to`, if its key is known. */
  ghost predicate ActionRun(calls: seq<ToolCall>, to: nat, key: Option<string>, start: nat) {
    && to <= |calls|
    && key == (if to > 0 && !IsRead(calls[to - 1]) then calls[to - 1].key else None)
    && (key.Some? ==>
          && start < to && (forall k | start <= k < to :: !IsRead(calls[k]) && calls[k].key == key)
          && forall j: nat :: !Repeats(calls, start, j))
  }

  lemma ReadEntry(calls: seq<ToolCall>, i: nat, from: nat, readKeys: map<string, nat>)
    requires i < |calls| && IsRead(calls[i]) && ReadSegment(calls, from, i) && FirstReads(calls, from, i, readKeys)
    ensures var key := calls[i].key;
            var original := if key.Some? && key.value in readKeys then Some(readKeys[key.value]) else None;
            EntryOk(calls, Entry(i, original, original.Some?))
  {
    var key := calls[i].key;
    if key.Some? && key.value in readKeys {
      var original := readKeys[key.value];
      assert Repeats(calls, i, original);
      forall j: nat ensures !Repeats(calls, original, j) {
        StaysInSegment(calls, from, i, original, j);
      }
    } else {
      forall j: nat ensures !Repeats(calls, i, j) {
        StaysInSegment(calls, from, i, i, j);
      }
    }
  }

  /** A repeated read does not reach back over a barrier. */
  lemma StaysInSegment(calls: seq<ToolCall>, from: nat, to: nat, i: nat, j: nat)
    requires ReadSegment(calls, from, to) && from <= i <= to
    ensures RepeatsRead(calls, i, j) ==> from <= j
  {
  }

  lemma ActionEntry(calls: seq<ToolCall>, i: nat, key: Option<string>, start: nat)
    requires i < |calls| && !IsRead(calls[i]) && ActionRun(calls, i, key, start)
    ensures var original := if calls[i].key.Some? && calls[i].key == key then Some(start) else None;
            EntryOk(calls, Entry(i, original, false))
            && ActionRun(calls, i + 1, calls[i].key, if original.Some? then start else i)
  {
    if calls[i].key.Some? && calls[i].key == key {
      assert Repeats(calls, i, start);
    }
  }

  ghost predicate LastWaveClosed(calls: seq<ToolCall>, waves: seq<seq<Entry>>) {
    waves != [] && Reads(calls, waves[|waves| - 1]) ==> |waves[|waves| - 1]| == TOOL_CONCURRENCY
  }

  ghost predicate WavesOk(calls: seq<ToolCall>, waves: seq<seq<Entry>>) {
    (forall i | 0 <= i < |waves| :: WaveOk(calls, waves[i])) && Packed(calls, waves)
  }

  /** The pending reads have the numbers right before `to` and are reads of the current segment. */
  ghost predicate PendingOk(calls: seq<ToolCall>, waves: seq<seq<Entry>>, pendingReads: seq<Entry>, to: nat) {
    && to <= |calls| && |Flat(waves)| + |pendingReads| == to && InOrder(calls, Flat(waves) + pendingReads)
    && |pendingReads| <= TOOL_CONCURRENCY
    && (forall e | e in pendingReads :: e.index < |calls| && IsRead(calls[e.index]))
    && WavesOk(calls, waves) && LastWaveClosed(calls, waves)
  }

  lemma AppendWave(calls: seq<ToolCall>, waves: seq<seq<Entry>>, wave: seq<Entry>)
    requires WavesOk(calls, waves) && WaveOk(calls, wave) && (Action(calls, wave) || LastWaveClosed(calls, waves))
    ensures WavesOk(calls, waves + [wave])
  {
    var all := waves + [wave];
    forall i | 0 <= i < |all| - 1 && Reads(calls, all[i]) && Reads(calls, all[i + 1]) ensures |all[i]| == TOOL_CONCURRENCY {
      if i == |waves| - 1 {
        assert all[i + 1] == wave;
      } else {
        assert all[i] == waves[i] && all[i + 1] == waves[i + 1];
      }
    }
  }

  lemma FlushKeeps(calls: seq<ToolCall>, waves: seq<seq<Entry>>, pendingReads: seq<Entry>, to: nat)
    requires PendingOk(calls, waves, pendingReads, to)
    ensures var flushed := if pendingReads == [] then waves else waves + [pendingReads];
            && Flat(flushed) == Flat(waves) + pendingReads && WavesOk(calls, flushed)
            && (pendingReads == [] || |pendingReads| == TOOL_CONCURRENCY ==> LastWaveClosed(calls, flushed))
  {
    hide Flat, InOrder, EntryOk, WavesOk, Packed;
    if pendingReads == [] {
      assert Flat(waves) + [] == Flat(waves);
    } else {
      FlatAppend(waves, pendingReads);
      assert Reads(calls, pendingReads);
      AppendWave(calls, waves, pendingReads);
    }
  }

  lemma FullFlushKeeps(calls: seq<ToolCall>, waves: seq<seq<Entry>>, pendingReads: seq<Entry>, to: nat)
    requires PendingOk(calls, waves, pendingReads, to) && |pendingReads| == TOOL_CONCURRENCY
    ensures PendingOk(calls, waves + [pendingReads], [], to)
  {
    hide InOrder, WavesOk, LastWaveClosed;
    FlushKeeps(calls, waves, pendingReads, to);
    assert Flat(waves + [pendingReads]) + [] == Flat(waves) + pendingReads;
  }

  lemma ReadKeeps(calls: seq<ToolCall>, waves: seq<seq<Entry>>, pendingReads: seq<Entry>, index: nat, e: Entry)
    requires PendingOk(calls, waves, pendingReads, index) && |pendingReads| < TOOL_CONCURRENCY
    requires index < |calls| && IsRead(calls[index]) && e.index == index && EntryOk(calls, e)
    ensures PendingOk(calls, waves, pendingReads + [e], index + 1)
  {
    hide EntryOk, Flat, WavesOk, LastWaveClosed;
    assert Flat(waves) + (pendingReads + [e]) == (Flat(waves) + pendingReads) + [e];
  }

  lemma ActionKeeps(calls: seq<ToolCall>, waves: seq<seq<Entry>>, pendingReads: seq<Entry>, index: nat, e: Entry)
    requires PendingOk(calls, waves, pendingReads, index)
    requires index < |calls| && !IsRead(calls[index]) && e.index == index && EntryOk(calls, e)
    ensures var flushed := if pendingReads == [] then waves else waves + [pendingReads];
            PendingOk(calls, flushed + [[e]], [], index + 1)
  {
    hide EntryOk, Flat;
    FlushKeeps(calls, waves, pendingReads, index);
    var flushed := if pendingReads == [] then waves else waves + [pendingReads];
    FlatAppend(flushed, [e]);
    AppendWave(calls, flushed, [e]);
    assert Flat(flushed + [[e]]) + [] == (Flat(waves) + pendingReads) + [e];
  }

  lemma FirstReadsNext(calls: seq<ToolCall>, from: nat, index: nat, readKeys: map<string, nat>)
    requires FirstReads(calls, from, index, readKeys) && ReadSegment(calls, from, index) && index < |calls| && IsRead(calls[index])
    ensures var key := calls[index].key;
            FirstReads(calls, from, index + 1,
                       if key.Some? && key.value !in readKeys then readKeys[key.value := index] else readKeys)
    ensures ReadSegment(calls, from, index + 1)
  {
  }

  method FlushReads(waves: seq<seq<Entry>>, pendingReads: seq<Entry>) returns (flushed: seq<seq<Entry>>)
    ensures flushed == if pendingReads == [] then waves else waves + [pendingReads]
  {
    flushed := waves;
    if pendingReads != [] {
      flushed := waves + [pendingReads];
    }
  }

  /** The schedule covers the calls in order, in packed waves, and ties every repeat to its original. */
  method ToolExecutionWaves(calls: seq<ToolCall>) returns (waves: seq<seq<Entry>>)
    ensures ScheduleOk(calls, waves)
  {
    hide Flat, InOrder, WavesOk, LastWaveClosed, PendingOk, EntryOk, ReadSegment, FirstReads, ActionRun, Packed, WaveOk;
    waves := [];
    var pendingReads: seq<Entry> := [];
    var readKeys: map<string, nat> := map[];
    var previousActionKey: Option<string> := None;
    var previousActionIndex: nat := 0;
    ghost var segment: nat := 0;
    ScheduleStart(calls);
    for index := 0 to |calls|
      invariant PendingOk(calls, waves, pendingReads, index) && |pendingReads| < TOOL_CONCURRENCY
      invariant ReadSegment(calls, segment, index) && FirstReads(calls, segment, index, readKeys)
      invariant ActionRun(calls, index, previousActionKey, previousActionIndex)
    {
      var call := calls[index];
      var key := call.key;
      if IsRead(call) {
        ReadEntry(calls, index, segment, readKeys);
        FirstReadsNext(calls, segment, index, readKeys);
        NoActionRun(calls, index, previousActionIndex);
        previousActionKey := None;
        var duplicateOf := if key.Some? && key.value in readKeys then Some(readKeys[key.value]) else None;
        ReadKeeps(calls, waves, pendingReads, index, Entry(index, duplicateOf, duplicateOf.Some?));
        pendingReads := pendingReads + [Entry(index, duplicateOf, duplicateOf.Some?)];
        if key.Some? && duplicateOf.None? {
          readKeys := readKeys[key.value := index];
        }
        if |pendingReads| == TOOL_CONCURRENCY {
          FullFlushKeeps(calls, waves, pendingReads, index + 1);
          waves := FlushReads(waves, pendingReads);
          pendingReads := [];
        }
      } else {
        ActionEntry(calls, index, previousActionKey, previousActionIndex);
        var duplicateOf := if key.Some? && key == previousActionKey then Some(previousActionIndex) else None;
        ActionKeeps(calls, waves, pendingReads, index, Entry(index, duplicateOf, false));
        NewSegment(calls, index + 1);
        waves := FlushReads(waves, pendingReads);
        pendingReads := [];
        readKeys := map[];
        waves := waves + [[Entry(index, duplicateOf, false)]];
        previousActionKey := key;
        previousActionIndex := if duplicateOf.Some? then duplicateOf.value else index;
        segment := index + 1;
      }
    }
    ScheduleDone(calls, waves, pendingReads);
    waves := FlushReads(waves, pendingReads);
  }

  lemma ScheduleStart(calls: seq<ToolCall>)
    ensures PendingOk(calls, [], [], 0) && ActionRun(calls, 0, None, 0)
    ensures ReadSegment(calls, 0, 0) && FirstReads(calls, 0, 0, map[])
  {
  }

  lemma ScheduleDone(calls: seq<ToolCall>, waves: seq<seq<Entry>>, pendingReads: seq<Entry>)
    requires PendingOk(calls, waves, pendingReads, |calls|)
    ensures ScheduleOk(calls, if pendingReads == [] then waves else waves + [pendingReads])
  {
    FlushKeeps(calls, waves, pendingReads, |calls|);
  }

  lemma NewSegment(calls: seq<ToolCall>, at: nat)
    requires 0 < at <= |calls| && !IsRead(calls[at - 1])
    ensures ReadSegment(calls, at, at) && FirstReads(calls, at, at, map[])
  {
  }

  lemma NoActionRun(calls: seq<ToolCall>, i: nat, start: nat)
    requires i < |calls| && IsRead(calls[i])
    ensures ActionRun(calls, i + 1, None, start)
  {
  }

  // --------------------------------------------------------- consequences

  lemma FlatPosition(waves: seq<seq<Entry>>, w: nat, k: nat)
    requires w < |waves| && k < |waves[w]|
    ensures |Flat(waves[..w])| + k < |Flat(waves)| && Flat(waves)[|Flat(waves[..w])| + k] == waves[w][k]
  {
    if w == |waves| - 1 {
      assert waves[..w] == waves[..|waves| - 1];
    } else {
      FlatPosition(waves[..|waves| - 1], w, k);
      assert waves[..|waves| - 1][..w] == waves[..w];
    }
  }

  lemma FlatMonotone(waves: seq<seq<Entry>>, v: nat, w: nat)
    requires v < w <= |waves|
    ensures |Flat(waves[..v])| + |waves[v]| <= |Flat(waves[..w])|
    decreases w
  {
    assert waves[..w][..w - 1] == waves[..w - 1];
    if v < w - 1 {
      FlatMonotone(waves, v, w - 1);
    }
  }

  /** Nothing overtakes: calls in an earlier wave come earlier in the response. */
  lemma WavesKeepOrder(calls: seq<ToolCall>, waves: seq<seq<Entry>>, v: nat, i: nat, w: nat, k: nat)
    requires ScheduleOk(calls, waves) && v < w < |waves| && i < |waves[v]| && k < |waves[w]|
    ensures waves[v][i].index < waves[w][k].index
  {
    FlatPosition(waves, v, i);
    FlatPosition(waves, w, k);
    FlatMonotone(waves, v, w);
  }

  /**
   Reusing a result never waits on itself or in a circle: it waits for an
   earlier entry that does not wait, started in the same or an earlier wave.
   */
  lemma ReuseIsAcyclic(calls: seq<ToolCall>, waves: seq<seq<Entry>>, w: nat, k: nat)
    requires ScheduleOk(calls, waves) && w < |waves| && k < |waves[w]| && waves[w][k].duplicateOf.Some?
    ensures waves[w][k].duplicateOf.value < waves[w][k].index
    ensures Flat(waves)[waves[w][k].duplicateOf.value].duplicateOf.None?
    ensures forall v, i | w < v < |waves| && 0 <= i < |waves[v]| :: waves[v][i].index != waves[w][k].duplicateOf.value
  {
    FlatPosition(waves, w, k);
    var original := waves[w][k].duplicateOf.value;
    assert EntryOk(calls, waves[w][k]);
    forall v, i | w < v < |waves| && 0 <= i < |waves[v]| ensures waves[v][i].index != original {
      WavesKeepOrder(calls, waves, w, k, v, i);
    }
  }

  /** At most one call that can change anything runs at a time. */
  lemma ActionsRunAlone(calls: seq<ToolCall>, waves: seq<seq<Entry>>, w: nat, k: nat)
    requires ScheduleOk(calls, waves) && w < |waves| && k < |waves[w]|
    requires waves[w][k].index < |calls| && !IsRead(calls[waves[w][k].index])
    ensures |waves[w]| == 1
  {
    assert WaveOk(calls, waves[w]);
    assert waves[w][k] in waves[w];
  }
}
