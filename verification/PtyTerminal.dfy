/**
 The output path of one terminal: native callbacks are queued, fed to the
 egress owner in bounded quanta, held back on refusal and drained on resume;
 the exit is announced once, after the held-back tail.

 The egress owner is seen through the run of its ledger. Its consumer callback
 may re-enter the terminal with any of the calls `Reenter` lists.
 */
module PtyTerminal {
  import opened EgressLedger
  import opened Wrappers
  import opened PtyText

  datatype Pending = Pending(data: Text, offset: nat)

  ghost predicate PendingOk(p: Pending) {
    p.offset <= |p.data| && CleanCut(p.data, p.offset)
  }

  function Rest(p: Pending): Text {
    if p.offset <= |p.data| then p.data[p.offset..] else []
  }

  /** The bytes still held back, in order. */
  function Held(pending: seq<Pending>): seq<Byte> {
    if pending == [] then [] else Encode(Rest(pending[0])) + Held(pending[1..])
  }

  /** Code units and entries left to feed. */
  function Work(pending: seq<Pending>): nat {
    if pending == [] then 0 else 1 + |Rest(pending[0])| + Work(pending[1..])
  }

  lemma {:induction false} HeldAppend(pending: seq<Pending>, p: Pending)
    ensures Held(pending + [p]) == Held(pending) + Encode(Rest(p))
  {
    if pending == [] {
      assert [p][1..] == [];
      assert [] + [p] == [p];
    } else {
      assert (pending + [p])[1..] == pending[1..] + [p];
      HeldAppend(pending[1..], p);
    }
  }

  /** Delivering one quantum moves exactly its bytes out of what is held back. */
  lemma HeldAdvance(p: Pending, rest: seq<Pending>, end: nat)
    requires PendingOk(p) && Quantum(p.data, p.offset, end, CHUNK_BYTES)
    ensures PendingOk(p.(offset := end))
    ensures Held([p] + rest) == Encode(p.data[p.offset..end]) + Held([p.(offset := end)] + rest)
    ensures Work([p.(offset := end)] + rest) < Work([p] + rest)
  {
    hide Encode, Quantum;
    QuantumCut(p.data, p.offset, end);
    var t := p.data[p.offset..];
    assert t[..end - p.offset] == p.data[p.offset..end];
    assert t[end - p.offset..] == p.data[end..];
    EncodeSplits(t, end - p.offset);
    assert ([p] + rest)[1..] == rest;
    assert ([p.(offset := end)] + rest)[1..] == rest;
  }

  /** An entry with nothing left holds nothing back. */
  lemma DropUsedUp(pending: seq<Pending>)
    requires pending != [] && pending[0].offset >= |pending[0].data|
    ensures Held(pending[1..]) == Held(pending) && Work(pending[1..]) < Work(pending)
  {
    assert Rest(pending[0]) == [];
  }

  lemma QuantumCut(s: Text, a: nat, b: nat)
    requires a <= |s| && CleanCut(s, a) && Quantum(s, a, b, CHUNK_BYTES)
    ensures a < b <= |s| && CleanCut(s, b) && CleanCut(s[a..], b - a)
    ensures 1 <= |Encode(s[a..b])| <= CHUNK_BYTES
  {
    QuantumBytes(s, a, b, CHUNK_BYTES);
  }

  lemma MovesFacts(events: seq<Event>, e: Event)
    requires !e.EAdmit?
    ensures Run(events + [e]).accepted == Run(events).accepted
    ensures Run(events + [e]).finishCode.Some? <==> Run(events).finishCode.Some? || e.EClose?
  {
    RunStep(events, e);
  }

  class PtyTerminal {
    var exited: bool
    var flushingOutput: bool
    var outputCancelled: bool
    var pendingOutput: seq<Pending>
    var pendingExitCode: Option<int>
    var exitDelivered: bool
    /** The owner closed the terminal to admissions. */
    var ownerClosed: bool
    /** The source side of back-pressure: node-pty stops reading while paused. */
    var nativePaused: bool

    /** Bytes produced by the native pty so far, and the run of the egress ledger they go to. */
    ghost var produced: seq<Byte>
    ghost var events: seq<Event>
    /** Every code announced through onExit, and how much had been produced when it was. */
    ghost var announced: seq<int>
    ghost var producedAtExit: nat
    ghost var nativeCode: Option<int>
    /** Quanta the owner refused so far. */
    ghost var refusals: nat

    ghost function AcceptedBytes(): seq<Byte>
      reads `events
    {
      Run(events).accepted
    }

    /** Conservation: what was produced is what the owner accepted followed by what is held back. */
    ghost predicate Flow()
      reads `pendingOutput, `outputCancelled, `produced, `events, `ownerClosed
    {
      && (forall i | 0 <= i < |pendingOutput| :: PendingOk(pendingOutput[i]))
      && (!outputCancelled ==> produced == AcceptedBytes() + Held(pendingOutput))
      && (outputCancelled ==> pendingOutput == [])
      && (ownerClosed <==> Run(events).finishCode.Some?)
    }

    ghost predicate ExitsOk()
      reads `exited, `pendingExitCode, `exitDelivered, `outputCancelled, `announced, `producedAtExit, `nativeCode, `events
    {
      && (exitDelivered <==> |announced| == 1) && |announced| <= 1
      && (nativeCode.Some? <==> exited)
      && (pendingExitCode.Some? <==> exited && !exitDelivered)
      && (pendingExitCode.Some? ==> pendingExitCode == nativeCode)
      && (exitDelivered ==> exited && announced == [nativeCode.value])
      && (exitDelivered && !outputCancelled ==> producedAtExit <= |AcceptedBytes()|)
    }

    ghost predicate Valid()
      reads this
    {
      Flow() && ExitsOk()
    }

    /** Outside a flush nothing is held back unless the owner refused, and a drained exit was announced. */
    ghost predicate Settled()
      reads this
    {
      && !flushingOutput
      && (pendingOutput != [] ==> nativePaused || exited)
      && (pendingOutput == [] && exited ==> exitDelivered)
    }

    constructor ()
      ensures Valid() && Settled() && produced == [] && events == [] && announced == []
      ensures !exited && !outputCancelled && !exitDelivered && !ownerClosed && !nativePaused
    {
      exited, flushingOutput, outputCancelled, exitDelivered, nativePaused := false, false, false, false, false;
      pendingOutput, pendingExitCode, ownerClosed := [], None, false;
      produced, events, announced, producedAtExit, nativeCode, refusals := [], [], [], 0, None, 0;
    }

    /** The ledger moves on by itself: sends, acknowledgements, replays, closing, but no admission. */
    method OwnerMoves(e: Event)
      requires Valid() && !e.EAdmit?
      modifies `events, `ownerClosed
      ensures Valid() && events == old(events) + [e] && AcceptedBytes() == old(AcceptedBytes())
    {
      MovesFacts(events, e);
      hide Run, Held;
      ownerClosed := ownerClosed || e.EClose?;
      events := events + [e];
    }

    /** The owner admitted one quantum: its bytes join the accepted ones. */
    ghost method Admitted(bytes: seq<Byte>, paced: bool)
      requires !ownerClosed && Run(events).finishCode.None? && 1 <= |bytes| <= CHUNK_BYTES
      modifies `events
      ensures AcceptedBytes() == old(AcceptedBytes()) + bytes && Run(events).finishCode.None?
      ensures events == old(events) + [EAdmit(bytes, paced)]
    {
      AdmitStep(events, bytes, paced);
      events := events + [EAdmit(bytes, paced)];
    }

    method EmitExitIfDrained()
      requires Valid()
      modifies `exitDelivered, `pendingExitCode, `announced, `producedAtExit
      ensures Valid()
      ensures announced == old(announced) + (if old(pendingExitCode).Some? && pendingOutput == [] && !old(exitDelivered)
                                             then [old(pendingExitCode).value] else [])
      ensures pendingOutput == [] && exited ==> exitDelivered
    {
      if pendingExitCode.None? || pendingOutput != [] || exitDelivered {
        return;
      }
      exitDelivered := true;
      producedAtExit := if outputCancelled then 0 else |produced|;
      announced := announced + [pendingExitCode.value];
      pendingExitCode := None;
    }

    method Pause()
      requires Valid()
      modifies `nativePaused
      ensures Valid() && nativePaused == (!exited || old(nativePaused))
    {
      if !exited {
        nativePaused := true;
      }
    }

    /** The consumer callback: it may call back first, then admits the quantum or refuses it. */
    method OnData(chunk: Text, budget: nat) returns (accepted: bool, left: nat)
      requires Valid() && flushingOutput
      modifies this
      ensures Valid() && flushingOutput && left <= budget
      ensures Grew(old(produced), old(announced))
      ensures left == budget ==> Same() && refusals == old(refusals) + (if accepted then 0 else 1)
      ensures Kept(old(pendingOutput), old(outputCancelled)) && (accepted ==> !ownerClosed)
      decreases budget, 1
    {
      left := Reenter(budget);
      var willing: bool := *;
      accepted := willing && !ownerClosed;
      if !accepted {
        refusals := refusals + 1;
      }
    }

    /** Nothing but the count of refusals may differ from the old state. */
    twostate predicate Same()
      reads this
    {
      && unchanged(`exited, `flushingOutput, `outputCancelled, `pendingOutput, `pendingExitCode, `exitDelivered, `ownerClosed)
      && unchanged(`nativePaused, `produced, `events, `announced, `producedAtExit, `nativeCode)
    }

    /** Without a refusal nothing stops the native side, and nothing is held back after a flush. */
    twostate predicate FlowsUnlessRefused()
      reads this
    {
      refusals == old(refusals) ==> nativePaused == old(nativePaused) && pendingOutput == []
    }

    /** What was produced and what was announced are never taken back. */
    ghost predicate Grew(producedBefore: seq<Byte>, announcedBefore: seq<int>)
      reads `produced, `announced
    {
      producedBefore <= produced && announcedBefore <= announced
    }

    /** During a flush nothing but a cancellation removes a held-back entry. */
    ghost predicate Kept(before: seq<Pending>, cancelledBefore: bool)
      reads `pendingOutput, `outputCancelled
    {
      && (cancelledBefore ==> outputCancelled)
      && (!outputCancelled ==> before <= pendingOutput)
    }

    /** Any calls a consumer can make synchronously; each uses up some of the budget. */
    method Reenter(budget: nat) returns (left: nat)
      requires Valid() && flushingOutput
      modifies this
      ensures Valid() && flushingOutput && left <= budget
      ensures Grew(old(produced), old(announced))
      ensures left == budget ==> unchanged(this)
      ensures Kept(old(pendingOutput), old(outputCancelled))
      decreases budget, 0
    {
      hide Valid, Encode, Held, Run;
      left := budget;
      while left > 0
        invariant Valid() && flushingOutput && left <= budget
        invariant Grew(old(produced), old(announced))
        invariant left == budget ==> unchanged(this)
        invariant Kept(old(pendingOutput), old(outputCancelled))
        decreases left
      {
        left := left - 1;
        var which: nat := *;
        var data: Text := *;
        var code: int := *;
        if which == 0 {
          NativeData(data, left);
        } else if which == 1 && !exited {
          NativeExit(code, left);
        } else if which == 2 {
          Resume(left);
        } else if which == 3 {
          CancelOutput();
        } else if which == 4 {
          Pause();
        } else if which == 5 {
          OwnerMoves(ETake);
        } else {
          return;
        }
      }
    }

    /** A call made while a flush is running leaves the running flush its entries. */
    twostate predicate Undisturbed()
      reads this
    {
      && outputCancelled == old(outputCancelled)
      && pendingOutput == if old(outputCancelled) then [] else old(pendingOutput)
    }

    /** Feed what is held back, in bounded quanta, until it is gone or refused. */
    method FlushOutput(budget: nat)
      requires Valid()
      modifies this
      ensures Valid() && flushingOutput == old(flushingOutput)
      ensures if old(flushingOutput) then Undisturbed() else Settled()
      ensures !old(flushingOutput) && budget == 0 ==> FlowsUnlessRefused()
      ensures old(flushingOutput) ==> nativePaused == old(nativePaused)
      ensures old(flushingOutput) || budget == 0 ==> unchanged(`exited, `nativeCode) && (exited ==> unchanged(`nativePaused))
      ensures Grew(old(produced), old(announced))
      decreases budget, 4
    {
      hide Run, Held, Encode, Work;
      if outputCancelled {
        pendingOutput := [];
        EmitExitIfDrained();
        return;
      }
      if flushingOutput || pendingOutput == [] {
        EmitExitIfDrained();
        return;
      }
      flushingOutput := true;
      FlushLoop(budget);
      flushingOutput := false;
      EmitExitIfDrained();
    }

    method FlushLoop(budget: nat)
      requires Valid() && flushingOutput && !outputCancelled
      modifies this
      ensures Valid() && flushingOutput && (pendingOutput == [] || nativePaused || exited)
      ensures budget == 0 ==> FlowsUnlessRefused() && unchanged(`exited, `nativeCode) && (exited ==> unchanged(`nativePaused))
      ensures Grew(old(produced), old(announced))
      decreases budget, 3
    {
      var left: nat := budget;
      while pendingOutput != []
        invariant Valid() && flushingOutput && left <= budget
        invariant budget == 0 ==> refusals == old(refusals) && unchanged(`nativePaused, `exited, `nativeCode)
        invariant Grew(old(produced), old(announced))
        decreases left, Work(pendingOutput)
      {
        var refused;
        left, refused := FeedFirst(left);
        if refused {
          break;
        }
      }
    }

    /** Feed the quanta of the first held-back entry; drop the entry when it is used up. */
    method FeedFirst(budget: nat) returns (left: nat, refused: bool)
      requires Valid() && flushingOutput && pendingOutput != []
      modifies this
      ensures Valid() && flushingOutput && left <= budget
      ensures left == budget && !refused ==> Work(pendingOutput) < Work(old(pendingOutput))
      ensures refused ==> nativePaused || exited
      ensures budget == 0 ==> unchanged(`exited, `nativeCode) && (exited ==> unchanged(`nativePaused))
      ensures budget == 0 ==> if refused then refusals > old(refusals) else refusals == old(refusals) && nativePaused == old(nativePaused)
      ensures Grew(old(produced), old(announced))
      decreases budget, 2
    {
      hide Encode, Held, Run, Quantum, ExitsOk;
      left, refused := budget, false;
      var pending := pendingOutput[0];
      while pending.offset < |pending.data|
        invariant Valid() && flushingOutput && left <= budget && PendingOk(pending)
        invariant Grew(old(produced), old(announced))
        invariant !outputCancelled ==> pendingOutput != [] && pendingOutput[0] == pending
        invariant left == budget ==> !outputCancelled && Work(pendingOutput) <= Work(old(pendingOutput))
        invariant budget == 0 ==> refusals == old(refusals) && unchanged(`nativePaused, `exited, `nativeCode)
        decreases |pending.data| - pending.offset
      {
        var end := NextQuantum(pending.data, pending.offset, CHUNK_BYTES);
        var chunk := pending.data[pending.offset..end];
        var accepted;
        accepted, left := OnData(chunk, left);
        if !accepted {
          Pause();
          refused := true;
          return;
        }
        ghost var paced: bool := *;
        Advance(pending, end, paced);
        pending := pending.(offset := end);
      }
      if pendingOutput != [] {
        DropUsedUp(pendingOutput);
        pendingOutput := pendingOutput[1..];
      }
    }

    /** The owner admitted the quantum up to `end` of the first entry. */
    method Advance(pending: Pending, end: nat, ghost paced: bool)
      requires Valid() && flushingOutput && !ownerClosed && PendingOk(pending) && Quantum(pending.data, pending.offset, end, CHUNK_BYTES)
      requires !outputCancelled ==> pendingOutput != [] && pendingOutput[0] == pending
      modifies `pendingOutput, `events
      ensures Valid() && PendingOk(pending.(offset := end))
      ensures events == old(events) + [EAdmit(Encode(pending.data[pending.offset..end]), paced)]
      ensures AcceptedBytes() == old(AcceptedBytes()) + Encode(pending.data[pending.offset..end])
      ensures if outputCancelled then pendingOutput == [] else pendingOutput == [pending.(offset := end)] + old(pendingOutput)[1..]
      ensures !outputCancelled ==> Work(pendingOutput) < Work(old(pendingOutput))
    {
      hide Encode, Held, Run, Quantum, Work;
      QuantumCut(pending.data, pending.offset, end);
      if pendingOutput != [] {
        HeldAdvance(pending, pendingOutput[1..], end);
        assert [pending] + pendingOutput[1..] == pendingOutput;
        pendingOutput := [pending.(offset := end)] + pendingOutput[1..];
      }
      Admitted(Encode(pending.data[pending.offset..end]), paced);
    }
  
    /** One native read. */
    method NativeData(data: Text, budget: nat)
      requires Valid()
      modifies this
      ensures Valid() && flushingOutput == old(flushingOutput)
      ensures old(outputCancelled) ==> unchanged(this)
      ensures Grew(old(produced) + (if old(outputCancelled) then [] else Encode(data)), old(announced))
      ensures !old(outputCancelled) && old(flushingOutput) ==>
                pendingOutput == old(pendingOutput) + [Pending(data, 0)] && outputCancelled == old(outputCancelled)
      ensures !old(outputCancelled) && !old(flushingOutput) ==> Settled() && (budget == 0 ==> FlowsUnlessRefused())
      decreases budget, 5
    {
      if outputCancelled {
        return;
      }
      hide Flow, ExitsOk;
      Push(data);
      FlushOutput(budget);
    }

    /** Queue one native read behind what is already held back. */
    method Push(data: Text)
      requires Valid() && !outputCancelled
      modifies `pendingOutput, `produced
      ensures Valid() && pendingOutput == old(pendingOutput) + [Pending(data, 0)]
      ensures produced == old(produced) + Encode(data)
    {
      hide Encode, Held, Run;
      HeldAppend(pendingOutput, Pending(data, 0));
      assert Rest(Pending(data, 0)) == data;
      pendingOutput := pendingOutput + [Pending(data, 0)];
      produced := produced + Encode(data);
    }

    /** The native exit, which node-pty reports once. */
    method NativeExit(code: int, budget: nat)
      requires Valid() && !exited
      modifies this
      ensures Valid() && flushingOutput == old(flushingOutput)
      ensures old(flushingOutput) ==> Undisturbed()
      ensures !old(flushingOutput) ==> Settled() && (budget == 0 ==> exited && nativeCode == Some(code) && FlowsUnlessRefused())
      ensures Grew(old(produced), old(announced))
      decreases budget, 5
    {
      exited := true;
      nativeCode := Some(code);
      pendingExitCode := Some(code);
      FlushOutput(budget);
    }

    /** Backpressure released: drain the tail that was held back. */
    method Resume(budget: nat)
      requires Valid()
      modifies this
      ensures Valid() && flushingOutput == old(flushingOutput)
      ensures old(flushingOutput) ==> Undisturbed() && (!exited ==> !nativePaused)
      ensures old(flushingOutput) || budget == 0 ==> exited ==> unchanged(`nativePaused)
      ensures !old(flushingOutput) ==> Settled()
      ensures !old(flushingOutput) && budget == 0 && refusals == old(refusals) ==> pendingOutput == [] && (!exited ==> !nativePaused)
      ensures Grew(old(produced), old(announced))
      decreases budget, 5
    {
      if !exited {
        nativePaused := false;
      }
      FlushOutput(budget);
    }

    /** Discard what is held back, for an intentional close only. */
    method CancelOutput()
      requires Valid()
      modifies this
      ensures Valid() && flushingOutput == old(flushingOutput) && outputCancelled && pendingOutput == []
      ensures Grew(old(produced), old(announced))
      ensures if exited then exitDelivered && unchanged(`nativePaused) else !nativePaused
    {
      hide Run, Held, Encode, Work;
      outputCancelled := true;
      pendingOutput := [];
      if !exited {
        nativePaused := false;
      }
      EmitExitIfDrained();
    }

    /** End to end: acknowledged, in-flight, queued and held-back bytes, in order, are all the pty produced. */
    lemma NothingIsLost()
      requires Valid() && !outputCancelled
      ensures produced == Contents(Run(events), Run(events).nextSequence) + Held(pendingOutput)
    {
      EveryReachableLedger(events);
      Lossless(Run(events));
    }

    /** The exit is announced at most once, with the native code, after everything produced before it was admitted. */
    lemma ExitAfterTail()
      requires Valid()
      ensures |announced| <= 1
      ensures announced != [] ==> exited && nativeCode == Some(announced[0])
      ensures announced != [] && !outputCancelled ==> producedAtExit <= |AcceptedBytes()|
      ensures announced != [] && !outputCancelled ==> AcceptedBytes()[..producedAtExit] == produced[..producedAtExit]
    {
    }
  }
}
