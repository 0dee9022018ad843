/**
 The whole output path of one terminal: its held-back tail in front of the
 scheduler queue that owns its egress. The two are linked by one history: the
 ledger run the terminal sees is the run of that queue.
 */
module PtyPath {
  import opened EgressLedger
  import opened Wrappers
  import opened PtyText
  import Terminal = PtyTerminal
  import Egress = PtyEgress

  ghost predicate Linked(t: Terminal.PtyTerminal, s: Egress.PtyEgressScheduler, q: Egress.TerminalQueue)
    reads t, s, s.all
  {
    t.Valid() && s.Valid() && q in s.all && t.events == q.events
  }

  /** A linked queue closes for the terminal exactly when it closes in the scheduler. */
  lemma ClosedTogether(t: Terminal.PtyTerminal, s: Egress.PtyEgressScheduler, q: Egress.TerminalQueue)
    requires Linked(t, s, q)
    ensures t.ownerClosed <==> q.closing
  {
    hide Run, s.Base, s.NotWedged;
    ClosingIs(s, q);
  }

  lemma ClosingIs(s: Egress.PtyEgressScheduler, q: Egress.TerminalQueue)
    requires s.Valid() && q in s.all
    ensures q.closing <==> Run(q.events).finishCode.Some?
  {
    hide Run;
    if q.live {
      s.KeptFaithful(q);
    }
  }

  /** A terminal and the queue registered for it are linked from the start. */
  method Open(s: Egress.PtyEgressScheduler, id: string, generation: int)
    returns (t: Terminal.PtyTerminal, q: Egress.TerminalQueue?)
    requires s.Valid()
    modifies s
    ensures s.Valid() && fresh(t) && !t.flushingOutput && t.produced == []
    ensures q == null <==> old(s.disposed) || id == "" || !(1 <= generation <= Egress.MAX_SAFE_INTEGER) || id in old(s.queues)
    ensures q != null ==> Linked(t, s, q) && Known(s, q) && q.id == id && q.terminalGeneration == generation
  {
    hide s.Valid, Run;
    var r := s.Register(id, generation);
    t := new Terminal.PtyTerminal();
    q := null;
    if r.Registered? {
      q := s.queues[id];
    }
  }

  ghost predicate NoAdmission(events: seq<Event>) {
    forall e | e in events :: !e.EAdmit?
  }

  lemma {:induction false} NothingAdmitted(events: seq<Event>, more: seq<Event>)
    requires NoAdmission(more)
    ensures Run(events + more).accepted == Run(events).accepted
    decreases |more|
  {
    if more == [] {
      assert events + more == events;
    } else {
      var init, e := more[..|more| - 1], more[|more| - 1];
      assert events + more == (events + init) + [e] && e in more;
      NothingAdmitted(events, init);
      Terminal.MovesFacts(events + init, e);
    }
  }

  /**
   The scheduler moved on: hand-overs, acknowledgements, replays, closing or
   release, whatever calls brought them about. As long as nobody else offered
   to its queue, the terminal is linked to it again.
   */
  method Follow(t: Terminal.PtyTerminal, s: Egress.PtyEgressScheduler, q: Egress.TerminalQueue)
    requires t.Valid() && s.Valid() && q in s.all && t.events <= q.events && NoAdmission(q.events[|t.events|..])
    modifies t`events, t`ownerClosed
    ensures Linked(t, s, q)
    ensures t.AcceptedBytes() == old(t.AcceptedBytes())
  {
    hide Run, Terminal.Held, s.Valid;
    assert q.events == t.events + q.events[|t.events|..];
    NothingAdmitted(t.events, q.events[|t.events|..]);
    ClosingIs(s, q);
    t.events := q.events;
    t.ownerClosed := q.closing;
  }

  /** The scheduler still knows the queue under the terminal's identity; it then is a live one. */
  predicate Known(s: Egress.PtyEgressScheduler, q: Egress.TerminalQueue)
    reads s`queues, q
  {
    s.Lookup(q.id, q.terminalGeneration) == q
  }

  /** The scheduler takes a quantum of this size now. */
  predicate Admits(s: Egress.PtyEgressScheduler, q: Egress.TerminalQueue, n: nat)
    reads s, q
  {
    Known(s, q) && !q.closing && s.Room(q, n)
  }

  /** Whatever is held back starts with a quantum the scheduler does not take now, and the native side stopped reading. */
  ghost predicate HeldBack(t: Terminal.PtyTerminal, s: Egress.PtyEgressScheduler, q: Egress.TerminalQueue)
    reads t, s, q
  {
    t.pendingOutput != [] ==>
      && (t.nativePaused || t.exited)
      && var first := t.pendingOutput[0];
      && Terminal.PendingOk(first)
      && exists end: nat :: Quantum(first.data, first.offset, end, CHUNK_BYTES) && !Admits(s, q, |Encode(first.data[first.offset..end])|)
  }

  /** Nothing stopped the native side but what is held back. */
  twostate predicate PausedOnlyIfHeld(t: Terminal.PtyTerminal)
    reads t
  {
    t.pendingOutput == [] ==> t.nativePaused == old(t.nativePaused)
  }

  /**
   Offer the first held-back quantum to the scheduler: it moves into the queue,
   or the scheduler does not take it and the native side stops reading.
   */
  method FeedOne(t: Terminal.PtyTerminal, s: Egress.PtyEgressScheduler, q: Egress.TerminalQueue, end: nat)
    returns (accepted: bool)
    requires Linked(t, s, q) && t.flushingOutput && !t.outputCancelled && t.pendingOutput != []
    requires Quantum(t.pendingOutput[0].data, t.pendingOutput[0].offset, end, CHUNK_BYTES)
    modifies t, s, s.all
    ensures Linked(t, s, q) && t.produced == old(t.produced) && t.flushingOutput && !t.outputCancelled && s.all == old(s.all)
    ensures t.exited == old(t.exited) && t.nativeCode == old(t.nativeCode) && (accepted ==> t.nativePaused == old(t.nativePaused))
    ensures var first := old(t.pendingOutput[0]);
            var bytes := Encode(first.data[first.offset..end]);
            && (accepted <==> old(Admits(s, q, |bytes|)))
            && (accepted ==> t.AcceptedBytes() == old(t.AcceptedBytes()) + bytes
                             && t.pendingOutput == [first.(offset := end)] + old(t.pendingOutput)[1..])
            && (!accepted ==> t.events == old(t.events) && t.pendingOutput == old(t.pendingOutput)
                              && !Admits(s, q, |bytes|) && (q.closing || q.paused || !Known(s, q)) && (t.nativePaused || t.exited))
  {
    hide Run, Encode, Quantum, s.Valid;
    ClosedTogether(t, s, q);
    var first := t.pendingOutput[0];
    Terminal.QuantumCut(first.data, first.offset, end);
    accepted := false;
    if Known(s, q) {
      s.LookupIsLive(q.id, q.terminalGeneration);
      s.LiveIsOk(q);
      accepted := s.Enqueue(q.id, q.terminalGeneration, Encode(first.data[first.offset..end]));
    }
    if accepted {
      t.Advance(first, end, s.limits.paced);
    } else {
      t.Pause();
    }
  }

  /** Feed what is held back to the scheduler until it is gone or refused. */
  method Drain(t: Terminal.PtyTerminal, s: Egress.PtyEgressScheduler, q: Egress.TerminalQueue)
    requires Linked(t, s, q) && t.flushingOutput && !t.outputCancelled
    modifies t, s, s.all
    ensures Linked(t, s, q) && t.flushingOutput && !t.outputCancelled && t.produced == old(t.produced)
    ensures HeldBack(t, s, q) && PausedOnlyIfHeld(t)
    ensures s.all == old(s.all) && t.exited == old(t.exited) && t.nativeCode == old(t.nativeCode)
  {
    hide Run, Encode, Quantum, s.Valid, Terminal.Held;
    while t.pendingOutput != []
      invariant Linked(t, s, q) && t.flushingOutput && !t.outputCancelled && t.produced == old(t.produced)
      invariant t.nativePaused == old(t.nativePaused)
      invariant s.all == old(s.all) && t.exited == old(t.exited) && t.nativeCode == old(t.nativeCode)
      decreases Terminal.Work(t.pendingOutput)
    {
      var first := t.pendingOutput[0];
      if first.offset >= |first.data| {
        Terminal.DropUsedUp(t.pendingOutput);
        t.pendingOutput := t.pendingOutput[1..];
      } else {
        var end := NextQuantum(first.data, first.offset, CHUNK_BYTES);
        ghost var rest := t.pendingOutput[1..];
        assert t.pendingOutput == [first] + rest;
        Terminal.HeldAdvance(first, rest, end);
        var accepted := FeedOne(t, s, q, end);
        if !accepted {
          return;
        }
      }
    }
  }

  /** A flush that no other one is running around: as the terminal does it, with the scheduler as its owner. */
  method Flush(t: Terminal.PtyTerminal, s: Egress.PtyEgressScheduler, q: Egress.TerminalQueue)
    requires Linked(t, s, q) && !t.flushingOutput
    modifies t, s, s.all
    ensures Linked(t, s, q) && t.Settled() && t.outputCancelled == old(t.outputCancelled) && t.produced == old(t.produced)
    ensures HeldBack(t, s, q) && PausedOnlyIfHeld(t)
    ensures s.all == old(s.all) && t.exited == old(t.exited) && t.nativeCode == old(t.nativeCode)
  {
    hide Run, s.Valid, Terminal.Held;
    if !t.outputCancelled && t.pendingOutput != [] {
      t.flushingOutput := true;
      Drain(t, s, q);
      t.flushingOutput := false;
    }
    t.EmitExitIfDrained();
  }

  /** One native read. */
  method Read(t: Terminal.PtyTerminal, s: Egress.PtyEgressScheduler, q: Egress.TerminalQueue, data: Text)
    requires Linked(t, s, q) && !t.flushingOutput
    modifies t, s, s.all
    ensures Linked(t, s, q) && !t.flushingOutput && s.all == old(s.all)
    ensures t.produced == old(t.produced) + if old(t.outputCancelled) then [] else Encode(data)
    ensures old(t.outputCancelled) || HeldBack(t, s, q)
    ensures PausedOnlyIfHeld(t)
  {
    hide Run, s.Valid, Terminal.Held, Encode;
    if !t.outputCancelled {
      t.Push(data);
      Flush(t, s, q);
    }
  }

  /** The native side may read again: the tail goes first. */
  method Resume(t: Terminal.PtyTerminal, s: Egress.PtyEgressScheduler, q: Egress.TerminalQueue)
    requires Linked(t, s, q) && !t.flushingOutput
    modifies t, s, s.all
    ensures Linked(t, s, q) && t.Settled() && t.produced == old(t.produced) && s.all == old(s.all)
    ensures HeldBack(t, s, q) && (t.pendingOutput == [] ==> t.nativePaused == (t.exited && old(t.nativePaused)))
  {
    hide Run, s.Valid, Terminal.Held;
    if !t.exited {
      t.nativePaused := false;
    }
    Flush(t, s, q);
  }

  /** The native exit. */
  method Exit(t: Terminal.PtyTerminal, s: Egress.PtyEgressScheduler, q: Egress.TerminalQueue, code: int)
    requires Linked(t, s, q) && !t.flushingOutput && !t.exited
    modifies t, s, s.all
    ensures Linked(t, s, q) && t.Settled() && t.exited && t.nativeCode == Some(code)
    ensures t.produced == old(t.produced) && s.all == old(s.all) && HeldBack(t, s, q)
  {
    hide Run, s.Valid, Terminal.Held;
    t.exited, t.nativeCode, t.pendingExitCode := true, Some(code), Some(code);
    Flush(t, s, q);
  }

  /**
   What the pty produced is, in order, what the queue's numbers carry followed
   by what is held back; and what the renderer has not acknowledged of it is
   at most the queue's limit and the tail.
   */
  lemma EndToEnd(t: Terminal.PtyTerminal, s: Egress.PtyEgressScheduler, q: Egress.TerminalQueue)
    requires Linked(t, s, q) && !t.outputCancelled
    ensures var l := q.Now();
            && t.produced == Contents(l, l.nextSequence) + Terminal.Held(t.pendingOutput)
            && (q.live ==> |t.produced| - Sum(l.acked, l.nextSequence)
                           <= s.limits.maxQueueBytes + |Terminal.Held(t.pendingOutput)|)
  {
    hide Run, s.Base, s.NotWedged, Contents;
    t.NothingIsLost();
    if q.live {
      s.EveryQueueIsLossless(q);
      s.BacklogIsBounded(q);
    }
  }
}
