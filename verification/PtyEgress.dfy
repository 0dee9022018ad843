/**
 The shared egress scheduler: sequence-numbered, acknowledged, replaying
 delivery of terminal output to one renderer document, with back-pressure.

 Every terminal's queue carries the ghost event sequence its ledger went
 through, so its whole history is a run of module EgressLedger. Two callbacks
 re-enter the scheduler: the transport's send and the source's resume. Both
 are modelled by `React(depth)`, which makes any finite number of public calls,
 nested to any depth up to `depth`.
 */
module PtyEgress {
  import opened EgressLedger
  import opened Wrappers

  const MAX_SAFE_INTEGER: int := 9007199254740991

  predicate SafeInteger(n: int) {
    -MAX_SAFE_INTEGER <= n <= MAX_SAFE_INTEGER
  }

  datatype Options = Options(
    maxQueueBytes: Option<int>, maxQueueChunks: Option<int>,
    lowWaterBytes: Option<int>, lowWaterChunks: Option<int>,
    batchBytes: Option<int>, batchChunks: Option<int>, flushIntervalMs: Option<int>)

  datatype Limits = Limits(
    maxQueueBytes: int, maxQueueChunks: int, lowWaterBytes: int, lowWaterChunks: int,
    batchBytes: int, batchChunks: int, paced: bool)

  predicate ValidLimits(c: Limits) {
    && 1 <= c.lowWaterBytes < c.maxQueueBytes
    && 1 <= c.lowWaterChunks < c.maxQueueChunks
    && 1 <= c.batchBytes && 1 <= c.batchChunks
  }

  /** A full chunk below high water still leaves a source above low water. */
  predicate Roomy(c: Limits) {
    c.maxQueueBytes - CHUNK_BYTES >= c.lowWaterBytes
  }

  function PositiveOr(value: Option<int>, fallback: int): Option<int> {
    var v := if value.Some? then value.value else fallback;
    if SafeInteger(v) && v >= 1 then Some(v) else None
  }

  predicate Positive(value: int) {
    1 <= value <= MAX_SAFE_INTEGER
  }

  function Given(value: Option<int>, fallback: int): int {
    if value.Some? then value.value else fallback
  }

  /** Every option is a positive safe integer (the interval may be 0), and both low-water marks, given or half, are below high water. */
  predicate Acceptable(o: Options) {
    var bytes := if o.maxQueueBytes.Some? then o.maxQueueBytes.value else 2 * 1024 * 1024;
    var chunks := if o.maxQueueChunks.Some? then o.maxQueueChunks.value else 128;
    var lowBytes := if o.lowWaterBytes.Some? then o.lowWaterBytes.value else bytes / 2;
    var lowChunks := if o.lowWaterChunks.Some? then o.lowWaterChunks.value else chunks / 2;
    && Positive(bytes) && Positive(chunks)
    && 1 <= lowBytes < bytes && 1 <= lowChunks < chunks
    && (o.batchBytes.Some? ==> Positive(o.batchBytes.value))
    && (o.batchChunks.Some? ==> Positive(o.batchChunks.value))
    && (o.flushIntervalMs.Some? ==> 0 <= o.flushIntervalMs.value <= MAX_SAFE_INTEGER)
  }

  /** The constructor's option handling; None where it throws. */
  function Resolve(o: Options): (r: Option<Limits>)
    ensures r.Some? <==> Acceptable(o)
    ensures r.Some? ==> ValidLimits(r.value)
    ensures o == Options(None, None, None, None, None, None, None) ==> r.Some? && Roomy(r.value)
  {
    var maxBytes := PositiveOr(o.maxQueueBytes, 2 * 1024 * 1024);
    var maxChunks := PositiveOr(o.maxQueueChunks, 128);
    if maxBytes.None? || maxChunks.None? then None else
    var lowBytes := PositiveOr(o.lowWaterBytes, maxBytes.value / 2);
    var lowChunks := PositiveOr(o.lowWaterChunks, maxChunks.value / 2);
    var batchBytes := PositiveOr(o.batchBytes, 256 * 1024);
    var batchChunks := PositiveOr(o.batchChunks, 16);
    var flush := if o.flushIntervalMs.Some? then o.flushIntervalMs.value else 16;
    if lowBytes.None? || lowChunks.None? || lowBytes.value >= maxBytes.value || lowChunks.value >= maxChunks.value then None
    else if batchBytes.None? || batchChunks.None? || !SafeInteger(flush) || flush < 0 then None
    else Some(Limits(maxBytes.value, maxChunks.value, lowBytes.value, lowChunks.value,
                     batchBytes.value, batchChunks.value, flush > 0))
  }

  /** Each limit is the option given or its default; frames are paced unless the interval is 0. */
  lemma ResolvedLimits(o: Options)
    requires Acceptable(o)
    ensures var c := Resolve(o).value;
            && c.maxQueueBytes == Given(o.maxQueueBytes, 2 * 1024 * 1024) && c.maxQueueChunks == Given(o.maxQueueChunks, 128)
            && c.lowWaterBytes == Given(o.lowWaterBytes, c.maxQueueBytes / 2)
            && c.lowWaterChunks == Given(o.lowWaterChunks, c.maxQueueChunks / 2)
            && c.batchBytes == Given(o.batchBytes, 256 * 1024) && c.batchChunks == Given(o.batchChunks, 16)
            && (c.paced <==> o.flushIntervalMs != Some(0))
  {
  }

  /** What a queue's past consists of. */
  datatype Past = Past(
    events: seq<Event>, deliveries: seq<Delivery>, live: bool, inFlight: set<int>, outcomes: map<int, bool>)

  datatype View = View(past: Past, hydrated: bool, paused: bool, closing: bool)

  /** Nothing that happened is undone, and no new send started. */
  ghost predicate Calm(p: Past, p': Past) {
    && p.events <= p'.events && p'.deliveries == p.deliveries && (p'.live ==> p.live)
    && p'.inFlight <= p.inFlight
    && (forall w | w in p.outcomes :: w in p'.outcomes && p'.outcomes[w] == p.outcomes[w])
  }

  lemma CalmTransitive(a: Past, b: Past, c: Past)
    requires Calm(a, b) && Calm(b, c)
    ensures Calm(a, c)
  {
  }

  lemma CalmSelf(a: Past)
    ensures Calm(a, a)
  {
  }

  class TerminalQueue {
    const id: string
    const terminalGeneration: int
    var chunks: seq<Record>
    var queuedBytes: int
    var inFlight: map<int, Record>
    var inFlightBytes: int
    var nextSequence: nat
    var paused: bool
    var closing: bool
    var hydrated: bool
    var finishCode: Option<int>
    var exitQueued: bool
    /** Pending `finish` promises, by number; `outcomes` holds the settled ones. */
    var finishWaiters: seq<int>
    var outcomes: map<int, bool>
    var nextWaiter: int

    /** The run this queue went through while registered. */
    ghost var events: seq<Event>
    /** Every hand-over to the transport, replays included. */
    ghost var deliveries: seq<Delivery>
    /** Still owned by the scheduler. */
    ghost var live: bool
    /** Released because the renderer acknowledged everything, exit marker included. */
    ghost var delivered: bool
    /** The source once offered a quantum larger than CHUNK_BYTES. */
    ghost var oversized: bool

    constructor (id: string, terminalGeneration: int)
      ensures this.id == id && this.terminalGeneration == terminalGeneration
      ensures events == [] && live && !delivered && !oversized && Mirrors()
      ensures !paused && !closing && !hydrated && finishWaiters == [] && outcomes == map[]
      ensures deliveries == [] && inFlight == map[]
    {
      this.id, this.terminalGeneration := id, terminalGeneration;
      chunks, queuedBytes, inFlight, inFlightBytes, nextSequence := [], 0, map[], 0, 1;
      paused, closing, hydrated, finishCode, exitQueued := false, false, false, None, false;
      finishWaiters, outcomes, nextWaiter, deliveries := [], map[], 0, [];
      events, live, delivered, oversized := [], true, false, false;
    }

    ghost function Now(): Ledger
      reads `events
    {
      Run(events)
    }

    /** The mutable fields hold the current ledger of the run. */
    ghost predicate Mirrors()
      reads `chunks, `queuedBytes, `inFlight, `inFlightBytes, `nextSequence, `finishCode, `exitQueued, `closing, `events, `deliveries
    {
      var l := Now();
      && chunks == l.chunks && queuedBytes == l.queuedBytes
      && inFlight == l.inFlight && inFlightBytes == l.inFlightBytes
      && nextSequence == l.nextSequence
      && finishCode == l.finishCode && exitQueued == l.exitQueued
      && (closing <==> finishCode.Some?)
      && Faithful(l, deliveries)
    }

    /** Once nothing is retained and the exit marker was queued. */
    ghost predicate Drained()
      reads `events
    {
      Now().exitQueued && Now().chunks == [] && Now().inFlight.Keys == {}
    }

    /** A released queue holds nothing in flight; a true outcome means everything was acknowledged. */
    ghost predicate Gone()
      reads `closing, `inFlight, `finishWaiters, `events, `deliveries, `delivered, `outcomes
    {
      && inFlight.Keys == {} && finishWaiters == []
      && Faithful(Now(), deliveries)
      && (delivered ==> Drained())
      && (forall w | w in outcomes && outcomes[w] :: delivered)
      && (closing <==> Now().finishCode.Some?)
    }

    ghost function Log(): Past
      reads `events, `deliveries, `live, `inFlight, `outcomes
    {
      Past(events, deliveries, live, inFlight.Keys, outcomes)
    }

    ghost function Seen(): View
      reads `events, `deliveries, `live, `inFlight, `outcomes, `hydrated, `paused, `closing
    {
      View(Log(), hydrated, paused, closing)
    }

    function Retained(): int
      reads `queuedBytes, `inFlightBytes
    {
      queuedBytes + inFlightBytes
    }

    function RetainedCount(): nat
      reads `chunks, `inFlight
    {
      |chunks| + |inFlight.Keys|
    }

    /** The record is in flight. */
    predicate Owns(record: Record)
      reads `inFlight
    {
      record.sequence in inFlight && inFlight[record.sequence] == record
    }

    lemma DrainedIff()
      requires Mirrors()
      ensures closing && exitQueued && RetainedCount() == 0 <==> Drained()
    {
      EveryReachableLedger(events);
    }

    /** A pending finish is numbered below `nextWaiter` and has no outcome yet. */
    ghost predicate WaitersOk()
      reads `finishWaiters, `outcomes, `nextWaiter
    {
      && (forall w | w in outcomes :: w < nextWaiter)
      && (forall i | 0 <= i < |finishWaiters| :: finishWaiters[i] < nextWaiter && finishWaiters[i] !in outcomes)
      && (forall i, j | 0 <= i < j < |finishWaiters| :: finishWaiters[i] < finishWaiters[j])
    }

    /** Copy into the open tail, or append a new record. */
    method Append(bytes: seq<Byte>, paced: bool)
      requires Mirrors() && !closing && 1 <= |bytes| <= CHUNK_BYTES
      modifies this`chunks, this`queuedBytes, this`nextSequence, this`events
      ensures Mirrors() && events == old(events) + [EAdmit(bytes, paced)]
      ensures Retained() == old(Retained()) + |bytes|
      ensures RetainedCount() == old(RetainedCount()) + (if Coalesces(old(Now()), |bytes|, paced) then 0 else 1)
    {
      hide Run, Faithful;
      AdmitStep(events, bytes, paced);
      FaithfulKept(events, EAdmit(bytes, paced), deliveries);
      var last := |chunks| - 1;
      if paced && chunks != [] && chunks[last].Data? && !chunks[last].sealed && |chunks[last].bytes| + |bytes| <= CHUNK_BYTES {
        chunks := chunks[last := chunks[last].(bytes := chunks[last].bytes + bytes)];
      } else {
        chunks := chunks + [Data(nextSequence, bytes, false)];
        nextSequence := nextSequence + 1;
      }
      queuedBytes := queuedBytes + |bytes|;
      events := events + [EAdmit(bytes, paced)];
    }

    /** Seal the head record, move it in flight and hand its payload over. */
    method TakeHead() returns (record: Record)
      requires Mirrors() && chunks != []
      modifies this`chunks, this`queuedBytes, this`inFlight, this`inFlightBytes, this`events, this`deliveries
      ensures deliveries == old(deliveries) + [Delivery(record.sequence, Payload(record))]
      ensures Mirrors() && events == old(events) + [ETake] && Now() == Take(old(Now()))
      ensures record == Seal(old(chunks)[0]) && record.sequence in inFlight && inFlight[record.sequence] == record
      ensures record.sequence in Now().sent
      ensures forall s | s in inFlight :: s <= record.sequence
      ensures Retained() == old(Retained()) && RetainedCount() == old(RetainedCount())
    {
      hide Run, Faithful;
      TakeStep(events);
      FreshDelivery(events, deliveries);
      record := Seal(chunks[0]);
      chunks := chunks[1..];
      queuedBytes := queuedBytes - Size(record);
      inFlight := inFlight[record.sequence := record];
      inFlightBytes := inFlightBytes + Size(record);
      events := events + [ETake];
      deliveries := deliveries + [Delivery(record.sequence, Payload(record))];
    }

    method Retire(sequence: int)
      requires Mirrors() && sequence in inFlight
      modifies this`inFlight, this`inFlightBytes, this`events
      ensures Mirrors() && events == old(events) + [ERetire(sequence)] && Now() == EgressLedger.Retire(old(Now()), sequence)
      ensures Retained() <= old(Retained()) && RetainedCount() == old(RetainedCount()) - 1
      ensures inFlight == old(inFlight) - {sequence} && inFlight.Keys <= old(inFlight.Keys)
    {
      RetireStep(events, sequence);
      FaithfulKept(events, ERetire(sequence), deliveries);
      inFlightBytes := inFlightBytes - Size(inFlight[sequence]);
      inFlight := inFlight - {sequence};
      events := events + [ERetire(sequence)];
    }

    /** The sorted in-flight records, for replay. */
    method SortedInFlight() returns (replay: seq<Record>)
      requires Mirrors()
      ensures replay == InOrder(inFlight, nextSequence)
    {
      replay := [];
      var s := 0;
      while s < nextSequence
        invariant 0 <= s <= nextSequence && replay == InOrder(inFlight, s)
      {
        if s in inFlight {
          replay := replay + [inFlight[s]];
        }
        s := s + 1;
      }
    }

    /** Everything in flight returns to the head of the queue in sequence order. */
    method Replay()
      requires Mirrors()
      modifies this`chunks, this`queuedBytes, this`inFlight, this`inFlightBytes, this`events
      ensures Mirrors() && inFlight == map[]
      ensures if old(inFlight) == map[] then events == old(events) && chunks == old(chunks)
              else events == old(events) + [EReplay] && Now() == EgressLedger.Replay(old(Now()))
      ensures Retained() == old(Retained()) && RetainedCount() == old(RetainedCount())
    {
      hide Run, Faithful, InOrder;
      if inFlight == map[] {
        return;
      }
      ReplayStep(events);
      ReplayStepRetains(events);
      FaithfulKept(events, EReplay, deliveries);
      var replay := SortedInFlight();
      inFlight := map[];
      inFlightBytes := 0;
      chunks := replay + chunks;
      queuedBytes := queuedBytes + Total(replay);
      events := events + [EReplay];
    }
  
    /** A refused send: the record returns to the head, unless another callback already moved it. */
    method Requeue(record: Record)
      requires Mirrors() && (record.sequence in inFlight ==> forall s | s in inFlight :: s <= record.sequence)
      modifies this`chunks, this`queuedBytes, this`inFlight, this`inFlightBytes, this`events
      ensures Mirrors()
      ensures if record.sequence in old(inFlight) && old(inFlight)[record.sequence] == record
              then events == old(events) + [ERequeue(record.sequence)]
                   && Now() == EgressLedger.Requeue(old(Now()), record.sequence)
              else events == old(events) && chunks == old(chunks)
      ensures Retained() == old(Retained()) && RetainedCount() == old(RetainedCount())
      ensures inFlight.Keys <= old(inFlight.Keys)
    {
      var s := record.sequence;
      if s !in inFlight || inFlight[s] != record {
        return;
      }
      RequeueStep(events, s);
      FaithfulKept(events, ERequeue(s), deliveries);
      inFlight := inFlight - {s};
      inFlightBytes := inFlightBytes - Size(record);
      if exists i :: 0 <= i < |chunks| && chunks[i].sequence == s {
        return;
      }
      chunks := [record] + chunks;
      queuedBytes := queuedBytes + Size(record);
      events := events + [ERequeue(s)];
    }

    method Close(code: int)
      requires Mirrors() && !closing
      modifies this`closing, this`finishCode, this`events
      ensures Mirrors() && closing && events == old(events) + [EClose(if SafeInteger(code) then code else 0)]
      ensures Now() == EgressLedger.Close(old(Now()), if SafeInteger(code) then code else 0)
    {
      RunStep(events, EClose(if SafeInteger(code) then code else 0));
      FaithfulKept(events, EClose(if SafeInteger(code) then code else 0), deliveries);
      closing := true;
      finishCode := Some(if SafeInteger(code) then code else 0);
      events := events + [EClose(finishCode.value)];
    }

    /** The deadline of a pending finish: it settles false and is no longer waited for. */
    method Expire(w: int)
      requires WaitersOk() && w in finishWaiters
      modifies `finishWaiters, `outcomes
      ensures WaitersOk() && w in outcomes && outcomes == old(outcomes)[w := false]
      ensures forall v :: v in finishWaiters <==> v in old(finishWaiters) && v != w
    {
      var index := 0;
      while finishWaiters[index] != w
        invariant 0 <= index < |finishWaiters| && w !in finishWaiters[..index]
        decreases |finishWaiters| - index
      {
        index := index + 1;
      }
      finishWaiters := finishWaiters[..index] + finishWaiters[index + 1..];
      outcomes := outcomes[w := false];
    }

    /** Forget what is retained and settle every pending finish; a source cut short is paused. */
    method Release(delivered: bool)
      requires live && Mirrors() && (delivered ==> Drained()) && forall w | w in outcomes :: !outcomes[w]
      modifies this
      ensures !live && Gone() && this.delivered == delivered && chunks == [] && Retained() == 0 && queuedBytes == 0
      ensures events == old(events) && deliveries == old(deliveries) && (paused <==> old(paused) || !delivered)
      ensures forall w | w in old(outcomes) :: w in outcomes && outcomes[w] == old(outcomes)[w]
      ensures forall w | w in old(finishWaiters) && w !in old(outcomes) :: w in outcomes && outcomes[w] == delivered
    {
      live := false;
      this.delivered := delivered;
      paused := paused || !delivered;
      chunks, queuedBytes, inFlight, inFlightBytes := [], 0, map[], 0;
      Settle(delivered);
      assert inFlight.Keys == {};
    }

    /** Every pending finish gets the answer; those settled before keep theirs. */
    method Settle(answer: bool)
      modifies `outcomes, `finishWaiters
      ensures finishWaiters == []
      ensures forall w | w in old(outcomes) :: w in outcomes && outcomes[w] == old(outcomes)[w]
      ensures forall w | w in old(finishWaiters) && w !in old(outcomes) :: w in outcomes && outcomes[w] == answer
      ensures forall w | w in outcomes :: w in old(outcomes) || outcomes[w] == answer
    {
      var settled := set w | w in finishWaiters;
      outcomes := (map w | w in settled :: answer) + outcomes;
      finishWaiters := [];
    }

    /** A closing queue that holds no data any more gets its exit marker, once. */
    method QueueExit()
      requires live ==> Mirrors()
      modifies this`exitQueued, this`chunks, this`nextSequence, this`events
      ensures live ==> Mirrors() && events == old(events) + [EMarkExit] && Now() == MarkExit(old(Now()))
      ensures live ==> Retained() == old(Retained()) && (RetainedCount() <= old(RetainedCount()) || RetainedCount() == 1)
      ensures !closing ==> unchanged(`chunks, `exitQueued, `nextSequence)
      ensures !live ==> events == old(events)
    {
      ghost var before := Now();
      MarkExitStep(events);
      if live {
        FaithfulKept(events, EMarkExit, deliveries);
        events := events + [EMarkExit];
      }
      if !closing || exitQueued || finishCode.None? {
        return;
      }
      if exists i :: 0 <= i < |chunks| && chunks[i].Data? {
        return;
      }
      if exists s :: s in inFlight && inFlight[s].Data? {
        return;
      }
      exitQueued := true;
      chunks := chunks + [Exit(nextSequence, finishCode.value)];
      nextSequence := nextSequence + 1;
    }
  }

  datatype RegisterResult = Registered | IgnoredDisposed | ThrowsInvalidGeneration | ThrowsAlreadyRegistered

  datatype FinishResult = ThrowsInvalidTimeout | ResolvedFalse | Waiting(waiter: int)

  /** What the scheduler's past consists of. */
  datatype Snapshot = Snapshot(
    pasts: map<TerminalQueue, Past>, windowGeneration: int, rendererGeneration: int, disposed: bool, pumping: bool,
    sends: nat, sentBytes: nat)

  /** Renderer generations only move forward, lexicographically. */
  predicate NotBefore(a: Snapshot, b: Snapshot) {
    b.windowGeneration > a.windowGeneration
    || (b.windowGeneration == a.windowGeneration && b.rendererGeneration >= a.rendererGeneration)
  }

  /** What any callback may do: histories only grow, generations only move forward, no send starts. */
  ghost predicate QuietBetween(a: Snapshot, b: Snapshot) {
    && NotBefore(a, b)
    && (a.disposed ==> b.disposed)
    && a.pumping == b.pumping && a.sends == b.sends && a.sentBytes == b.sentBytes
    && (forall q | q in a.pasts :: q in b.pasts && Calm(a.pasts[q], b.pasts[q]))
    && (forall q | q in b.pasts && q !in a.pasts :: b.pasts[q].inFlight == {} && b.pasts[q].deliveries == [])
  }

  lemma QuietTransitive(a: Snapshot, b: Snapshot, c: Snapshot)
    requires QuietBetween(a, b) && QuietBetween(b, c)
    ensures QuietBetween(a, c)
  {
    forall q | q in a.pasts ensures q in c.pasts && Calm(a.pasts[q], c.pasts[q]) {
      CalmTransitive(a.pasts[q], b.pasts[q], c.pasts[q]);
    }
  }

  /** Histories only grow, sends included. */
  ghost predicate Grown(a: Snapshot, b: Snapshot) {
    && NotBefore(a, b)
    && (a.disposed ==> b.disposed)
    && (forall q | q in a.pasts :: q in b.pasts && Older(a.pasts[q], b.pasts[q]))
  }

  ghost predicate Older(p: Past, p': Past) {
    && p.events <= p'.events && p.deliveries <= p'.deliveries && (p'.live ==> p.live)
    && (forall w | w in p.outcomes :: w in p'.outcomes && p'.outcomes[w] == p.outcomes[w])
  }

  lemma QuietIsGrown(a: Snapshot, b: Snapshot)
    requires QuietBetween(a, b)
    ensures Grown(a, b)
  {
  }

  lemma GrownTransitive(a: Snapshot, b: Snapshot, c: Snapshot)
    requires Grown(a, b) && Grown(b, c)
    ensures Grown(a, c)
  {
    forall q | q in a.pasts ensures q in c.pasts && Older(a.pasts[q], c.pasts[q]) {
      assert Older(a.pasts[q], b.pasts[q]) && Older(b.pasts[q], c.pasts[q]);
    }
  }

  function DeliveriesOf(a: Snapshot, q: TerminalQueue): seq<Delivery> {
    if q in a.pasts then a.pasts[q].deliveries else []
  }

  function HandOver(record: Record): Delivery {
    Delivery(record.sequence, Payload(record))
  }

  /** Between the two snapshots exactly one hand-over happened: `d`, for `q`. */
  ghost predicate SentOne(a: Snapshot, b: Snapshot, q: TerminalQueue, d: Delivery) {
    && Grown(a, b) && a.pumping == b.pumping && q in b.pasts
    && b.sends == a.sends + 1 && b.sentBytes == a.sentBytes + |d.payload|
    && forall p | p in b.pasts :: b.pasts[p].deliveries == DeliveriesOf(a, p) + (if p == q then [d] else [])
  }

  lemma SentIsLast(a: Snapshot, b: Snapshot, q: TerminalQueue, d: Delivery)
    requires SentOne(a, b, q, d) && q in a.pasts
    ensures b.pasts[q].deliveries == a.pasts[q].deliveries + [d]
  {
  }

  lemma SentOneThenQuiet(a: Snapshot, b: Snapshot, c: Snapshot, q: TerminalQueue, d: Delivery)
    requires SentOne(a, b, q, d) && QuietBetween(b, c)
    ensures SentOne(a, c, q, d)
  {
    QuietIsGrown(b, c);
    GrownTransitive(a, b, c);
    forall p | p in c.pasts ensures c.pasts[p].deliveries == DeliveriesOf(a, p) + (if p == q then [d] else []) {
      if p in b.pasts {
        assert Calm(b.pasts[p], c.pasts[p]);
      } else {
        assert p !in a.pasts;
      }
    }
  }

  /** Terminals whose id is in `ids` had at most one hand-over since `a`, the others none. */
  ghost predicate OneEach(a: Snapshot, b: Snapshot, ids: set<string>) {
    forall p | p in b.pasts ::
      |b.pasts[p].deliveries| <= |DeliveriesOf(a, p)| + (if p.id in ids then 1 else 0)
  }

  lemma OneEachNext(a: Snapshot, b: Snapshot, c: Snapshot, ids: set<string>, q: TerminalQueue, d: Delivery)
    requires OneEach(a, b, ids) && SentOne(b, c, q, d) && q.id !in ids && Grown(a, b)
    ensures OneEach(a, c, ids + {q.id})
  {
    forall p | p in c.pasts
      ensures |c.pasts[p].deliveries| <= |DeliveriesOf(a, p)| + (if p.id in ids + {q.id} then 1 else 0)
    {
      if p !in b.pasts {
        assert DeliveriesOf(b, p) == [];
      }
    }
  }

  /** Each of these ids names a terminal that was handed something since `a`. */
  ghost predicate Served(a: Snapshot, b: Snapshot, ids: set<string>) {
    forall id | id in ids :: exists q :: q in b.pasts && q.id == id && |DeliveriesOf(a, q)| < |b.pasts[q].deliveries|
  }

  lemma ServedStays(a: Snapshot, b: Snapshot, c: Snapshot, ids: set<string>)
    requires Served(a, b, ids) && Grown(b, c)
    ensures Served(a, c, ids)
  {
    forall id | id in ids ensures exists q :: q in c.pasts && q.id == id && |DeliveriesOf(a, q)| < |c.pasts[q].deliveries| {
      var q :| q in b.pasts && q.id == id && |DeliveriesOf(a, q)| < |b.pasts[q].deliveries|;
      assert q in c.pasts && Older(b.pasts[q], c.pasts[q]);
    }
  }

  lemma ServedNext(a: Snapshot, b: Snapshot, c: Snapshot, ids: set<string>, q: TerminalQueue, d: Delivery)
    requires Served(a, b, ids) && Grown(a, b) && SentOne(b, c, q, d)
    ensures Served(a, c, ids + {q.id}) && |DeliveriesOf(a, q)| < |c.pasts[q].deliveries|
  {
    ServedStays(a, b, c, ids);
    if q in a.pasts {
      assert Older(a.pasts[q], b.pasts[q]);
    }
    assert q in c.pasts && q.id == q.id && |DeliveriesOf(a, q)| < |c.pasts[q].deliveries|;
  }

  /** One delivery frame: bounded in records and bytes, and in paced mode at most one record per terminal. */
  ghost predicate Batched(a: Snapshot, b: Snapshot, c: Limits) {
    && Grown(a, b)
    && a.sends <= b.sends <= a.sends + c.batchChunks
    && (b.sends <= a.sends + 1 || b.sentBytes <= a.sentBytes + c.batchBytes)
    && (c.paced ==> forall p | p in b.pasts :: |b.pasts[p].deliveries| <= |DeliveriesOf(a, p)| + 1)
  }

  lemma BatchedSelf(a: Snapshot, c: Limits)
    requires ValidLimits(c)
    ensures Batched(a, a, c) && Grown(a, a) && OneEach(a, a, {})
  {
  }

  lemma BatchedIsGrown(a: Snapshot, b: Snapshot, c: Limits)
    requires Batched(a, b, c)
    ensures Grown(a, b)
  {
  }

  /** A frame under way: the terminals in `ids` were handed something, in paced mode one record each and the others none. */
  ghost predicate Underway(a: Snapshot, b: Snapshot, c: Limits, ids: set<string>) {
    Grown(a, b) && Served(a, b, ids) && (c.paced ==> OneEach(a, b, ids))
  }

  lemma UnderwayIsBatched(a: Snapshot, b: Snapshot, c: Limits, ids: set<string>)
    requires Underway(a, b, c, ids)
    requires a.sends <= b.sends <= a.sends + c.batchChunks
    requires b.sends <= a.sends + 1 || b.sentBytes <= a.sentBytes + c.batchBytes
    ensures Batched(a, b, c)
  {
  }

  lemma UnderwaySelf(a: Snapshot, c: Limits)
    ensures Underway(a, a, c, {})
  {
  }

  /** Moving the cursor changes no history. */
  lemma TurnKeepsUnderway(a: Snapshot, b: Snapshot, b': Snapshot, c: Limits, ids: set<string>)
    requires Underway(a, b, c, ids) && QuietBetween(b, b')
    ensures Underway(a, b', c, ids) && b'.sends == b.sends && b'.sentBytes == b.sentBytes
  {
    QuietIsGrown(b, b');
    GrownTransitive(a, b, b');
    ServedStays(a, b, b', ids);
    if c.paced {
      OneEachStays(a, b, b', ids);
    }
  }

  lemma OneEachStays(a: Snapshot, b: Snapshot, c: Snapshot, ids: set<string>)
    requires OneEach(a, b, ids) && QuietBetween(b, c)
    ensures OneEach(a, c, ids)
  {
    forall p | p in c.pasts ensures |c.pasts[p].deliveries| <= |DeliveriesOf(a, p)| + (if p.id in ids then 1 else 0) {
      if p in b.pasts {
        assert Calm(b.pasts[p], c.pasts[p]);
      }
    }
  }

  lemma SendKeepsUnderway(a: Snapshot, b: Snapshot, b': Snapshot, c: Limits, ids: set<string>, q: TerminalQueue, d: Delivery)
    requires Underway(a, b, c, ids) && SentOne(b, b', q, d) && (c.paced ==> q.id !in ids)
    ensures Underway(a, b', c, ids + {q.id}) && |DeliveriesOf(a, q)| < |b'.pasts[q].deliveries|
    ensures Grown(b, b') && b'.sends == b.sends + 1 && b'.sentBytes == b.sentBytes + |d.payload|
  {
    SentOneIsGrown(b, b', q, d);
    GrownTransitive(a, b, b');
    ServedNext(a, b, b', ids, q, d);
    if c.paced {
      OneEachNext(a, b, b', ids, q, d);
    }
  }

  lemma BatchedIgnoresPumping(a: Snapshot, b: Snapshot, c: Limits, x: bool, y: bool)
    requires Batched(a, b, c)
    ensures Batched(a.(pumping := x), b.(pumping := y), c)
  {
    assert forall p :: DeliveriesOf(a.(pumping := x), p) == DeliveriesOf(a, p);
  }

  /** A list read cyclically from a position. */
  function Rotated<T>(ids: seq<T>, from: nat): seq<T> {
    if from < |ids| then ids[from..] + ids[..from] else ids
  }

  function Without<T(==)>(ids: seq<T>, id: T): seq<T> {
    if ids == [] then [] else (if ids[0] == id then [] else [ids[0]]) + Without(ids[1..], id)
  }

  lemma {:induction false} WithoutAppend<T>(a: seq<T>, b: seq<T>, id: T)
    ensures Without(a + b, id) == Without(a, id) + Without(b, id)
  {
    if a == [] {
      assert a + b == b;
    } else {
      assert (a + b)[1..] == a[1..] + b;
      WithoutAppend(a[1..], b, id);
    }
  }

  lemma {:induction false} WithoutAbsent<T>(ids: seq<T>, id: T)
    requires forall i | 0 <= i < |ids| :: ids[i] != id
    ensures Without(ids, id) == ids
  {
    if ids != [] {
      WithoutAbsent(ids[1..], id);
    }
  }

  lemma WithoutHead<T>(id: T, rest: seq<T>)
    ensures Without([id] + rest, id) == Without(rest, id)
  {
    assert ([id] + rest)[1..] == rest;
    assert [] + Without(rest, id) == Without(rest, id);
  }

  /** Taking out the only entry of that id. */
  lemma WithoutOne<T>(before: seq<T>, id: T, after: seq<T>)
    requires id !in before && id !in after
    ensures Without(before + [id] + after, id) == before + after
  {
    hide Without;
    assert before + [id] + after == before + ([id] + after);
    WithoutAppend(before, [id] + after, id);
    WithoutHead(id, after);
    WithoutAbsent(before, id);
    WithoutAbsent(after, id);
  }

  /** The first entry of the cyclic reading goes. */
  lemma RotationLosesLater<T>(a: seq<T>, b: seq<T>, id: T, c: seq<T>)
    requires id !in a && id !in b && id !in c
    ensures var ids, left := a + b + [id] + c, a + b + c;
            Without(Rotated(ids, |a|), id) == Rotated(left, if |a| >= |left| then 0 else |a|)
  {
    hide Without;
    var ids, left := a + b + [id] + c, a + b + c;
    assert ids[|a|..] == b + [id] + c && ids[..|a|] == a;
    assert b + [id] + c + a == b + [id] + (c + a);
    WithoutOne(b, id, c + a);
    assert left[|a|..] == b + c && left[..|a|] == a;
    assert b + c + a == b + (c + a);
    assert |a| == |left| ==> left == a && b + (c + a) == a;
  }

  lemma RotationLosesEarlier<T>(a: seq<T>, id: T, b: seq<T>, c: seq<T>)
    requires id !in a && id !in b && id !in c && c != []
    ensures var ids, left := a + [id] + b + c, a + b + c;
            Without(Rotated(ids, |a| + 1 + |b|), id) == Rotated(left, |a| + |b|)
  {
    hide Without;
    var ids, left := a + [id] + b + c, a + b + c;
    assert ids[|a| + 1 + |b|..] == c && ids[..|a| + 1 + |b|] == a + [id] + b;
    assert c + (a + [id] + b) == c + a + [id] + b;
    WithoutOne(c + a, id, b);
    assert left[|a| + |b|..] == c && left[..|a| + |b|] == a + b;
    assert c + a + b == c + (a + b);
  }

  /** The list names exactly these ids, each once. */
  ghost predicate Lists<T(!new)>(ids: seq<T>, keys: set<T>) {
    (forall i, j | 0 <= i < j < |ids| :: ids[i] != ids[j]) && forall x :: x in ids <==> x in keys
  }

  lemma ListsWithout<T(!new)>(ids: seq<T>, k: nat, keys: set<T>)
    requires k < |ids| && Lists(ids, keys)
    ensures ids[k] !in ids[..k] && ids[k] !in ids[k + 1..] && Lists(ids[..k] + ids[k + 1..], keys - {ids[k]})
  {
    var left := ids[..k] + ids[k + 1..];
    assert forall i | 0 <= i < |left| :: left[i] == ids[if i < k then i else i + 1];
    assert ids == ids[..k] + [ids[k]] + ids[k + 1..];
  }

  /** An entry goes, and the cursor follows: the cyclic reading loses that entry and is otherwise as it was. */
  lemma RotationLoses<T>(ids: seq<T>, from: nat, k: nat)
    requires k < |ids| && from < |ids| && ids[k] !in ids[..k] && ids[k] !in ids[k + 1..]
    ensures var left := ids[..k] + ids[k + 1..];
            var at := if k < from then from - 1 else from;
            Rotated(left, if at >= |left| then 0 else at) == Without(Rotated(ids, from), ids[k])
  {
    hide Without, Rotated;
    var id := ids[k];
    if k < from {
      var a, b, c := ids[..k], ids[k + 1..from], ids[from..];
      assert ids[..from] == a + [id] + b && ids == ids[..from] + c;
      assert ids[k + 1..] == b + c && a + (b + c) == a + b + c;
      RotationLosesEarlier(a, id, b, c);
    } else {
      var a, b, c := ids[..from], ids[from..k], ids[k + 1..];
      assert ids[..k] == a + b && ids == ids[..k] + [id] + c;
      RotationLosesLater(a, b, id, c);
    }
  }

  /**
   Why a delivery frame ended: it is full, no terminal outside those served has
   anything to send, the next record does not fit any more, or after the last
   hand-over the document or the owner of the record had changed.
   */
  datatype FrameEnd =
    | Full
    | NoneLeft(served: set<string>)
    | TooBig(next: TerminalQueue)
    | Interrupted(q: TerminalQueue, record: Record)

  lemma SentOneIsGrown(a: Snapshot, b: Snapshot, q: TerminalQueue, d: Delivery)
    requires SentOne(a, b, q, d)
    ensures Grown(a, b) && b.sends == a.sends + 1 && b.sentBytes == a.sentBytes + |d.payload|
  {
  }

  /** What replaying and dropping the hydration gate leaves of one queue. */
  ghost predicate Detached(a: View, b: View) {
    && a.past.live && b.past.live && !b.hydrated && b.past.inFlight == {}
    && b.past.events == a.past.events + (if a.past.inFlight == {} then [] else [EReplay])
    && b.past.deliveries == a.past.deliveries && b.past.outcomes == a.past.outcomes
    && b.paused == a.paused && b.closing == a.closing
  }

  /** The registered queues with these ids were detached; every other queue is as it was. */
  ghost predicate DetachedAmong(a: map<TerminalQueue, View>, b: map<TerminalQueue, View>, ids: seq<string>) {
    && a.Keys == b.Keys
    && forall q | q in a :: if a[q].past.live && q.id in ids then Detached(a[q], b[q]) else b[q] == a[q]
  }

  lemma NoneDetached(a: map<TerminalQueue, View>)
    ensures DetachedAmong(a, a, [])
  {
  }

  /** Detaching twice is detaching once: replay leaves nothing in flight to replay. */
  lemma DetachedTwice(a: map<TerminalQueue, View>, b: map<TerminalQueue, View>, c: map<TerminalQueue, View>, ids: seq<string>)
    requires DetachedAmong(a, b, ids) && DetachedAmong(b, c, ids)
    ensures DetachedAmong(a, c, ids)
  {
  }

  lemma DetachedNext(a: map<TerminalQueue, View>, b: map<TerminalQueue, View>, c: map<TerminalQueue, View>,
                     ids: seq<string>, q: TerminalQueue)
    requires DetachedAmong(a, b, ids) && q in b && b.Keys == c.Keys && q.id !in ids
    requires Detached(b[q], c[q]) && forall p | p in b && p != q :: c[p] == b[p]
    requires forall p | p in b && b[p].past.live && p.id == q.id :: p == q
    ensures DetachedAmong(a, c, ids + [q.id])
  {
  }

  class PtyEgressScheduler {
    const limits: Limits
    var queues: map<string, TerminalQueue>
    var order: seq<string>
    var cursor: nat
    var rendererReady: bool
    var windowGeneration: int
    var rendererGeneration: int
    var disposed: bool
    var timerArmed: bool
    var pumping: bool

    /** Every queue ever registered. */
    ghost var all: set<TerminalQueue>
    /** Hand-overs to the transport so far, and the bytes they carried. */
    ghost var sends: nat
    ghost var sentBytes: nat

    // -------------------------------------------------------- invariant

    ghost predicate QueueOk(q: TerminalQueue)
      reads `rendererReady, q
    {
      && q.Mirrors()
      && !q.delivered
      && q.Retained() <= limits.maxQueueBytes
      && q.RetainedCount() <= limits.maxQueueChunks
      && (q.hydrated ==> rendererReady)
      && (q.inFlight.Keys != {} ==> q.hydrated)
      && (forall w | w in q.outcomes :: !q.outcomes[w])
      && q.WaitersOk()
    }

    /** A paused source that could make progress really holds more than low water. */
    ghost predicate NotWedged(q: TerminalQueue)
      reads `rendererReady, q
    {
      Roomy(limits) && !q.oversized && q.paused && !q.closing && rendererReady && q.hydrated
      ==> q.Retained() > limits.lowWaterBytes || q.RetainedCount() > limits.lowWaterChunks
    }

    ghost predicate OrderOk()
      reads `order, `cursor, `queues
    {
      Lists(order, queues.Keys) && (cursor < |order| || cursor == 0)
    }

    ghost predicate LifecycleOk()
      reads this
    {
      && ValidLimits(limits)
      && (rendererReady ==> 1 <= windowGeneration <= MAX_SAFE_INTEGER && 1 <= rendererGeneration <= MAX_SAFE_INTEGER)
      && (timerArmed ==> rendererReady && !disposed && !pumping)
      && (disposed ==> forall id :: id !in queues)
    }

    ghost predicate QueuesOk()
      reads `queues, `all, `rendererReady, all
    {
      && (forall id | id in queues :: queues[id] in all && queues[id].id == id && queues[id].live)
      && (forall q | q in all && q.live :: q.id in queues && queues[q.id] == q && QueueOk(q))
      && (forall q | q in all && !q.live :: q.Gone())
    }

    ghost predicate Base()
      reads this, all
    {
      LifecycleOk() && OrderOk() && QueuesOk()
    }

    ghost predicate WedgeFreeBut(skip: TerminalQueue?)
      reads `all, `rendererReady, all
    {
      forall q | q in all && q.live && q != skip :: NotWedged(q)
    }

    ghost predicate Valid()
      reads this, all
    {
      Base() && WedgeFreeBut(null)
    }

    predicate CanDeliver(q: TerminalQueue)
      reads `rendererReady, q
    {
      rendererReady && q.hydrated
    }

    ghost predicate Deliverable()
      reads `all, `rendererReady, all
    {
      exists q :: q in all && q.live && q.chunks != [] && CanDeliver(q)
    }

    /** Outside a pump, whatever can be delivered has an armed timer. */
    ghost predicate TimerOk()
      reads `all, `rendererReady, `pumping, `timerArmed, all
    {
      !pumping && Deliverable() ==> timerArmed
    }

    /** Only `q` and the timer may differ from the old state. */
    twostate predicate Touched(q: TerminalQueue)
      reads `queues, `order, `cursor, `rendererReady, `windowGeneration, `rendererGeneration, `disposed, `pumping, `all, all
    {
      && unchanged(`queues, `order, `cursor, `rendererReady, `windowGeneration, `rendererGeneration, `disposed, `pumping, `all)
      && q in all && q.live == old(q.live)
      && (forall p | p in all && p != q :: unchanged(p))
    }

    ghost function Snap(): Snapshot
      reads `windowGeneration, `rendererGeneration, `disposed, `pumping, `sends, `sentBytes, `all, all
    {
      Snapshot(map q | q in all :: q.Log(), windowGeneration, rendererGeneration, disposed, pumping, sends, sentBytes)
    }

    twostate predicate Quiet()
      reads `windowGeneration, `rendererGeneration, `disposed, `pumping, `sends, `sentBytes, `all, all
    {
      QuietBetween(old(Snap()), Snap())
    }

    /** The call left the whole state as it was. */
    twostate predicate Nothing()
      reads this, all
    {
      unchanged(this) && forall q | q in all :: unchanged(q)
    }

    twostate lemma NothingIsQuiet()
      requires Nothing()
      ensures Quiet()
    {
    }

    twostate lemma TouchedKeepsQueuesOk(q: TerminalQueue)
      requires old(QueuesOk()) && Touched(q) && q.live && QueueOk(q)
      ensures QueuesOk()
    {
    }

    twostate lemma TouchedKeepsWedgeFree(q: TerminalQueue)
      requires old(WedgeFreeBut(q)) && Touched(q) && NotWedged(q)
      ensures WedgeFreeBut(null)
    {
    }

    twostate lemma TouchedIsQuiet(q: TerminalQueue)
      requires Touched(q) && Calm(old(q.Log()), q.Log()) && unchanged(`sends, `sentBytes)
      ensures Quiet()
    {
    }

    /** A released queue may still change in ways its own invariant does not see. */
    twostate lemma TouchedGoneKeepsValid(q: TerminalQueue)
      requires old(Base()) && old(WedgeFreeBut(q)) && Touched(q) && !q.live && q.Gone() && timerArmed == old(timerArmed)
      ensures Valid()
    {
    }

    /** A calm change of one queue that keeps its own invariant keeps the whole one. */
    twostate lemma TouchedKeepsBase(q: TerminalQueue)
      requires old(Base()) && Touched(q) && q.live && QueueOk(q) && timerArmed == old(timerArmed)
      ensures Base()
    {
      TouchedKeepsQueuesOk(q);
    }

    twostate lemma TouchedKeepsValid(q: TerminalQueue)
      requires old(Base()) && old(WedgeFreeBut(q)) && Touched(q) && q.live && QueueOk(q) && NotWedged(q) && timerArmed == old(timerArmed)
      ensures Valid()
    {
      TouchedKeepsBase(q);
      TouchedKeepsWedgeFree(q);
    }

    twostate lemma TouchedKeepsDeliverable(q: TerminalQueue)
      requires Touched(q) && q.chunks == old(q.chunks) && q.hydrated == old(q.hydrated)
      ensures old(Deliverable()) <==> Deliverable()
    {
    }

    constructor (limits: Limits)
      requires ValidLimits(limits)
      ensures Valid() && TimerOk() && all == {} && this.limits == limits && queues == map[] && order == [] && cursor == 0
      ensures !rendererReady && windowGeneration == 0 && rendererGeneration == 0 && !disposed && !timerArmed && !pumping
    {
      this.limits := limits;
      queues, order, cursor := map[], [], 0;
      rendererReady, windowGeneration, rendererGeneration := false, 0, 0;
      disposed, timerArmed, pumping := false, false, false;
      all, sends, sentBytes := {}, 0, 0;
    }

    // -------------------------------------------------- small operations

    method HasDeliverableChunks() returns (found: bool)
      requires Base()
      ensures found == Deliverable()
    {
      for i := 0 to |order|
        invariant forall k | 0 <= k < i :: queues[order[k]].chunks == [] || !CanDeliver(queues[order[k]])
      {
        var q := queues[order[i]];
        if q.chunks != [] && CanDeliver(q) {
          return true;
        }
      }
      found := false;
    }

    lemma DisposedDeliversNothing()
      requires Valid()
      ensures disposed ==> !Deliverable()
    {
    }

    method SchedulePump()
      requires Valid()
      modifies `timerArmed
      ensures Valid() && TimerOk()
      ensures timerArmed <==> old(timerArmed) || (!pumping && Deliverable())
    {
      hide QueuesOk, WedgeFreeBut, OrderOk;
      DisposedDeliversNothing();
      if disposed || !rendererReady || timerArmed || pumping {
        return;
      }
      var any := HasDeliverableChunks();
      if any {
        timerArmed := true;
      }
    }
  
    /** A source's pause makes no calls back. */
    method PauseSource(q: TerminalQueue)
      modifies q`paused
      ensures q.paused
    {
      q.paused := true;
    }

    method PositionOf(id: string) returns (index: nat)
      requires id in order
      ensures index < |order| && order[index] == id
    {
      index := 0;
      while order[index] != id
        invariant index < |order| && id in order[index..]
        decreases |order| - index
      {
        index := index + 1;
      }
    }

    lemma IsListed(id: string)
      requires OrderOk()
      ensures id in order <==> id in queues
    {
    }

    /** Take the queue out of the rotation, keeping the cursor on the same successor. */
    method Unlist(id: string)
      requires OrderOk() && id in queues
      modifies `order, `cursor, `queues
      ensures OrderOk() && queues == old(queues) - {id} && Rotation() == Without(old(Rotation()), id)
    {
      hide Without, Rotated, Lists;
      IsListed(id);
      queues := queues - {id};
      var index := PositionOf(id);
      ListsWithout(order, index, old(queues.Keys));
      RotationLoses(order, cursor, index);
      order := order[..index] + order[index + 1..];
      if index < cursor {
        cursor := cursor - 1;
      }
      if cursor >= |order| {
        cursor := 0;
      }
    }

    /** Every other queue is as it was, and the rotation lost exactly `q`: whose turn it is stays. */
    twostate predicate Dropped(q: TerminalQueue)
      reads this, all
    {
      && all == old(all) && rendererReady == old(rendererReady)
      && q in all && old(q.live) && !q.live
      && (forall p | p in all && p != q :: unchanged(p))
      && queues == old(queues) - {q.id} && Rotation() == Without(old(Rotation()), q.id)
    }

    twostate lemma DroppedKeepsQueuesOk(q: TerminalQueue)
      requires old(QueuesOk()) && Dropped(q) && q.Gone()
      ensures QueuesOk()
    {
    }

    twostate lemma DroppedKeepsValid(q: TerminalQueue)
      requires old(Valid()) && Dropped(q) && q.Gone() && LifecycleOk() && OrderOk()
      ensures Valid()
    {
      DroppedKeepsQueuesOk(q);
    }

    twostate lemma DroppedIsQuiet(q: TerminalQueue)
      requires Dropped(q) && Calm(old(q.Log()), q.Log())
      requires unchanged(`windowGeneration, `rendererGeneration, `disposed, `pumping, `sends, `sentBytes)
      ensures Quiet()
    {
    }

    method DropQueue(q: TerminalQueue, delivered: bool)
      requires LifecycleOk() && OrderOk() && q in all && q.live && QueueOk(q)
      requires q.id in queues && (delivered ==> q.Drained())
      modifies `order, `cursor, `queues, q
      ensures LifecycleOk() && OrderOk() && Dropped(q)
      ensures q.delivered == delivered && q.Gone() && q.events == old(q.events) && q.deliveries == old(q.deliveries)
      ensures forall w | w in old(q.outcomes) :: w in q.outcomes && q.outcomes[w] == old(q.outcomes)[w]
      ensures forall w | w in old(q.finishWaiters) && w !in old(q.outcomes) :: w in q.outcomes && q.outcomes[w] == delivered
    {
      Unlist(q.id);
      q.Release(delivered);
    }

    method RemoveQueue(q: TerminalQueue, delivered: bool)
      requires Valid() && q in all && (delivered && q.live ==> q.Drained())
      modifies `order, `cursor, `queues, q
      ensures Valid() && Quiet() && !q.live
      ensures if old(q.live) then Dropped(q) && q.delivered == delivered else Nothing()
      ensures q.events == old(q.events)
      ensures old(q.live) ==> forall w | w in old(q.finishWaiters) && w !in old(q.outcomes) :: w in q.outcomes && q.outcomes[w] == delivered
    {
      hide QueuesOk, WedgeFreeBut, Quiet, Base, Valid;
      RegisteredIsLive(q);
      if q.id in queues && queues[q.id] == q {
        LiveIsOk(q);
        DropQueue(q, delivered);
        DroppedKeepsValid(q);
        DroppedIsQuiet(q);
      } else {
        NothingIsQuiet();
      }
    }

    lemma RegisteredIsLive(q: TerminalQueue)
      requires Valid() && q in all
      ensures q.live <==> q.id in queues && queues[q.id] == q
      ensures LifecycleOk() && OrderOk()
    {
    }

    lemma MirrorsOf(q: TerminalQueue)
      requires QueueOk(q)
      ensures q.Mirrors()
    {
    }

    lemma ValidParts(q: TerminalQueue?)
      requires Valid()
      ensures Base() && WedgeFreeBut(q)
    {
    }

    lemma LiveIsOk(q: TerminalQueue)
      requires Valid() && q in all && q.live
      ensures QueueOk(q) && NotWedged(q) && ValidLimits(limits) && q.id in queues && queues[q.id] == q
    {
    }

    method SchedulePumpIfNeeded()
      requires Valid()
      modifies `timerArmed
      ensures Valid() && TimerOk() && (timerArmed <==> old(timerArmed) || (!pumping && Deliverable()))
    {
      hide Valid, Base;
      ValidParts(null);
      if rendererReady {
        var any := HasDeliverableChunks();
        if any {
          SchedulePump();
        }
      }
    }

    // ------------------------------------------------------- admission

    /** The registered queue a call with this identity addresses, if any. */
    function Lookup(id: string, generation: int): TerminalQueue?
      reads `queues
    {
      if id in queues && queues[id].terminalGeneration == generation then queues[id] else null
    }

    /** There is room for a quantum of `n` bytes below both high-water marks. */
    predicate Room(q: TerminalQueue, n: nat)
      reads q
    {
      && n <= CHUNK_BYTES
      && q.Retained() + n <= limits.maxQueueBytes
      && q.RetainedCount() + (if TailTakes(q, n) then 0 else 1) <= limits.maxQueueChunks
    }

    predicate TailTakes(q: TerminalQueue, n: nat)
      reads q
    {
      && limits.paced && q.chunks != []
      && var tail := q.chunks[|q.chunks| - 1];
         tail.Data? && !tail.sealed && |tail.bytes| + n <= CHUNK_BYTES
    }

    /** Append a quantum there is room for; a queue that reached a high-water mark pauses its source. */
    method AdmitQuantum(q: TerminalQueue, data: seq<Byte>)
      requires ValidLimits(limits) && QueueOk(q) && NotWedged(q) && !q.closing && data != [] && Room(q, |data|)
      modifies q`chunks, q`queuedBytes, q`nextSequence, q`events, q`paused
      ensures QueueOk(q) && NotWedged(q)
      ensures q.events == old(q.events) + [EAdmit(data, limits.paced)]
      ensures q.paused <==> old(q.paused) || q.Retained() >= limits.maxQueueBytes || q.RetainedCount() >= limits.maxQueueChunks
    {
      q.Append(data, limits.paced);
      if q.Retained() >= limits.maxQueueBytes || q.RetainedCount() >= limits.maxQueueChunks {
        PauseSource(q);
      }
    }

    /** Admit or refuse one quantum; a refusal pauses the source and changes nothing else. */
    method Offer(q: TerminalQueue, data: seq<Byte>) returns (accepted: bool)
      requires ValidLimits(limits) && QueueOk(q) && NotWedged(q) && q.live && !q.closing && data != []
      modifies q`chunks, q`queuedBytes, q`nextSequence, q`events, q`paused, q`oversized
      ensures QueueOk(q) && NotWedged(q)
      ensures accepted == old(Room(q, |data|))
      ensures q.events == old(q.events) + (if accepted then [EAdmit(data, limits.paced)] else [])
      ensures !accepted ==> !Room(q, |data|) && unchanged(q`chunks, q`queuedBytes, q`nextSequence, q`events)
      ensures q.oversized <==> old(q.oversized) || |data| > CHUNK_BYTES
      ensures q.paused <==> old(q.paused) || !accepted
                            || q.Retained() >= limits.maxQueueBytes || q.RetainedCount() >= limits.maxQueueChunks
    {
      if |data| > CHUNK_BYTES {
        q.oversized := true;
        PauseSource(q);
        return false;
      }
      if q.Retained() + |data| > limits.maxQueueBytes
         || q.RetainedCount() + (if TailTakes(q, |data|) then 0 else 1) > limits.maxQueueChunks {
        PauseSource(q);
        return false;
      }
      AdmitQuantum(q, data);
      return true;
    }

    method OfferLive(q: TerminalQueue, data: seq<Byte>) returns (accepted: bool)
      requires Valid() && q in all && q.live && !q.closing && data != []
      modifies q
      ensures Valid() && Quiet() && Touched(q)
      ensures accepted == old(Room(q, |data|))
      ensures q.events == old(q.events) + (if accepted then [EAdmit(data, limits.paced)] else [])
      ensures !accepted ==> q.paused && !Room(q, |data|) && (old(Deliverable()) <==> Deliverable())
    {
      hide Valid, Base, Quiet, QueueOk, NotWedged, Room, Deliverable;
      LiveIsOk(q);
      ValidParts(q);
      accepted := Offer(q, data);
      TouchedKeepsValid(q);
      TouchedIsQuiet(q);
      if !accepted {
        TouchedKeepsDeliverable(q);
      }
    }

    method EnqueueLive(q: TerminalQueue, data: seq<Byte>) returns (accepted: bool)
      requires Valid() && q in all && q.live && !q.closing && data != []
      modifies `timerArmed, q
      ensures Valid() && Quiet() && Touched(q) && (old(TimerOk()) ==> TimerOk())
      ensures accepted == old(Room(q, |data|))
      ensures q.events == old(q.events) + (if accepted then [EAdmit(data, limits.paced)] else [])
      ensures !accepted ==> q.paused && !Room(q, |data|) && unchanged(`timerArmed)
    {
      hide Valid, Quiet, Touched, Room;
      accepted := OfferLive(q, data);
      if accepted {
        SchedulePump();
      }
    }

    method Enqueue(id: string, generation: int, data: seq<Byte>) returns (accepted: bool)
      requires Valid()
      modifies this, all
      ensures Valid() && Quiet() && (old(TimerOk()) ==> TimerOk())
      ensures var q := old(Lookup(id, generation));
              if q == null || old(q.closing) then !accepted && Nothing()
              else if data == [] then accepted && Nothing()
              else
                && Touched(q)
                && accepted == old(Room(q, |data|))
                && q.events == old(q.events) + (if accepted then [EAdmit(data, limits.paced)] else [])
                && (!accepted ==> q.paused && !Room(q, |data|) && unchanged(`timerArmed))
    {
      hide Valid, Quiet, Touched, Room;
      var q := Lookup(id, generation);
      LookupIsLive(id, generation);
      if q == null || q.closing || data == [] {
        accepted := q != null && !q.closing;
        NothingIsQuiet();
      } else {
        accepted := EnqueueLive(q, data);
      }
    }
  
    // -------------------------------------------------- exit and release

    /** Mark the exit of one registered queue when it holds no data any more. */
    method QueueExitOf(q: TerminalQueue)
      requires Valid() && q in all
      modifies q`exitQueued, q`chunks, q`nextSequence, q`events
      ensures Valid() && Quiet() && Touched(q)
      ensures q.live ==> q.events == old(q.events) + [EMarkExit] && q.Now() == MarkExit(old(q.Now()))
      ensures !q.live ==> q.events == old(q.events)
      ensures !q.closing ==> unchanged(q`chunks)
    {
      hide Valid, Base, Quiet, Run, Faithful;
      if q.live {
        LiveIsOk(q);
      } else {
        GoneIsGone(q);
      }
      ValidParts(q);
      q.QueueExit();
      if q.live {
        TouchedKeepsValid(q);
      } else {
        TouchedGoneKeepsValid(q);
      }
      TouchedIsQuiet(q);
    }

    lemma GoneIsGone(q: TerminalQueue)
      requires Valid() && q in all && !q.live
      ensures q.Gone()
    {
    }
  
    /** A registered closing queue without data has its exit marker, and a drained one was released if it could be. */
    ghost predicate Settled(q: TerminalQueue)
      reads `rendererReady, q
    {
      q.live ==> !(q.Drained() && CanDeliver(q)) && (q.Now().finishCode.Some? && !HoldsData(q.Now()) ==> q.Now().exitQueued)
    }

    /** Release a closing queue once its exit marker, too, was acknowledged. */
    method MaybeFinishQueue(q: TerminalQueue)
      requires Valid() && q in all
      modifies `order, `cursor, `queues, q
      ensures Valid() && Quiet() && all == old(all)
      ensures forall p | p in all && p != q :: unchanged(p)
      ensures unchanged(`rendererReady, `windowGeneration, `rendererGeneration, `disposed)
      ensures old(q.live) ==> q.events == old(q.events) + [EMarkExit]
      ensures q.live ==> old(q.live) && queues == old(queues) && q.finishWaiters == old(q.finishWaiters) && q.outcomes == old(q.outcomes)
      ensures q.live ==> q.hydrated == old(q.hydrated)
      ensures old(q.live) && !q.live ==>
                forall w | w in old(q.finishWaiters) && w !in old(q.outcomes) :: w in q.outcomes && q.outcomes[w]
      ensures old(q.live) ==> (!q.live <==> q.Drained() && old(CanDeliver(q)))
      ensures old(q.live) && !q.live ==> q.delivered && queues == old(queues) - {q.id}
      ensures Settled(q) && (q.live && !old(Resumable(q)) ==> !Resumable(q))
    {
      hide Valid, Base, QuietBetween, Snap, QueueOk, NotWedged;
      ghost var s0 := Snap();
      QueueExitOf(q);
      ghost var s1 := Snap();
      if q.live {
        LiveIsOk(q);
        MirrorsOf(q);
        q.DrainedIff();
      }
      if q.closing && q.exitQueued && q.RetainedCount() == 0 && CanDeliver(q) {
        RemoveQueue(q, true);
        QuietTransitive(s0, s1, Snap());
      }
    }
  
    twostate lemma DroppedKeepsTimer(q: TerminalQueue)
      requires Dropped(q) && timerArmed == old(timerArmed) && pumping == old(pumping)
      ensures old(TimerOk()) ==> TimerOk()
    {
    }

    /** User-initiated close or teardown. */
    method Cancel(id: string, generation: int)
      requires Valid()
      modifies this, all
      ensures Valid() && Quiet() && (old(TimerOk()) ==> TimerOk())
      ensures var q := old(Lookup(id, generation));
              if q == null then Nothing() else Dropped(q) && !q.delivered
    {
      var q := Lookup(id, generation);
      hide Valid, Base, QuietBetween, Snap, QueueOk, NotWedged;
      LookupIsLive(id, generation);
      if q == null {
        NothingIsQuiet();
        return;
      }
      RemoveQueue(q, false);
      DroppedKeepsTimer(q);
    }

    lemma LookupIsLive(id: string, generation: int)
      requires Valid()
      ensures Lookup(id, generation) != null ==> Lookup(id, generation) in all && Lookup(id, generation).live
    {
    }

    // ------------------------------------------------------ registration

    /** The state gained exactly the queue `q`, registered last. */
    twostate predicate Added(new q: TerminalQueue)
      reads this, all
    {
      && all == old(all) + {q} && q !in old(all) && q.id !in old(queues) && queues == old(queues)[q.id := q]
      && order == old(order) + [q.id]
      && unchanged(`cursor, `rendererReady, `windowGeneration, `rendererGeneration, `disposed, `timerArmed, `pumping, `sends, `sentBytes)
      && (forall p | p in old(all) :: unchanged(p))
      && q.live && q.events == [] && q.deliveries == [] && q.inFlight.Keys == {} && q.chunks == []
      && !q.paused && !q.closing && !q.hydrated
    }

    twostate lemma AddedKeepsValid(new q: TerminalQueue)
      requires old(Valid()) && Added(q) && QueueOk(q) && NotWedged(q) && !disposed
      ensures Valid()
    {
      hide QueueOk, NotWedged;
      AddedKeepsOrder(q);
      AddedKeepsQueues(q);
    }

    twostate lemma AddedKeepsOrder(new q: TerminalQueue)
      requires old(OrderOk()) && Added(q)
      ensures OrderOk()
    {
      hide QueueOk, NotWedged;
    }

    twostate lemma AddedKeepsQueues(new q: TerminalQueue)
      requires old(QueuesOk()) && Added(q) && QueueOk(q)
      ensures QueuesOk()
    {
    }

    twostate lemma AddedIsQuiet(new q: TerminalQueue)
      requires Added(q)
      ensures Quiet()
    {
      hide Calm;
      forall p | p in old(all) ensures Calm(old(p.Log()), p.Log()) {
        CalmSelf(p.Log());
      }
    }

    twostate lemma AddedKeepsTimer(new q: TerminalQueue)
      requires Added(q)
      ensures old(TimerOk()) ==> TimerOk()
    {
    }

    method Register(id: string, generation: int) returns (r: RegisterResult)
      requires Valid()
      modifies this
      ensures Valid() && Quiet() && fresh(all - old(all)) && (old(TimerOk()) ==> TimerOk())
      ensures r == if old(disposed) then IgnoredDisposed
                   else if id == "" || !SafeInteger(generation) || generation < 1 then ThrowsInvalidGeneration
                   else if id in old(queues) then ThrowsAlreadyRegistered
                   else Registered
      ensures if r.Registered? then id in queues && Added(queues[id]) && queues[id].id == id && queues[id].terminalGeneration == generation
              else Nothing()
    {
      if disposed || id == "" || !SafeInteger(generation) || generation < 1 || id in queues {
        hide Valid;
        NothingIsQuiet();
        return if disposed then IgnoredDisposed
               else if id == "" || !SafeInteger(generation) || generation < 1 then ThrowsInvalidGeneration
               else ThrowsAlreadyRegistered;
      }
      AddQueue(id, generation);
      return Registered;
    }

    method AddQueue(id: string, generation: int)
      requires Valid() && !disposed && id !in queues
      modifies `queues, `order, `all
      ensures Valid() && Quiet() && fresh(all - old(all)) && (old(TimerOk()) ==> TimerOk())
      ensures id in queues && Added(queues[id]) && queues[id].id == id && queues[id].terminalGeneration == generation
    {
      hide Valid, Base, QuietBetween, Snap, QueueOk, NotWedged, Deliverable;
      LimitsOk();
      var q := new TerminalQueue(id, generation);
      NewQueueOk(q);
      queues := queues[id := q];
      order := order + [id];
      all := all + {q};
      AddedKeepsValid(q);
      AddedIsQuiet(q);
      AddedKeepsTimer(q);
    }

    lemma LimitsOk()
      requires Valid()
      ensures ValidLimits(limits)
    {
    }

    lemma NewQueueOk(q: TerminalQueue)
      requires ValidLimits(limits) && q.Mirrors() && q.events == [] && q.outcomes == map[] && q.finishWaiters == []
      requires !q.delivered && !q.paused && !q.hydrated
      ensures QueueOk(q) && NotWedged(q)
    {
      EmptyRun();
    }

    lemma EmptyRun()
      ensures Run([]) == EmptyLedger
    {
    }
  
    // ------------------------------------------------------------ finish

    /** First finish of a terminal: no more admissions, and the source stops. */
    method CloseQueue(q: TerminalQueue, code: int)
      requires Valid() && q in all && q.live && !q.closing
      modifies q`closing, q`finishCode, q`events, q`paused
      ensures Valid() && Quiet() && Touched(q) && q.closing && q.paused
      ensures q.events == old(q.events) + [EClose(if SafeInteger(code) then code else 0)]
    {
      hide Valid, Base, Quiet, NotWedged;
      LiveIsOk(q);
      ValidParts(q);
      q.Close(code);
      PauseSource(q);
      ClosingIsNotWedged(q);
      TouchedKeepsValid(q);
      TouchedIsQuiet(q);
    }

    lemma ClosingIsNotWedged(q: TerminalQueue)
      requires q.closing
      ensures NotWedged(q)
    {
    }

    method AddWaiter(q: TerminalQueue) returns (w: int)
      requires Valid() && q in all && q.live
      modifies q`finishWaiters, q`nextWaiter
      ensures Valid() && Quiet() && Touched(q) && q.events == old(q.events)
      ensures w in q.finishWaiters && w !in q.outcomes && q.finishWaiters == old(q.finishWaiters) + [w]
    {
      hide Valid, Base, Quiet, NotWedged, Run, Faithful;
      LiveIsOk(q);
      ValidParts(q);
      w := q.nextWaiter;
      q.nextWaiter := w + 1;
      q.finishWaiters := q.finishWaiters + [w];
      TouchedKeepsValid(q);
      TouchedIsQuiet(q);
    }

    method BeginFinish(q: TerminalQueue, code: int)
      requires Valid() && q in all && q.live
      modifies q`closing, q`finishCode, q`events, q`paused, q`exitQueued, q`chunks, q`nextSequence
      ensures Valid() && Quiet() && Touched(q) && q.closing
      ensures q.events == old(q.events) + Closing(old(q.closing), code) + [EMarkExit]
    {
      hide Valid, Base, QuietBetween, Snap, QueueOk, NotWedged;
      ghost var s0 := Snap();
      if !q.closing {
        CloseQueue(q, code);
      } else {
        NothingIsQuiet();
      }
      ghost var s1 := Snap();
      if q.live {
        LiveIsOk(q);
      }
      QueueExitOf(q);
      QuietTransitive(s0, s1, Snap());
    }

    ghost function Closing(closing: bool, code: int): seq<Event> {
      if closing then [] else [EClose(if SafeInteger(code) then code else 0)]
    }

    method FinishQueue(q: TerminalQueue, code: int) returns (w: int)
      requires Valid() && q in all && q.live
      modifies `order, `cursor, `queues, `timerArmed, q
      ensures Valid() && Quiet() && TimerOk() && all == old(all)
      ensures q.events == old(q.events) + Closing(old(q.closing), code) + [EMarkExit] + [EMarkExit]
      ensures forall p | p in all && p != q :: unchanged(p)
      ensures if q.live then w in q.finishWaiters else q.delivered && w in q.outcomes && q.outcomes[w]
    {
      hide Valid, Base, QuietBetween, Snap, QueueOk, NotWedged, Settled, Resumable, Deliverable;
      ghost var s0 := Snap();
      BeginFinish(q, code);
      ghost var s1 := Snap();
      w := AddWaiter(q);
      ghost var s2 := Snap();
      QuietTransitive(s0, s1, s2);
      MaybeFinishQueue(q);
      QuietTransitive(s0, s2, Snap());
      SchedulePump();
    }

    /** Natural exit: the promise settles when the marker is acknowledged, or false at the deadline. */
    method Finish(id: string, generation: int, code: int, timeoutMs: int) returns (r: FinishResult)
      requires Valid()
      modifies this, all
      ensures Valid() && Quiet() && all == old(all) && (old(TimerOk()) ==> TimerOk())
      ensures var q := old(Lookup(id, generation));
              if !SafeInteger(timeoutMs) || timeoutMs < 0 then r == ThrowsInvalidTimeout && Nothing()
              else if q == null then r == ResolvedFalse && Nothing()
              else
                && r.Waiting?
                && q.events == old(q.events) + Closing(old(q.closing), code) + [EMarkExit] + [EMarkExit]
                && (forall p | p in old(all) && p != q :: unchanged(p))
                && (if q.live then r.waiter in q.finishWaiters
                    else q.delivered && r.waiter in q.outcomes && q.outcomes[r.waiter])
    {
      var q := Lookup(id, generation);
      hide Valid, Base, QuietBetween, Snap, QueueOk, NotWedged;
      LookupIsLive(id, generation);
      if !SafeInteger(timeoutMs) || timeoutMs < 0 || q == null {
        NothingIsQuiet();
        return if !SafeInteger(timeoutMs) || timeoutMs < 0 then ThrowsInvalidTimeout else ResolvedFalse;
      }
      var w := FinishQueue(q, code);
      return Waiting(w);
    }

    /** The deadline of one pending finish: it settles false, the queue stays. */
    method FinishTimeout(q: TerminalQueue, w: int)
      requires Valid() && q in all
      modifies q`finishWaiters, q`outcomes
      ensures Valid() && Quiet() && Touched(q) && (old(TimerOk()) ==> TimerOk())
      ensures old(q.live && w in q.finishWaiters) ==> w in q.outcomes && !q.outcomes[w]
      ensures !old(q.live && w in q.finishWaiters) ==> unchanged(q)
    {
      hide Valid, Base, QuietBetween, Snap, NotWedged, Run, Faithful;
      if w !in q.finishWaiters {
        NothingIsQuiet();
        return;
      }
      if !q.live {
        GoneHasNoWaiters(q);
      }
      LiveIsOk(q);
      ValidParts(q);
      q.Expire(w);
      TouchedKeepsValid(q);
      TouchedIsQuiet(q);
      TouchedKeepsDeliverable(q);
    }

    lemma GoneHasNoWaiters(q: TerminalQueue)
      requires Valid() && q in all && !q.live
      ensures q.finishWaiters == []
    {
    }
  
    // ------------------------------------------- callbacks and re-entry

    /** The source may be resumed: deliverable, and at or below both low-water marks. */
    predicate Resumable(q: TerminalQueue)
      reads `rendererReady, q
    {
      && q.paused && !q.closing && CanDeliver(q)
      && q.Retained() <= limits.lowWaterBytes && q.RetainedCount() <= limits.lowWaterChunks
    }

    /** Nothing is left to do for the queue: no resume, no exit marker, no release. */
    ghost predicate Attended(q: TerminalQueue)
      reads `rendererReady, q
    {
      Settled(q) && (q.live ==> !Resumable(q))
    }

    /** Clear the pause flag of a queue that drained below low water. */
    method Unpause(q: TerminalQueue)
      requires Base() && WedgeFreeBut(q) && q in all
      modifies q`paused
      ensures Valid() && Quiet() && Touched(q) && Unpaused(q) && (old(TimerOk()) ==> TimerOk())
    {
      hide Valid, Base, QuietBetween, Snap, QueueOk, NotWedged, Run, Faithful;
      q.paused := false;
      UnpausedKeepsValid(q);
      TouchedIsQuiet(q);
      TouchedKeepsDeliverable(q);
    }

    /** `q` is as it was, except that its source is no longer paused. */
    twostate predicate Unpaused(q: TerminalQueue)
      reads q
    {
      && !q.paused
      && unchanged(q`chunks, q`queuedBytes, q`inFlight, q`inFlightBytes, q`nextSequence, q`finishCode, q`exitQueued)
      && unchanged(q`closing, q`events, q`deliveries, q`live, q`delivered, q`hydrated, q`outcomes, q`finishWaiters, q`nextWaiter)
    }

    twostate lemma UnpausedKeepsValid(q: TerminalQueue)
      requires old(Base()) && old(WedgeFreeBut(q)) && Touched(q) && Unpaused(q) && timerArmed == old(timerArmed)
      ensures Valid()
    {
      BaseGave(q);
      hide Valid, Base, QueuesOk, WedgeFreeBut;
      NotResumableIsNotWedged(q);
      if q.live {
        TouchedKeepsValid(q);
      } else {
        TouchedGoneKeepsValid(q);
      }
    }

    twostate lemma BaseGave(q: TerminalQueue)
      requires old(Base()) && Touched(q) && Unpaused(q)
      ensures if q.live then QueueOk(q) else q.Gone()
    {
    }

    lemma NotResumableIsNotWedged(q: TerminalQueue)
      requires !Resumable(q)
      ensures NotWedged(q)
    {
    }

    twostate lemma QuietKeeps(q: TerminalQueue)
      requires q in old(all) && Quiet()
      ensures q in all && old(q.events) <= q.events && q.inFlight.Keys <= old(q.inFlight.Keys) && (q.live ==> old(q.live))
      ensures pumping == old(pumping)
    {
      assert Calm(old(Snap()).pasts[q], Snap().pasts[q]);
    }

    /** Any finite number of public calls, nested to any depth below `depth`. */
    method React(depth: nat)
      requires Valid()
      modifies this, all
      ensures Valid() && Quiet() && fresh(all - old(all)) && (old(TimerOk()) ==> TimerOk())
      ensures depth == 0 ==> Nothing()
      decreases depth, 0
    {
      hide Valid, Base, QuietBetween, Snap, TimerOk;
      NothingIsQuiet();
      if depth == 0 {
        return;
      }
      ghost var s0 := Snap();
      var calls: nat := *;
      while calls > 0
        invariant Valid() && QuietBetween(s0, Snap()) && fresh(all - old(all)) && (old(TimerOk()) ==> TimerOk())
        decreases calls
      {
        ghost var s1 := Snap();
        AnyCall(depth - 1);
        QuietTransitive(s0, s1, Snap());
        calls := calls - 1;
      }
    }

    /** One arbitrary public call with arbitrary arguments. */
    method AnyCall(depth: nat)
      requires Valid()
      modifies this, all
      ensures Valid() && Quiet() && fresh(all - old(all)) && (old(TimerOk()) ==> TimerOk())
      decreases depth, 5
    {
      hide Valid, Base, QuietBetween, Snap;
      var which: nat := *;
      var id: string := *;
      var generation: int, w: int, r: int, n: int := *, *, *, *;
      var data: seq<Byte> := *;
      if which == 0 {
        var _ := Enqueue(id, generation, data);
      } else if which == 1 {
        Cancel(id, generation);
      } else if which == 2 {
        var _ := Register(id, generation);
      } else if which == 3 {
        var _ := Finish(id, generation, n, w);
      } else if which == 4 {
        var q := Lookup(id, generation);
        LookupIsLive(id, generation);
        if q != null {
          FinishTimeout(q, n);
        } else {
          NothingIsQuiet();
        }
      } else if which == 5 {
        var _ := Acknowledge(id, generation, w, r, n, depth);
      } else if which == 6 {
        var _ := HydrateTerminal(id, generation, w, r, depth);
      } else if which == 7 {
        var _ := SetRendererReady(w, r, true, depth);
      } else if which == 8 {
        var _ := SetRendererReady(w, r, false, depth);
      } else {
        Dispose();
      }
    }

    /** Resume a drained source; the source may call back at once. */
    method MaybeResumeSource(q: TerminalQueue, depth: nat)
      requires Base() && WedgeFreeBut(q) && q in all
      modifies this, all
      ensures Valid() && Quiet() && fresh(all - old(all)) && (old(TimerOk()) ==> TimerOk())
      ensures old(q.events) <= q.events
      ensures !old(Resumable(q)) ==> Nothing()
      ensures depth == 0 && old(Resumable(q)) ==> Touched(q) && Unpaused(q)
      ensures depth == 0 ==> !Resumable(q) && GatesKept() && unchanged(`rendererReady, `windowGeneration, `rendererGeneration)
      ensures depth == 0 ==> forall p | p in all && p != q :: unchanged(p)
      decreases depth, 1
    {
      hide Base, QuietBetween, Snap, QueueOk, NotWedged;
      if !q.paused || q.closing || !CanDeliver(q) || q.Retained() > limits.lowWaterBytes || q.RetainedCount() > limits.lowWaterChunks {
        NotResumableIsNotWedged(q);
        NothingIsQuiet();
        return;
      }
      hide Valid;
      ghost var s0 := Snap();
      Unpause(q);
      ghost var s1 := Snap();
      label resumed:
      React(depth);
      QuietKeeps@resumed(q);
      QuietTransitive(s0, s1, Snap());
    }
  
    // ----------------------------------------------------- acknowledge

    /** A call that carries the identity of the current renderer document. */
    predicate Current(w: int, r: int)
      reads `rendererReady, `windowGeneration, `rendererGeneration, `disposed
    {
      !disposed && rendererReady && w == windowGeneration && r == rendererGeneration
    }

    method RetireOn(q: TerminalQueue, sequence: int)
      requires Valid() && q in all && q.live && sequence in q.inFlight
      modifies q`inFlight, q`inFlightBytes, q`events
      ensures Base() && WedgeFreeBut(q) && Quiet() && Touched(q) && (old(TimerOk()) ==> TimerOk())
      ensures q.events == old(q.events) + [ERetire(sequence)] && q.inFlight == old(q.inFlight) - {sequence}
    {
      hide Valid, Base, QuietBetween, Snap, NotWedged, Run, Faithful;
      LiveIsOk(q);
      ValidParts(q);
      q.Retire(sequence);
      TouchedKeepsBase(q);
      TouchedIsQuiet(q);
      TouchedKeepsDeliverable(q);
      TouchedWedgeFree(q);
    }

    twostate lemma TouchedWedgeFree(q: TerminalQueue)
      requires old(WedgeFreeBut(q)) && Touched(q)
      ensures WedgeFreeBut(q)
    {
    }

    method AcknowledgeLive(q: TerminalQueue, sequence: int, depth: nat)
      requires Valid() && q in all && q.live && sequence in q.inFlight
      modifies this, all
      ensures Valid() && Quiet() && fresh(all - old(all)) && TimerOk()
      ensures old(q.events) + [ERetire(sequence)] <= q.events && Settled(q)
      ensures depth == 0 ==> all == old(all) && Attended(q) && forall p | p in old(all) && p != q :: unchanged(p)
      decreases depth, 2
    {
      hide Valid, Base, QuietBetween, Snap, WedgeFreeBut, Run, QueueOk, NotWedged, TimerOk, Resumable, Settled;
      ghost var s0 := Snap();
      RetireOn(q, sequence);
      ghost var s1 := Snap();
      label retired:
      MaybeResumeSource(q, depth);
      ghost var s2 := Snap();
      QuietTransitive(s0, s1, s2);
      QuietKeeps@retired(q);
      label resumed:
      MaybeFinishQueue(q);
      QuietKeeps@resumed(q);
      QuietTransitive(s0, s2, Snap());
      SchedulePumpIfNeeded();
    }

    /** The current document confirms one number in flight: that record goes. Any other confirmation is without effect. */
    method Acknowledge(id: string, generation: int, w: int, r: int, sequence: int, depth: nat) returns (ok: bool)
      requires Valid()
      modifies this, all
      ensures Valid() && Quiet() && fresh(all - old(all)) && (old(TimerOk()) ==> TimerOk())
      ensures var q := old(Lookup(id, generation));
              && (ok <==> old(Current(w, r)) && q != null && SafeInteger(sequence) && sequence in old(q.inFlight))
              && (if ok then old(q.events) + [ERetire(sequence)] <= q.events && Settled(q) else Nothing())
              && (ok && depth == 0 ==> all == old(all) && Attended(q) && forall p | p in old(all) && p != q :: unchanged(p))
      decreases depth, 3
    {
      hide Base, QuietBetween, Snap, Attended;
      hide Valid;
      var q := Lookup(id, generation);
      LookupIsLive(id, generation);
      if disposed || !rendererReady || q == null || w != windowGeneration || r != rendererGeneration
         || !SafeInteger(sequence) || sequence !in q.inFlight {
        NothingIsQuiet();
        return false;
      }
      AcknowledgeLive(q, sequence, depth);
      return true;
    }

    // --------------------------------------------------------- hydration

    method HydrateLive(q: TerminalQueue)
      requires Valid() && q in all && q.live && rendererReady
      modifies q`hydrated
      ensures Base() && WedgeFreeBut(q) && Quiet() && Touched(q) && q.hydrated && q.events == old(q.events)
    {
      hide Valid, Base, QuietBetween, Snap, NotWedged, Run, Faithful;
      LiveIsOk(q);
      ValidParts(q);
      q.hydrated := true;
      TouchedKeepsBase(q);
      TouchedIsQuiet(q);
      TouchedWedgeFree(q);
    }

    method HydrateAndDeliver(q: TerminalQueue, depth: nat)
      requires Valid() && q in all && q.live && rendererReady
      modifies this, all
      ensures Valid() && Quiet() && fresh(all - old(all)) && TimerOk()
      ensures Settled(q)
      ensures depth == 0 ==> all == old(all) && (q.live ==> q.hydrated) && Attended(q) && forall p | p in old(all) && p != q :: unchanged(p)
      decreases depth, 2
    {
      hide Valid, Base, QuietBetween, Snap, WedgeFreeBut, Settled, Resumable, Deliverable;
      ghost var s0 := Snap();
      HydrateLive(q);
      ghost var s1 := Snap();
      label hydrated:
      MaybeResumeSource(q, depth);
      QuietKeeps@hydrated(q);
      ghost var s2 := Snap();
      QuietTransitive(s0, s1, s2);
      MaybeFinishQueue(q);
      QuietTransitive(s0, s2, Snap());
      SchedulePump();
    }

    method HydrateTerminal(id: string, generation: int, w: int, r: int, depth: nat) returns (ok: bool)
      requires Valid()
      modifies this, all
      ensures Valid() && Quiet() && fresh(all - old(all)) && (old(TimerOk()) ==> TimerOk())
      ensures var q := old(Lookup(id, generation));
              && (ok <==> old(Current(w, r)) && q != null)
              && (!ok ==> Nothing())
              && (ok ==> Settled(q))
              && (ok && depth == 0 ==> all == old(all) && (q.live ==> q.hydrated) && Attended(q)
                                       && forall p | p in old(all) && p != q :: unchanged(p))
      decreases depth, 3
    {
      hide Base, QuietBetween, Snap;
      hide Valid;
      var q := Lookup(id, generation);
      LookupIsLive(id, generation);
      if disposed || !rendererReady || q == null || w != windowGeneration || r != rendererGeneration {
        NothingIsQuiet();
        return false;
      }
      HydrateAndDeliver(q, depth);
      return true;
    }

    // --------------------------------------------- renderer documents

    /** Queue again, in order, everything one terminal has in flight. */
    method ReplayQueue(q: TerminalQueue)
      requires Valid() && q in all && q.live
      modifies q`chunks, q`queuedBytes, q`inFlight, q`inFlightBytes, q`events
      ensures Valid() && Quiet() && Touched(q) && q.inFlight.Keys == {}
      ensures q.events == old(q.events) + (if old(q.inFlight) == map[] then [] else [EReplay])
    {
      hide Valid, Base, QuietBetween, Snap, NotWedged, QueueOk, Run, Faithful;
      LiveIsOk(q);
      MirrorsOf(q);
      ValidParts(q);
      q.Replay();
      ReplayedIsOk(q);
      TouchedKeepsValid(q);
      TouchedIsQuiet(q);
    }

    twostate lemma ReplayedIsOk(q: TerminalQueue)
      requires q in old(all) && old(QueueOk(q) && NotWedged(q)) && q.Mirrors() && q.inFlight.Keys == {}
      requires q.Retained() == old(q.Retained()) && q.RetainedCount() == old(q.RetainedCount()) && unchanged(`rendererReady)
      requires unchanged(q`delivered, q`outcomes, q`finishWaiters, q`nextWaiter, q`hydrated, q`paused, q`closing, q`oversized)
      ensures QueueOk(q) && NotWedged(q)
    {
    }

    /** Close the hydration gate of a queue with nothing in flight. */
    method Dehydrate(q: TerminalQueue)
      requires Valid() && q in all && q.live && q.inFlight.Keys == {}
      modifies q`hydrated
      ensures Valid() && Quiet() && Touched(q) && !q.hydrated
    {
      hide Valid, Base, QuietBetween, Snap, NotWedged, Run, Faithful;
      LiveIsOk(q);
      ValidParts(q);
      q.hydrated := false;
      NotResumableIsNotWedged(q);
      TouchedKeepsValid(q);
      TouchedIsQuiet(q);
    }

    /** Detach one queue from its viewer: replay, then wait for a new hydration. */
    method Detach(q: TerminalQueue)
      requires Valid() && q in all && q.live
      modifies q`chunks, q`queuedBytes, q`inFlight, q`inFlightBytes, q`events, q`hydrated
      ensures Valid() && Quiet() && Touched(q)
      ensures Detached(old(q.Seen()), q.Seen()) && (old(TimerOk()) ==> TimerOk())
    {
      hide Valid, Base, QuietBetween, Snap, TimerOk, Deliverable;
      ghost var s0 := Snap();
      ReplayQueue(q);
      ghost var s1 := Snap();
      Dehydrate(q);
      QuietTransitive(s0, s1, Snap());
      DetachedKeepsTimer(q);
    }

    twostate lemma DetachedKeepsTimer(q: TerminalQueue)
      requires Touched(q) && !q.hydrated && timerArmed == old(timerArmed)
      ensures old(TimerOk()) ==> TimerOk()
    {
    }
  
    ghost function Views(): map<TerminalQueue, View>
      reads `all, all
    {
      map q | q in all :: q.Seen()
    }

    method DetachAll()
      requires Valid()
      modifies all
      ensures Valid() && Quiet() && all == old(all) && (old(TimerOk()) ==> TimerOk())
      ensures DetachedAmong(old(Views()), Views(), order)
    {
      hide Valid, Base, QuietBetween, Snap, DetachedAmong, TimerOk, Deliverable, Detached;
      ghost var s0, v0 := Snap(), Views();
      NothingIsQuiet();
      NoneDetached(v0);
      var i := 0;
      while i < |order|
        invariant 0 <= i <= |order| && Valid() && QuietBetween(s0, Snap()) && (old(TimerOk()) ==> TimerOk())
        invariant DetachedAmong(v0, Views(), order[..i])
      {
        OrderGives(i);
        var q := queues[order[i]];
        ghost var s1, v1 := Snap(), Views();
        Detach(q);
        QuietTransitive(s0, s1, Snap());
        DetachedNext(v0, v1, Views(), order[..i], q);
        assert order[..i + 1] == order[..i] + [q.id];
        i := i + 1;
      }
      assert order[..i] == order;
    }

    lemma OrderGives(i: nat)
      requires Valid() && i < |order|
      ensures order[i] !in order[..i] && order[i] in queues
      ensures queues[order[i]] in all && queues[order[i]].live && queues[order[i]].id == order[i]
      ensures forall p | p in all && p.live && p.id == order[i] :: p == queues[order[i]]
    {
    }
  
    /** Move to a document; a change of generation detaches every terminal. */
    method Fence(w: int, r: int)
      requires Valid() && 1 <= w <= MAX_SAFE_INTEGER && 1 <= r <= MAX_SAFE_INTEGER
      requires w > windowGeneration || (w == windowGeneration && r >= rendererGeneration)
      modifies `windowGeneration, `rendererGeneration, all
      ensures Valid() && Quiet() && all == old(all) && (old(TimerOk()) ==> TimerOk())
      ensures windowGeneration == w && rendererGeneration == r
      ensures if w == old(windowGeneration) && r == old(rendererGeneration) then Nothing()
              else DetachedAmong(old(Views()), Views(), order)
    {
      hide Valid, Base, QuietBetween, Snap, DetachedAmong, TimerOk;
      if w == windowGeneration && r == rendererGeneration {
        NothingIsQuiet();
        return;
      }
      ghost var s0 := Snap();
      MoveTo(w, r);
      ghost var s1 := Snap();
      DetachAll();
      QuietTransitive(s0, s1, Snap());
    }

    method MoveTo(w: int, r: int)
      requires Valid() && 1 <= w <= MAX_SAFE_INTEGER && 1 <= r <= MAX_SAFE_INTEGER
      requires w > windowGeneration || (w == windowGeneration && r >= rendererGeneration)
      modifies `windowGeneration, `rendererGeneration
      ensures Valid() && Quiet() && windowGeneration == w && rendererGeneration == r
    {
      hide QueuesOk, WedgeFreeBut, OrderOk;
      windowGeneration := w;
      rendererGeneration := r;
    }

    lemma AllDetached(a: map<TerminalQueue, View>)
      requires Valid() && DetachedAmong(a, Views(), order)
      ensures AllFenced() && forall q | q in all && q.live :: !q.hydrated
    {
      forall q | q in all && q.live ensures !q.hydrated && q.inFlight.Keys == {} {
        assert Views()[q] == q.Seen();
      }
    }

    /** With every hydration gate closed, readiness itself may change. */
    method SetReadyFlag(ready: bool)
      requires Valid() && forall q | q in all && q.live :: !q.hydrated
      requires 1 <= windowGeneration <= MAX_SAFE_INTEGER && 1 <= rendererGeneration <= MAX_SAFE_INTEGER
      modifies `rendererReady, `timerArmed
      ensures Valid() && Quiet() && rendererReady == ready && (!ready ==> !timerArmed) && (old(TimerOk()) ==> TimerOk())
    {
      hide QueuesOk, WedgeFreeBut, QuietBetween;
      rendererReady := ready;
      if !ready {
        timerArmed := false;
      }
      FlagKeepsQueuesOk();
      FlagKeepsWedgeFree();
      NothingCalm();
    }

    lemma NothingCalm()
      ensures QuietBetween(Snap(), Snap())
    {
    }

    twostate lemma FlagKeepsQueuesOk()
      requires old(QueuesOk()) && unchanged(`queues, `all) && forall q | q in all :: unchanged(q)
      requires forall q | q in all && q.live :: !q.hydrated
      ensures QueuesOk()
    {
      forall q | q in all && q.live ensures q.id in queues && queues[q.id] == q && QueueOk(q) {
        assert old(QueueOk(q));
      }
    }

    twostate lemma FlagKeepsWedgeFree()
      requires old(WedgeFreeBut(null)) && unchanged(`all) && forall q | q in all :: unchanged(q)
      requires forall q | q in all && q.live :: !q.hydrated
      ensures WedgeFreeBut(null)
    {
    }

    /** Readiness lost: replay everything, close every hydration gate, cancel the pending frame. */
    method GoOffline()
      requires Valid() && 1 <= windowGeneration <= MAX_SAFE_INTEGER && 1 <= rendererGeneration <= MAX_SAFE_INTEGER
      modifies `rendererReady, `timerArmed, all
      ensures Valid() && Quiet() && all == old(all) && (old(TimerOk()) ==> TimerOk())
      ensures !rendererReady && !timerArmed && DetachedAmong(old(Views()), Views(), order)
    {
      hide Valid, Base, QuietBetween, Snap, DetachedAmong;
      ghost var s0, v0 := Snap(), Views();
      DetachAll();
      ghost var s1 := Snap();
      AllDetached(v0);
      SetReadyFlag(false);
      QuietTransitive(s0, s1, Snap());
    }
  
    /** The first registered queue, in registration order, that a live iteration has not visited yet. */
    method NextUnvisited(visited: set<TerminalQueue>) returns (q: TerminalQueue?)
      requires Valid()
      ensures q != null ==> q in all && q.live && q !in visited
      ensures q == null ==> forall p | p in all && p.live :: p in visited
    {
      var i := 0;
      while i < |order|
        invariant 0 <= i <= |order| && forall k | 0 <= k < i :: queues[order[k]] in visited
      {
        if queues[order[i]] !in visited {
          return queues[order[i]];
        }
        i := i + 1;
      }
      q := null;
    }

    /** No terminal came or was hydrated or dehydrated; some may have gone. */
    twostate predicate GatesKept()
      reads this, all
    {
      all == old(all) && forall q | q in old(all) && q.live :: old(q.live) && q.hydrated == old(q.hydrated)
    }

    /** Offer every source the chance to resume; sources may call back while the registry is iterated. */
    method ResumeAll(depth: nat)
      requires Valid()
      modifies this, all
      ensures Valid() && Quiet() && fresh(all - old(all))
      ensures depth == 0 ==> unchanged(`rendererReady, `windowGeneration, `rendererGeneration) && GatesKept()
      ensures depth == 0 ==> forall p | p in all && p.live :: !Resumable(p)
      decreases depth, 2
    {
      hide Valid, Base, QuietBetween, Snap, WedgeFreeBut, Resumable, Touched, Unpaused, TimerOk, Nothing;
      ghost var s0 := Snap();
      NothingIsQuiet();
      var budget: nat := depth;
      var visited: set<TerminalQueue> := {};
      var q := NextUnvisited(visited);
      while q != null
        invariant Valid() && QuietBetween(s0, Snap()) && fresh(all - old(all)) && budget <= depth
        invariant q != null ==> q in all && q.live && q !in visited
        invariant depth == 0 ==> unchanged(`rendererReady, `windowGeneration, `rendererGeneration) && GatesKept()
        invariant depth == 0 ==> forall p | p in visited :: !Resumable(p)
        invariant q == null ==> forall p | p in all && p.live :: p in visited
        decreases budget, all - visited
      {
        ghost var s1, before := Snap(), all - visited;
        visited := visited + {q};
        ValidParts(q);
        MaybeResumeSource(q, budget);
        QuietTransitive(s0, s1, Snap());
        assert budget == 0 ==> all - visited < before;
        budget := if budget > 0 then budget - 1 else 0;
        q := NextUnvisited(visited);
      }
    }

    lemma LiveAreListed()
      requires Valid()
      ensures forall p | p in all && p.live :: p.id in order && p.id in queues && queues[p.id] == p
    {
    }

    /** Release every closing queue that is already drained. */
    method FinishAll()
      requires Valid()
      modifies `order, `cursor, `queues, all
      ensures Valid() && Quiet() && GatesKept() && unchanged(`rendererReady)
      ensures forall p | p in all && p.live :: Settled(p) && (!old(Resumable(p)) ==> !Resumable(p))
    {
      hide Valid, Base, QuietBetween, Snap, Settled, Resumable;
      ghost var s0 := Snap();
      NothingIsQuiet();
      var ids := order;
      var i := 0;
      LiveAreListed();
      while i < |ids|
        invariant 0 <= i <= |ids| && Valid() && QuietBetween(s0, Snap()) && GatesKept() && unchanged(`rendererReady)
        invariant forall p | p in all && p.live :: !old(Resumable(p)) ==> !Resumable(p)
        invariant forall p | p in all && p.live :: p.id in ids && (p.id in ids[..i] ==> Settled(p))
      {
        LiveAreListed();
        assert ids[..i + 1] == ids[..i] + [ids[i]];
        if ids[i] in queues {
          LookupIsLive(ids[i], queues[ids[i]].terminalGeneration);
          ghost var s1 := Snap();
          MaybeFinishQueue(queues[ids[i]]);
          QuietTransitive(s0, s1, Snap());
        }
        i := i + 1;
      }
    }

    /** Readiness gained or confirmed. */
    method GoOnline(depth: nat)
      requires Valid() && 1 <= windowGeneration <= MAX_SAFE_INTEGER && 1 <= rendererGeneration <= MAX_SAFE_INTEGER
      modifies this, all
      ensures Valid() && Quiet() && fresh(all - old(all)) && TimerOk()
      ensures forall p | p in all && p.live :: Settled(p)
      ensures depth == 0 ==> rendererReady && unchanged(`windowGeneration, `rendererGeneration) && GatesKept()
      ensures depth == 0 ==> forall p | p in all && p.live :: !Resumable(p)
      decreases depth, 3
    {
      hide Valid, Base, QuietBetween, Snap, Deliverable, Settled, Resumable;
      OfflineIsDehydrated();
      ghost var s0 := Snap();
      if !rendererReady {
        SetReadyFlag(true);
      } else {
        NothingIsQuiet();
      }
      ghost var s1 := Snap();
      ResumeAll(depth);
      ghost var s2 := Snap();
      QuietTransitive(s0, s1, s2);
      FinishAll();
      QuietTransitive(s0, s2, Snap());
      SchedulePump();
    }

    lemma OfflineIsDehydrated()
      requires Valid()
      ensures !rendererReady ==> forall q | q in all && q.live :: !q.hydrated
    {
    }

    /** Bind or lose the current renderer document. Both generations only move forward; a stale call changes nothing. */
    method SetRendererReady(w: int, r: int, ready: bool, depth: nat) returns (ok: bool)
      requires Valid()
      modifies this, all
      ensures Valid() && Quiet() && fresh(all - old(all)) && (old(TimerOk()) ==> TimerOk())
      ensures ok <==> old(Acceptable(w, r))
      ensures !ok ==> Nothing()
      ensures ok && (!ready || depth == 0) ==> rendererReady == ready && windowGeneration == w && rendererGeneration == r
      ensures ok && !ready ==> !timerArmed && DetachedAmong(old(Views()), Views(), order)
      ensures ok && ready && depth == 0 ==>
                if w == old(windowGeneration) && r == old(rendererGeneration) then GatesKept() else AllFenced()
      ensures ok && ready ==> forall p | p in all && p.live :: Settled(p) && (depth == 0 ==> Attended(p))
      decreases depth, 4
    {
      hide Valid, Base, QuietBetween, Snap, DetachedAmong, TimerOk, AllFenced;
      if disposed || !SafeInteger(w) || w < 1 || !SafeInteger(r) || r < 1
         || w < windowGeneration || (w == windowGeneration && r < rendererGeneration) {
        NothingIsQuiet();
        return false;
      }
      ghost var s0 := Snap();
      if !ready {
        LoseDocument(w, r);
      } else {
        ghost var v0 := Views();
        Fence(w, r);
        ghost var s1 := Snap();
        label fenced:
        if w != old(windowGeneration) || r != old(rendererGeneration) {
          AllDetached(v0);
        }
        GoOnline(depth);
        QuietTransitive(s0, s1, Snap());
        if depth == 0 && (w != old(windowGeneration) || r != old(rendererGeneration)) {
          StaysFenced@fenced();
        }
      }
      return true;
    }

    /** Every terminal waits for a new hydration, with nothing in flight. */
    ghost predicate AllFenced()
      reads this, all
    {
      forall q | q in all && q.live :: !q.hydrated && q.inFlight.Keys == {}
    }

    twostate lemma StaysFenced()
      requires old(AllFenced()) && GatesKept() && Quiet()
      ensures AllFenced()
    {
      hide QuietBetween, Snap;
      forall q | q in all && q.live ensures !q.hydrated && q.inFlight.Keys == {} {
        QuietKeeps(q);
      }
    }

    predicate Acceptable(w: int, r: int)
      reads `disposed, `windowGeneration, `rendererGeneration
    {
      && !disposed && SafeInteger(w) && w >= 1 && SafeInteger(r) && r >= 1
      && (w > windowGeneration || (w == windowGeneration && r >= rendererGeneration))
    }

    method LoseDocument(w: int, r: int)
      requires Valid() && Acceptable(w, r)
      modifies `windowGeneration, `rendererGeneration, `rendererReady, `timerArmed, all
      ensures Valid() && Quiet() && all == old(all) && (old(TimerOk()) ==> TimerOk())
      ensures !rendererReady && windowGeneration == w && rendererGeneration == r
      ensures !timerArmed && DetachedAmong(old(Views()), Views(), order)
    {
      hide Valid, Base, QuietBetween, Snap, DetachedAmong, TimerOk;
      ghost var s0, v0 := Snap(), Views();
      Fence(w, r);
      ghost var s1, v1 := Snap(), Views();
      GoOffline();
      QuietTransitive(s0, s1, Snap());
      if v1 != v0 {
        DetachedTwice(v0, v1, Views(), order);
      }
    }

    /** Release every queue, first registered first. */
    method RemoveAll()
      requires Valid()
      modifies `order, `cursor, `queues, all
      ensures Valid() && Quiet() && all == old(all) && order == [] && (old(TimerOk()) ==> TimerOk())
    {
      hide Valid, Base, QuietBetween, Snap, TimerOk;
      ghost var s0 := Snap();
      NothingIsQuiet();
      while order != []
        invariant Valid() && QuietBetween(s0, Snap()) && all == old(all) && (old(TimerOk()) ==> TimerOk())
        decreases queues.Keys
      {
        OrderGives(0);
        ghost var s1 := Snap();
        label before:
        var q := queues[order[0]];
        RemoveQueue(q, false);
        DroppedKeepsTimer@before(q);
        QuietTransitive(s0, s1, Snap());
      }
    }

    /** The end of the scheduler: every terminal is dropped, whatever it still held. */
    method Dispose()
      requires Valid()
      modifies this, all
      ensures Valid() && Quiet() && disposed && (forall id :: id !in queues) && all == old(all)
      ensures old(TimerOk()) ==> TimerOk()
      ensures old(disposed) ==> Nothing()
    {
      NothingIsQuiet();
      hide Valid, Base, QuietBetween, Snap;
      DisposedHasNoQueues();
      if disposed {
        return;
      }
      ghost var s0 := Snap();
      RemoveAll();
      ghost var s1 := Snap();
      MarkDisposed();
      QuietTransitive(s0, s1, Snap());
    }

    lemma DisposedHasNoQueues()
      requires Valid()
      ensures disposed ==> forall id :: id !in queues
    {
    }

    method MarkDisposed()
      requires Valid() && order == []
      modifies `disposed, `timerArmed
      ensures Valid() && Quiet() && disposed && TimerOk() && forall id :: id !in queues
    {
      hide WedgeFreeBut, QuietBetween, QueueOk;
      disposed := true;
      timerArmed := false;
      SnapDisposed();
    }

    twostate lemma SnapDisposed()
      requires unchanged(`windowGeneration, `rendererGeneration, `pumping, `sends, `sentBytes, `all) && (forall q | q in all :: unchanged(q)) && disposed
      ensures Quiet()
    {
    }
  
    // -------------------------------------------------------------- pump

    /** Queue `id` has something to send now and had no turn in this frame. */
    predicate Ready(id: string, excluded: set<string>)
      reads `queues, `rendererReady, queues.Values
    {
      id in queues && id !in excluded && queues[id].chunks != [] && CanDeliver(queues[id])
    }

    /** Registration order read cyclically from the cursor. */
    function Rotation(): seq<string>
      reads `order, `cursor
    {
      Rotated(order, cursor)
    }

    /** Scan the rotation from the cursor for the first ready queue. */
    method Scan(excluded: set<string>) returns (found: bool, index: nat)
      requires (cursor < |order| || cursor == 0) && forall id | id in order :: id in queues
      ensures !found ==> forall k | 0 <= k < |order| :: !Ready(Rotation()[k], excluded)
      ensures found ==> index < |order| && FirstReady(Rotation(), order[index], excluded) && order[index] !in excluded
      ensures found ==> queues[order[index]].chunks != [] && CanDeliver(queues[order[index]])
    {
      var offset := 0;
      while offset < |order|
        invariant offset <= |order| && forall k | 0 <= k < offset :: !Ready(Rotation()[k], excluded)
      {
        Wrap(cursor + offset, |order|);
        index := (cursor + offset) % |order|;
        var id := order[index];
        assert id == Rotation()[offset];
        if id !in excluded && queues[id].chunks != [] && CanDeliver(queues[id]) {
          return true, index;
        }
        offset := offset + 1;
      }
      found, index := false, 0;
    }

    /** The queue at `index` of the rotation; the cursor moves just past it. */
    method TakeTurn(index: nat) returns (q: TerminalQueue)
      requires Valid() && index < |order|
      modifies `cursor
      ensures Valid() && Quiet() && q == queues[order[index]] && q in all && q.live && q.id == order[index]
      ensures cursor == if index + 1 == |order| then 0 else index + 1
    {
      hide Valid, QuietBetween, Snap;
      CursorOk();
      RegistryOk(order[index]);
      q := queues[order[index]];
      Wrap(index + 1, |order|);
      MoveCursor((index + 1) % |order|);
    }

    /** The first ready queue in cyclic order from the cursor; the cursor moves just past it. */
    method NextQueuedQueue(excluded: set<string>) returns (q: TerminalQueue?)
      requires Valid()
      modifies `cursor
      ensures Valid() && Quiet()
      ensures q == null ==> old(NoneIsReady(excluded))
      ensures q != null ==> q in all && q.live && q.id !in excluded && q.chunks != [] && CanDeliver(q)
      ensures q != null ==> old(FirstReady(Rotation(), q.id, excluded))
      ensures q != null ==> exists index | 0 <= index < |order| && order[index] == q.id ::
                              cursor == if index + 1 == |order| then 0 else index + 1
    {
      hide Valid, QuietBetween, Snap, FirstReady, Rotation, NoneIsReady, Ready;
      CursorOk();
      var found, index := Scan(excluded);
      if found {
        q := TakeTurn(index);
      } else {
        NothingIsQuiet();
        NoneReady(excluded);
        q := null;
      }
    }

    ghost predicate NoneIsReady(excluded: set<string>)
      reads `queues, `rendererReady, queues.Values
    {
      forall id :: !Ready(id, excluded)
    }

    ghost predicate FirstReady(rotation: seq<string>, id: string, excluded: set<string>)
      reads `queues, `rendererReady, queues.Values
    {
      exists k :: 0 <= k < |rotation| && rotation[k] == id && forall j | 0 <= j < k :: !Ready(rotation[j], excluded)
    }

    method MoveCursor(position: nat)
      requires Valid() && position < |order|
      modifies `cursor
      ensures Valid() && Quiet() && cursor == position
    {
      hide QueuesOk, WedgeFreeBut, QuietBetween;
      NothingCalm();
      cursor := position;
    }

    lemma CursorOk()
      requires Valid()
      ensures cursor < |order| || cursor == 0
      ensures forall id | id in order :: id in queues
    {
    }

    lemma NoneReady(excluded: set<string>)
      requires Valid() && forall k | 0 <= k < |order| :: !Ready(Rotation()[k], excluded)
      ensures NoneIsReady(excluded)
    {
      forall id ensures !Ready(id, excluded) {
        if id in queues {
          assert id in order;
          assert id in Rotation();
        }
      }
    }

    lemma Wrap(i: nat, n: nat)
      requires 0 < n && i < 2 * n
      ensures i % n == if i < n then i else i - n
    {
    }

    lemma RegistryOk(id: string)
      requires Valid() && id in queues
      ensures queues[id] in all && queues[id].live && queues[id].id == id
    {
    }
  
    method TakeOnly(q: TerminalQueue) returns (record: Record)
      requires Valid() && q in all && q.live && CanDeliver(q) && q.chunks != []
      modifies q`chunks, q`queuedBytes, q`inFlight, q`inFlightBytes, q`events, q`deliveries, `sends, `sentBytes
      ensures Valid() && Touched(q) && record == Seal(old(q.chunks[0]))
      ensures sends == old(sends) + 1 && sentBytes == old(sentBytes) + Size(record)
      ensures q.deliveries == old(q.deliveries) + [HandOver(record)] && q.events == old(q.events) + [ETake]
      ensures forall s | s in q.inFlight :: s <= record.sequence
    {
      hide Valid, Base, Snap, QueueOk, NotWedged, Run, Faithful;
      LiveIsOk(q);
      MirrorsOf(q);
      ValidParts(q);
      record := q.TakeHead();
      sends := sends + 1;
      sentBytes := sentBytes + Size(record);
      TakenIsOk(q);
      TouchedKeepsValid(q);
    }

    /** Seal and take the head of a deliverable queue: it is in flight before the transport sees it. */
    method TakeOn(q: TerminalQueue) returns (record: Record)
      requires Valid() && q in all && q.live && CanDeliver(q) && q.chunks != []
      modifies q`chunks, q`queuedBytes, q`inFlight, q`inFlightBytes, q`events, q`deliveries, `sends, `sentBytes
      ensures Valid() && Touched(q) && record == Seal(old(q.chunks[0]))
      ensures Sent(q, HandOver(record))
      ensures q.events == old(q.events) + [ETake]
      ensures forall s | s in q.inFlight :: s <= record.sequence
    {
      hide Valid, Base, Snap, Sent;
      record := TakeOnly(q);
      TakenIsSent(q);
    }

    twostate lemma TakenIsOk(q: TerminalQueue)
      requires q in old(all) && old(QueueOk(q) && NotWedged(q)) && old(CanDeliver(q)) && q.Mirrors()
      requires q.Retained() == old(q.Retained()) && q.RetainedCount() == old(q.RetainedCount()) && unchanged(`rendererReady)
      requires unchanged(q`delivered, q`outcomes, q`finishWaiters, q`nextWaiter, q`hydrated, q`paused, q`closing, q`oversized)
      ensures QueueOk(q) && NotWedged(q)
    {
    }

    twostate lemma TakenIsSent(q: TerminalQueue)
      requires Touched(q) && old(q.events) <= q.events && q.outcomes == old(q.outcomes)
      requires q.deliveries != [] && q.deliveries[..|q.deliveries| - 1] == old(q.deliveries)
      requires sends == old(sends) + 1 && sentBytes == old(sentBytes) + |q.deliveries[|q.deliveries| - 1].payload|
      ensures Sent(q, q.deliveries[|q.deliveries| - 1])
    {
      assert q.deliveries == old(q.deliveries) + [q.deliveries[|q.deliveries| - 1]];
    }

    twostate predicate Sent(q: TerminalQueue, d: Delivery)
      reads `windowGeneration, `rendererGeneration, `disposed, `pumping, `sends, `sentBytes, `all, all
    {
      SentOne(old(Snap()), Snap(), q, d)
    }

    /** The transport refused: the record goes back to the head, if it is still owned. */
    method RequeueOn(q: TerminalQueue, record: Record)
      requires Valid() && q in all && forall s | s in q.inFlight :: s <= record.sequence
      modifies q`chunks, q`queuedBytes, q`inFlight, q`inFlightBytes, q`events
      ensures Valid() && Quiet() && Touched(q)
      ensures if record.sequence in old(q.inFlight) && old(q.inFlight)[record.sequence] == record
              then q.events == old(q.events) + [ERequeue(record.sequence)] && record.sequence !in q.inFlight
              else Nothing()
    {
      hide Valid, Base, QuietBetween, Snap, QueueOk, NotWedged, Run, Faithful;
      if record.sequence !in q.inFlight || q.inFlight[record.sequence] != record {
        NothingIsQuiet();
        return;
      }
      if !q.live {
        GoneIsGone(q);
      }
      LiveIsOk(q);
      MirrorsOf(q);
      ValidParts(q);
      q.Requeue(record);
      RequeuedIsOk(q);
      TouchedKeepsValid(q);
      TouchedIsQuiet(q);
    }

    twostate lemma RequeuedIsOk(q: TerminalQueue)
      requires q in old(all) && old(QueueOk(q) && NotWedged(q)) && q.Mirrors() && q.inFlight.Keys <= old(q.inFlight.Keys)
      requires q.Retained() == old(q.Retained()) && q.RetainedCount() == old(q.RetainedCount()) && unchanged(`rendererReady)
      requires unchanged(q`delivered, q`outcomes, q`finishWaiters, q`nextWaiter, q`hydrated, q`paused, q`closing, q`oversized)
      ensures QueueOk(q) && NotWedged(q)
    {
    }
  
    /** While something is in flight the current document can still be lost. */
    lemma OwnerIsRegistered(q: TerminalQueue)
      requires Valid() && q in all && q.inFlight.Keys != {} && rendererReady
      ensures Acceptable(windowGeneration, rendererGeneration)
    {
      hide QueueOk, WedgeFreeBut;
      assert q.live && q.id in queues;
    }

    /** After a refusal: requeue what is still owned, and fence a renderer that refused it. */
    method Refused(q: TerminalQueue, record: Record, depth: nat)
      requires Valid() && q in all && forall s | s in q.inFlight :: s <= record.sequence
      modifies this, all
      ensures Valid() && Quiet() && fresh(all - old(all))
      ensures !q.Owns(record)
      ensures if old(q.Owns(record)) then !rendererReady else Nothing()
    {
      hide Valid, Base, QuietBetween, Snap;
      ghost var s0 := Snap();
      var owned := q.Owns(record);
      if rendererReady && owned {
        OwnerIsRegistered(q);
      }
      RequeueOn(q, record);
      if rendererReady && owned {
        label requeued:
        ghost var s1 := Snap();
        var _ := SetRendererReady(windowGeneration, rendererGeneration, false, depth);
        QuietKeeps@requeued(q);
        QuietTransitive(s0, s1, Snap());
      }
    }

    /** The renderer is ready and still is the document it was before. */
    twostate predicate SameDocument()
      reads `rendererReady, `windowGeneration, `rendererGeneration
    {
      rendererReady && unchanged(`windowGeneration, `rendererGeneration)
    }

    /** After an accepted send: resume, finish, and tell whether the batch may go on. */
    method Accepted(q: TerminalQueue, depth: nat)
      requires Valid() && q in all
      modifies this, all
      ensures Valid() && Quiet() && fresh(all - old(all)) && Settled(q)
    {
      hide Valid, Base, QuietBetween, Snap, WedgeFreeBut, Settled;
      ValidParts(q);
      ghost var s0 := Snap();
      label before:
      MaybeResumeSource(q, depth);
      QuietKeeps@before(q);
      ghost var s1 := Snap();
      MaybeFinishQueue(q);
      QuietTransitive(s0, s1, Snap());
    }

    /** Hand the head record to the transport, which may call back, accept or refuse. */
    method SendHead(q: TerminalQueue, depth: nat) returns (record: Record, sent: bool, goOn: bool)
      requires Valid() && q in all && q.live && CanDeliver(q) && q.chunks != []
      modifies this, all
      ensures Valid() && fresh(all - old(all)) && q in all && pumping == old(pumping)
      ensures record == Seal(old(q.chunks[0]))
      ensures Sent(q, HandOver(record))
      ensures old(q.events) + [ETake] <= q.events
      ensures q.deliveries == old(q.deliveries) + [HandOver(record)]
      ensures sends == old(sends) + 1 && sentBytes == old(sentBytes) + Size(record)
      ensures goOn <==> SameDocument() && q.Owns(record)
      ensures if sent then Settled(q) else !q.Owns(record)
    {
      hide Valid, Base, QuietBetween, Snap, SentOne;
      ghost var s0 := Snap();
      InSnap(q);
      record := TakeOn(q);
      ghost var s1 := Snap();
      var w, r := windowGeneration, rendererGeneration;
      label taken:
      React(depth);
      QuietKeeps@taken(q);
      ghost var s2 := Snap();
      SentOneThenQuiet(s0, s1, s2, q, HandOver(record));
      sent := *;
      label answered:
      if !sent {
        Refused(q, record, depth);
        goOn := false;
      } else {
        Accepted(q, depth);
        goOn := rendererReady && windowGeneration == w && rendererGeneration == r
                && q.Owns(record);
      }
      QuietKeeps@answered(q);
      SentOneThenQuiet(s0, s2, Snap(), q, HandOver(record));
      InSnap(q);
      SentIsLast(s0, Snap(), q, HandOver(record));
    }

    lemma InSnap(q: TerminalQueue)
      requires q in all
      ensures q in Snap().pasts && Snap().pasts[q].deliveries == q.deliveries
      ensures Snap().sends == sends && Snap().sentBytes == sentBytes
    {
    }
  
    method SetPumping(flag: bool)
      requires Valid() && !timerArmed
      modifies `pumping
      ensures Valid() && pumping == flag && Snap() == old(Snap()).(pumping := flag)
    {
      hide QueuesOk, WedgeFreeBut, OrderOk;
      pumping := flag;
    }

    lemma PumpingHasNoTimer()
      requires Valid() && pumping
      ensures !timerArmed
    {
    }

    /** `q` was the first ready queue in rotation order, and the head it had was handed over. */
    twostate predicate Opens(q: TerminalQueue)
      reads `sends, `all, all
    {
      && q in all && q in old(all) && old(FirstReady(Rotation(), q.id, {})) && old(q.live && q.chunks != [])
      && old(q.deliveries) + [HandOver(Seal(old(q.chunks[0])))] <= q.deliveries && sends > old(sends)
    }

    /** Whose turn it is and what its queue holds is as it was. */
    twostate predicate StillFirst()
      reads `order, `cursor, `queues, `rendererReady, `all, all, queues.Values
    {
      && (old(Deliverable()) ==> !NoneIsReady({}))
      && (forall id :: FirstReady(Rotation(), id, {}) ==> old(FirstReady(Rotation(), id, {})))
      && (forall q | q in all :: q in old(all) && unchanged(q`chunks, q`deliveries, q`live))
    }

    /** Each of these ids names a terminal that was handed something since `a`. */
    ghost predicate WereServed(a: Snapshot, ids: set<string>)
      reads `all, all
    {
      forall id | id in ids :: exists q :: q in all && q.id == id && |DeliveriesOf(a, q)| < |q.deliveries|
    }

    /** What holds at the end of a frame that began at `a`. */
    ghost predicate Ended(end: FrameEnd, a: Snapshot)
      reads `queues, `rendererReady, `windowGeneration, `rendererGeneration, `sends, `sentBytes, `all, all, queues.Values
    {
      match end
      case Full => sends == a.sends + limits.batchChunks
      case NoneLeft(served) => NoneIsReady(served) && (if limits.paced then WereServed(a, served) else served == {})
      case TooBig(next) =>
        && sends > a.sends && next in all && next.live && next.chunks != [] && CanDeliver(next)
        && sentBytes + Size(next.chunks[0]) > a.sentBytes + limits.batchBytes
        && (limits.paced ==> |next.deliveries| <= |DeliveriesOf(a, next)|)
      case Interrupted(q, record) =>
        && q in all && q.deliveries != [] && q.deliveries[|q.deliveries| - 1] == HandOver(record)
        && |q.deliveries| > |DeliveriesOf(a, q)|
        && !(rendererReady && windowGeneration == a.windowGeneration && rendererGeneration == a.rendererGeneration && q.Owns(record))
    }

    lemma EndsFull(a: Snapshot)
      requires sends == a.sends + limits.batchChunks
      ensures Ended(Full, a)
    {
    }

    lemma EndsServed(a: Snapshot, served: set<string>)
      requires NoneIsReady(if limits.paced then served else {}) && Underway(a, Snap(), limits, served)
      ensures Ended(NoneLeft(if limits.paced then served else {}), a)
    {
    }

    lemma EndsTooBig(q: TerminalQueue, a: Snapshot, served: set<string>)
      requires q in all && q.live && q.chunks != [] && CanDeliver(q) && sends > a.sends
      requires sentBytes + Size(q.chunks[0]) > a.sentBytes + limits.batchBytes
      requires Underway(a, Snap(), limits, served) && (limits.paced ==> q.id !in served)
      ensures Ended(TooBig(q), a)
    {
      InSnap(q);
    }

    lemma EndsInterrupted(q: TerminalQueue, record: Record, a: Snapshot)
      requires q in all && q.deliveries != [] && q.deliveries[|q.deliveries| - 1] == HandOver(record)
      requires |DeliveriesOf(a, q)| < |q.deliveries|
      requires !(rendererReady && windowGeneration == a.windowGeneration && rendererGeneration == a.rendererGeneration && q.Owns(record))
      ensures Ended(Interrupted(q, record), a)
    {
    }

    lemma EndedIgnoresPumping(end: FrameEnd, a: Snapshot, x: bool)
      requires Ended(end, a)
      ensures Ended(end, a.(pumping := x))
    {
      assert forall p :: DeliveriesOf(a.(pumping := x), p) == DeliveriesOf(a, p);
    }

    lemma SnapCounts()
      ensures Snap().sends == sends && Snap().sentBytes == sentBytes
      ensures Snap().windowGeneration == windowGeneration && Snap().rendererGeneration == rendererGeneration
    {
    }

    lemma DeliverableIsReady()
      requires Valid()
      ensures NoneIsReady({}) ==> !Deliverable()
    {
      forall q | NoneIsReady({}) && q in all && q.live && q.chunks != [] ensures !CanDeliver(q) {
        assert !Ready(q.id, {});
      }
    }

    twostate lemma StillOpened(q: TerminalQueue)
      requires q in old(all) && Grown(old(Snap()), Snap())
      ensures q in all && old(q.deliveries) <= q.deliveries
    {
      assert Older(old(Snap()).pasts[q], Snap().pasts[q]);
    }

    /** The batch loop of one frame. */
    method PumpBatch(depth: nat) returns (ghost first: TerminalQueue?, ghost end: FrameEnd)
      requires Valid() && pumping && rendererReady
      modifies this, all
      ensures Valid() && pumping && fresh(all - old(all)) && Batched(old(Snap()), Snap(), limits)
      ensures Ended(end, old(Snap()))
      ensures old(Deliverable()) ==> first != null && first in old(all) && Opens(first)
    {
      hide Valid, Base, QuietBetween, SentOne, Grown, Underway, Batched, Snap, Ended, Deliverable, NoneIsReady, FirstReady, Rotation;
      hide HandOver, Settled, Ready;
      LimitsOk();
      ghost var s0 := Snap();
      SnapCounts();
      UnderwaySelf(s0, limits);
      var bytes, records := 0, 0;
      var served: set<string> := {};
      first := null;
      DeliverableIsReady();
      while records < limits.batchChunks && rendererReady
        invariant Valid() && pumping && fresh(all - old(all)) && Underway(s0, Snap(), limits, served)
        invariant records <= limits.batchChunks && (records <= 1 || bytes <= limits.batchBytes)
        invariant sends == s0.sends + records && sentBytes == s0.sentBytes + bytes && SameDocument()
        invariant records == 0 ==> served == {} && StillFirst()
        invariant records > 0 ==> first != null && first in old(all) && Opens(first)
      {
        ghost var s1 := Snap();
        SnapCounts();
        var q := NextQueuedQueue(if limits.paced then served else {});
        ghost var s2 := Snap();
        TurnKeepsUnderway(s0, s1, s2, limits, served);
        SnapCounts();
        if q == null || (records > 0 && bytes + Size(q.chunks[0]) > limits.batchBytes) {
          UnderwayIsBatched(s0, s2, limits, served);
          if q == null {
            EndsServed(s0, served);
            end := NoneLeft(if limits.paced then served else {});
          } else {
            EndsTooBig(q, s0, served);
            end := TooBig(q);
          }
          return;
        }
        label chosen:
        var record, sent, goOn := SendHead(q, depth);
        ghost var s3 := Snap();
        SendKeepsUnderway(s0, s2, s3, limits, served, q, HandOver(record));
        InSnap(q);
        if records == 0 {
          first := q;
        } else {
          StillOpened@chosen(first);
        }
        served := served + {q.id};
        bytes, records := bytes + Size(record), records + 1;
        if !goOn {
          UnderwayIsBatched(s0, s3, limits, served);
          EndsInterrupted(q, record, s0);
          end := Interrupted(q, record);
          return;
        }
      }
      SnapCounts();
      UnderwayIsBatched(s0, Snap(), limits, served);
      EndsFull(s0);
      end := Full;
    }

    /** One delivery frame: a bounded batch; whatever stays deliverable has its next frame armed. */
    method Pump(depth: nat) returns (ghost first: TerminalQueue?, ghost end: FrameEnd)
      requires Valid() && !timerArmed
      modifies this, all
      ensures Valid() && TimerOk() && fresh(all - old(all)) && pumping == old(pumping)
      ensures Batched(old(Snap()), Snap(), limits)
      ensures if old(disposed || !rendererReady || pumping) then Nothing() else Ended(end, old(Snap()))
      ensures old(!disposed && !pumping && Deliverable()) ==> first != null && first in old(all) && Opens(first)
    {
      hide Valid, Base, QuietBetween, Batched, Snap, Deliverable, Ended, FirstReady, Rotation;
      ghost var s0 := Snap();
      LimitsOk();
      if disposed || !rendererReady || pumping {
        BatchedSelf(s0, limits);
        NothingIsQuiet();
        NoFrameNeeded();
        first, end := null, Full;
        return;
      }
      SetPumping(true);
      ghost var s1 := Snap();
      first, end := PumpBatch(depth);
      ghost var s2 := Snap();
      BatchedIgnoresPumping(s1, s2, limits, s0.pumping, false);
      EndedIgnoresPumping(end, s1, s0.pumping);
      PumpingHasNoTimer();
      SetPumping(false);
      SchedulePumpIfNeeded();
    }

    lemma NoFrameNeeded()
      requires Valid() && (disposed || !rendererReady || pumping)
      ensures TimerOk() && (pumping || !Deliverable())
    {
    }

    method ClearTimer()
      requires Valid()
      modifies `timerArmed
      ensures Valid() && !timerArmed
    {
      hide QueuesOk, WedgeFreeBut, OrderOk;
      timerArmed := false;
    }

    /** The frame timer fires. */
    method OnTimer(depth: nat) returns (ghost first: TerminalQueue?, ghost end: FrameEnd)
      requires Valid() && timerArmed
      modifies this, all
      ensures Valid() && TimerOk() && fresh(all - old(all)) && Batched(old(Snap()), Snap(), limits)
      ensures Ended(end, old(Snap()))
      ensures old(Deliverable()) ==> first != null && first in old(all) && Opens(first)
    {
      hide Valid, Batched, Snap, Deliverable, Ended, FirstReady, Rotation;
      ArmedMeansReady();
      ClearTimer();
      first, end := Pump(depth);
    }

    lemma ArmedMeansReady()
      requires Valid() && timerArmed
      ensures !disposed && rendererReady && !pumping
    {
    }

    // ------------------------------------------------- whole-run results

    /** Nothing accepted is lost or reordered, and every hand-over of one sequence number carries the same bytes. */
    ghost predicate LosslessQueue(q: TerminalQueue)
      reads q
    {
      && (q.live ==> q.Mirrors())
      && Contents(q.Now(), q.Now().nextSequence) == q.Now().accepted
      && forall i, j | 0 <= i < j < |q.deliveries| && q.deliveries[i].sequence == q.deliveries[j].sequence ::
           q.deliveries[i].payload == q.deliveries[j].payload
    }

    /** A finish that resolved true had every record, and last of all the exit marker, acknowledged. */
    ghost predicate HonestOutcomes(q: TerminalQueue)
      reads q
    {
      (exists w :: w in q.outcomes && q.outcomes[w]) ==>
        var l := q.Now();
        && l.finishCode.Some?
        && (forall s :: s in l.acked <==> 1 <= s < l.nextSequence)
        && l.nextSequence - 1 in l.acked && l.acked[l.nextSequence - 1] == Exit(l.nextSequence - 1, l.finishCode.value)
        && (forall s | s in l.acked && s < l.nextSequence - 1 :: l.acked[s].Data?)
    }

    lemma EveryQueueIsLossless(q: TerminalQueue)
      requires Valid() && q in all
      ensures LosslessQueue(q)
    {
      hide Valid, Base, Contents, NotWedged, Run, Inv;
      KeptFaithful(q);
      EveryReachableLedger(q.events);
      Lossless(q.Now());
      forall i, j | 0 <= i < j < |q.deliveries| && q.deliveries[i].sequence == q.deliveries[j].sequence
        ensures q.deliveries[i].payload == q.deliveries[j].payload
      {
        ReplaysAreIdentical(q.events, q.deliveries, i, j);
      }
    }

    /** What was accepted and is not acknowledged yet never exceeds the limits, in bytes and in records. */
    lemma BacklogIsBounded(q: TerminalQueue)
      requires Valid() && q in all && q.live
      ensures var l := q.Now();
              && |l.accepted| - Sum(l.acked, l.nextSequence) <= limits.maxQueueBytes
              && l.nextSequence - 1 - |l.acked.Keys| <= limits.maxQueueChunks
    {
      hide Valid, Base, Run;
      LiveIsOk(q);
      EveryRunConserves(q.events);
    }

    lemma KeptFaithful(q: TerminalQueue)
      requires Valid() && q in all
      ensures (q.live ==> q.Mirrors()) && Faithful(q.Now(), q.deliveries)
    {
      hide Run, Faithful;
    }

    lemma TrueOutcomeIsDrained(q: TerminalQueue, w: int)
      requires Valid() && q in all && w in q.outcomes && q.outcomes[w]
      ensures q.Drained() && !q.live
    {
      hide Run, Faithful;
    }

    lemma EveryOutcomeIsHonest(q: TerminalQueue)
      requires Valid() && q in all
      ensures HonestOutcomes(q)
    {
      hide Valid, Base, NotWedged, Run, Inv;
      if w :| w in q.outcomes && q.outcomes[w] {
        TrueOutcomeIsDrained(q, w);
        EveryReachableLedger(q.events);
        DrainedMeansDelivered(q.Now());
      }
    }

    /** A paused source is never stuck: a frame is armed for it, or the renderer still owes an acknowledgement. */
    lemma NeverStuck(q: TerminalQueue)
      requires Valid() && TimerOk() && !pumping && q in all && q.live
      requires Roomy(limits) && !q.oversized && q.paused && !q.closing && CanDeliver(q)
      ensures q.Retained() > limits.lowWaterBytes || q.RetainedCount() > limits.lowWaterChunks
      ensures if q.chunks != [] then timerArmed else q.inFlight.Keys != {}
    {
      hide Valid, Base, Run;
      LiveIsOk(q);
      EveryReachableLedger(q.events);
      NothingRetained(q.Now());
    }

    lemma NothingRetained(l: Ledger)
      requires Inv(l)
      ensures l.chunks == [] && l.inFlight.Keys == {} ==> l.queuedBytes + l.inFlightBytes == 0
    {
      if l.inFlight.Keys == {} {
        assert l.inFlight == map[];
        SumEmpty(l.nextSequence);
      }
    }

    /**
     Every run: construct with any options, then any finite sequence of public
     calls and timer firings, with any re-entry. None where construction throws.
     */
    static method Lifetime(o: Options, depth: nat) returns (s: PtyEgressScheduler?)
      ensures s == null <==> Resolve(o).None?
      ensures s != null ==> s.limits == Resolve(o).value && s.Valid() && s.TimerOk()
      ensures s != null ==> forall q | q in s.all :: s.LosslessQueue(q) && s.HonestOutcomes(q)
    {
      var limits := Resolve(o);
      if limits.None? {
        return null;
      }
      var run := new PtyEgressScheduler(limits.value);
      var steps: nat := *;
      while steps > 0
        invariant run.Valid() && run.TimerOk() && fresh(run) && fresh(run.all)
        decreases steps
      {
        var timer: bool := *;
        run.Step(timer, depth);
        steps := steps - 1;
      }
      forall q | q in run.all ensures run.LosslessQueue(q) && run.HonestOutcomes(q) {
        run.EveryQueueIsLossless(q);
        run.EveryOutcomeIsHonest(q);
      }
      s := run;
    }

    /** One step of a run: the frame timer fires, if armed, or some public call is made. */
    method Step(timer: bool, depth: nat)
      requires Valid() && TimerOk()
      modifies this, all
      ensures Valid() && TimerOk() && fresh(all - old(all)) && Grown(old(Snap()), Snap())
      ensures if timer && old(timerArmed) then Batched(old(Snap()), Snap(), limits) else Quiet()
    {
      hide Valid, TimerOk, QuietBetween, Batched, Grown, Snap;
      ghost var before := Snap();
      if timer && timerArmed {
        var _, _ := OnTimer(depth);
        BatchedIsGrown(before, Snap(), limits);
      } else {
        AnyCall(depth);
        QuietIsGrown(before, Snap());
      }
    }

    /**
     Offered to an empty queue, a quantum is admitted exactly when it fits a
     chunk and the queue. Any other one pauses the source with no
     acknowledgement left to resume it, since nothing is retained.
     */
    method OversizedQuantumWedges(q: TerminalQueue, data: seq<Byte>) returns (accepted: bool)
      requires Valid() && q in all && q.live && !q.closing && CanDeliver(q) && data != []
      requires q.chunks == [] && q.inFlight.Keys == {}
      modifies q
      ensures Valid() && (accepted <==> |data| <= CHUNK_BYTES && |data| <= limits.maxQueueBytes)
      ensures !accepted ==> q.paused && !q.closing && CanDeliver(q) && q.chunks == [] && q.inFlight.Keys == {}
    {
      hide Valid, Base, NotWedged, QueueOk, Run;
      LiveIsOk(q);
      ValidParts(q);
      EmptyHasRoom(q, |data|);
      accepted := Offer(q, data);
      TouchedKeepsValid(q);
    }

    lemma EmptyHasRoom(q: TerminalQueue, n: nat)
      requires ValidLimits(limits) && QueueOk(q) && q.chunks == [] && q.inFlight.Keys == {}
      ensures Room(q, n) <==> n <= CHUNK_BYTES && n <= limits.maxQueueBytes
    {
      EveryReachableLedger(q.events);
      NothingRetained(q.Now());
    }
  }
}
