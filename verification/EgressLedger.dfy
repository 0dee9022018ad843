/**
 The value-level ledger behind one terminal's egress queue: every admitted
 quantum owns a sequence number, and every sequence number below
 `nextSequence` lives in exactly one place (queued, in flight, acknowledged).

 The fields after `exitQueued` are history: they record what was admitted,
 what was ever handed to the transport and what the renderer acknowledged.
 The scheduler's mutable queue (module PtyEgress) maps onto this value.
 */
module EgressLedger {
  import opened Wrappers

  /** Capacity of one data record, and the largest quantum a source may offer. */
  const CHUNK_BYTES: nat := 64 * 1024

  datatype Record =
    | Data(sequence: int, bytes: seq<Byte>, sealed: bool)
    | Exit(sequence: int, code: int)

  function Payload(r: Record): seq<Byte> {
    if r.Data? then r.bytes else []
  }

  function Size(r: Record): nat {
    |Payload(r)|
  }

  function Seal(r: Record): Record {
    if r.Data? then r.(sealed := true) else r
  }

  datatype Ledger = Ledger(
    chunks: seq<Record>,
    queuedBytes: int,
    inFlight: map<int, Record>,
    inFlightBytes: int,
    nextSequence: nat,
    finishCode: Option<int>,
    exitQueued: bool,
    log: seq<seq<Byte>>,
    accepted: seq<Byte>,
    acked: map<int, Record>,
    sent: set<int>)

  const EmptyLedger := Ledger([], 0, map[], 0, 1, None, false, [], [], map[], {})

  // ---------------------------------------------------------------- sums

  function Total(rs: seq<Record>): nat {
    if rs == [] then 0 else Size(rs[0]) + Total(rs[1..])
  }

  lemma {:induction false} TotalConcat(a: seq<Record>, b: seq<Record>)
    ensures Total(a + b) == Total(a) + Total(b)
  {
    if a == [] {
      assert a + b == b;
    } else {
      assert (a + b)[1..] == a[1..] + b;
      TotalConcat(a[1..], b);
    }
  }

  /** The records of `m` with key in [0, n), in key order: what sorting the in-flight map yields. */
  function InOrder(m: map<int, Record>, n: nat): seq<Record> {
    if n == 0 then [] else InOrder(m, n - 1) + At(m, n - 1)
  }

  function At(m: map<int, Record>, s: int): seq<Record> {
    if s in m then [m[s]] else []
  }

  /** Bytes held by the records of `m` with key in [0, n). */
  function Sum(m: map<int, Record>, n: nat): nat {
    if n == 0 then 0 else Sum(m, n - 1) + (if n - 1 in m then Size(m[n - 1]) else 0)
  }

  function Flatten(log: seq<seq<Byte>>): seq<Byte> {
    if log == [] then [] else Flatten(log[..|log| - 1]) + log[|log| - 1]
  }

  // ----------------------------------------------------------- invariant

  ghost predicate Increasing(rs: seq<Record>) {
    forall i, j | 0 <= i < j < |rs| :: rs[i].sequence < rs[j].sequence
  }

  ghost predicate Holds(rs: seq<Record>, s: int) {
    exists i :: 0 <= i < |rs| && rs[i].sequence == s
  }

  ghost predicate Queued(l: Ledger, s: int) {
    Holds(l.chunks, s)
  }

  /** A record agrees with the log, and only sealed data has ever left the queue. */
  ghost predicate Sound(l: Ledger, r: Record) {
    && 1 <= r.sequence < l.nextSequence
    && r.sequence <= |l.log|
    && Payload(r) == l.log[r.sequence - 1]
    && (r.Data? ==> 1 <= |r.bytes| <= CHUNK_BYTES)
    && (r.Data? && r.sequence in l.sent ==> r.sealed)
  }

  ghost predicate SoundMap(l: Ledger, m: map<int, Record>) {
    forall s | s in m :: m[s].sequence == s && s in l.sent && Sound(l, m[s])
  }

  ghost predicate Shape(l: Ledger) {
    && l.nextSequence == |l.log| + 1
    && Flatten(l.log) == l.accepted
    && (forall s | s in l.sent :: 1 <= s < l.nextSequence)
    && (forall i | 0 <= i < |l.chunks| :: Sound(l, l.chunks[i]))
    && SoundMap(l, l.inFlight)
    && SoundMap(l, l.acked)
  }

  ghost predicate OnePlace(l: Ledger) {
    && Increasing(l.chunks)
    && (forall s, i | s in l.inFlight && 0 <= i < |l.chunks| :: s < l.chunks[i].sequence)
    && l.acked.Keys !! l.inFlight.Keys
    && (forall i | 0 <= i < |l.chunks| :: l.chunks[i].sequence !in l.acked)
    && (forall s | 1 <= s < l.nextSequence :: s in l.acked || s in l.inFlight || Queued(l, s))
  }

  ghost predicate Counted(l: Ledger) {
    && l.queuedBytes == Total(l.chunks)
    && l.inFlightBytes == Sum(l.inFlight, l.nextSequence)
  }

  /** A tail that may still coalesce is the newest record. */
  ghost predicate OpenTail(l: Ledger) {
    l.chunks != [] && l.chunks[|l.chunks| - 1].Data? && !l.chunks[|l.chunks| - 1].sealed
    ==> l.chunks[|l.chunks| - 1].sequence == l.nextSequence - 1
  }

  ghost predicate ExitOrdered(l: Ledger) {
    if l.exitQueued then
      && l.finishCode.Some?
      && l.nextSequence >= 2
      && (forall i | 0 <= i < |l.chunks| :: l.chunks[i] == Exit(l.nextSequence - 1, l.finishCode.value))
      && (forall s | s in l.inFlight :: l.inFlight[s] == Exit(l.nextSequence - 1, l.finishCode.value))
      && (forall s | s in l.acked :: if s == l.nextSequence - 1
                                     then l.acked[s] == Exit(s, l.finishCode.value)
                                     else l.acked[s].Data?)
    else
      && (forall i | 0 <= i < |l.chunks| :: l.chunks[i].Data?)
      && (forall s | s in l.inFlight :: l.inFlight[s].Data?)
      && (forall s | s in l.acked :: l.acked[s].Data?)
  }

  ghost predicate Tail(l: Ledger) {
    OpenTail(l) && ExitOrdered(l)
  }

  ghost predicate Inv(l: Ledger) {
    Shape(l) && Tail(l) && OnePlace(l) && Counted(l)
  }

  // --------------------------------------------------------- transitions

  /** The open tail a paced quantum of `n` bytes would be copied into. */
  predicate Coalesces(l: Ledger, n: nat, paced: bool) {
    && paced
    && l.chunks != []
    && l.chunks[|l.chunks| - 1].Data?
    && !l.chunks[|l.chunks| - 1].sealed
    && |l.chunks[|l.chunks| - 1].bytes| + n <= CHUNK_BYTES
  }

  function RetainedBytes(l: Ledger): int {
    l.queuedBytes + l.inFlightBytes
  }

  function RetainedChunks(l: Ledger): nat {
    |l.chunks| + |l.inFlight.Keys|
  }

  function Admit(l: Ledger, bytes: seq<Byte>, paced: bool): Ledger
    requires Coalesces(l, |bytes|, paced) ==> l.log != []
  {
    var l' := l.(queuedBytes := l.queuedBytes + |bytes|, accepted := l.accepted + bytes);
    if Coalesces(l, |bytes|, paced) then
      var last := |l.chunks| - 1;
      l'.(chunks := l.chunks[last := l.chunks[last].(bytes := l.chunks[last].bytes + bytes)],
          log := l.log[|l.log| - 1 := l.log[|l.log| - 1] + bytes])
    else
      l'.(chunks := l.chunks + [Data(l.nextSequence, bytes, false)],
          nextSequence := l.nextSequence + 1,
          log := l.log + [bytes])
  }

  /** The head record is sealed and moved in flight, just before the transport sees it. */
  function Take(l: Ledger): Ledger
    requires l.chunks != []
  {
    var r := Seal(l.chunks[0]);
    l.(chunks := l.chunks[1..],
       queuedBytes := l.queuedBytes - Size(r),
       inFlight := l.inFlight[r.sequence := r],
       inFlightBytes := l.inFlightBytes + Size(r),
       sent := l.sent + {r.sequence})
  }

  function Retire(l: Ledger, s: int): Ledger
    requires s in l.inFlight
  {
    l.(inFlight := l.inFlight - {s},
       inFlightBytes := l.inFlightBytes - Size(l.inFlight[s]),
       acked := l.acked[s := l.inFlight[s]])
  }

  /** A refused send: the record returns to the head of the queue. */
  function Requeue(l: Ledger, s: int): Ledger
    requires s in l.inFlight
  {
    l.(inFlight := l.inFlight - {s},
       inFlightBytes := l.inFlightBytes - Size(l.inFlight[s]),
       chunks := [l.inFlight[s]] + l.chunks,
       queuedBytes := l.queuedBytes + Size(l.inFlight[s]))
  }

  function Replay(l: Ledger): Ledger {
    l.(inFlight := map[],
       inFlightBytes := 0,
       chunks := InOrder(l.inFlight, l.nextSequence) + l.chunks,
       queuedBytes := l.queuedBytes + Sum(l.inFlight, l.nextSequence))
  }

  function Close(l: Ledger, code: int): Ledger {
    if l.finishCode.Some? then l else l.(finishCode := Some(code))
  }

  ghost predicate HoldsData(l: Ledger) {
    (exists i :: 0 <= i < |l.chunks| && l.chunks[i].Data?) || (exists s :: s in l.inFlight && l.inFlight[s].Data?)
  }

  /** The exit marker is appended once the closing ledger holds no data record. */
  ghost function MarkExit(l: Ledger): Ledger {
    if l.finishCode.None? || l.exitQueued || HoldsData(l) then l
    else l.(exitQueued := true,
            chunks := l.chunks + [Exit(l.nextSequence, l.finishCode.value)],
            nextSequence := l.nextSequence + 1,
            log := l.log + [[]])
  }

  // ----------------------------------------- facts about sums and order

  lemma {:induction false} InOrderTotal(m: map<int, Record>, n: nat)
    ensures Total(InOrder(m, n)) == Sum(m, n)
  {
    if n > 0 {
      InOrderTotal(m, n - 1);
      TotalConcat(InOrder(m, n - 1), At(m, n - 1));
    }
  }

  /** Sorting lists exactly the keyed records, in strictly increasing sequence order. */
  lemma {:induction false} InOrderSpec(m: map<int, Record>, n: nat)
    requires forall s | s in m :: m[s].sequence == s
    ensures forall i | 0 <= i < |InOrder(m, n)| ::
              var r := InOrder(m, n)[i]; r.sequence < n && r.sequence in m && m[r.sequence] == r
    ensures Increasing(InOrder(m, n))
    ensures forall s | s in m && 0 <= s < n :: Holds(InOrder(m, n), s)
  {
    if n > 0 {
      InOrderSpec(m, n - 1);
      var p := InOrder(m, n - 1);
      forall s | s in m && 0 <= s < n ensures Holds(InOrder(m, n), s) {
        if s < n - 1 {
          HoldsConcat(p, At(m, n - 1), s);
        } else {
          assert At(m, n - 1)[0].sequence == s;
          HoldsConcat(p, At(m, n - 1), s);
        }
      }
    }
  }

  lemma HoldsConcat(a: seq<Record>, b: seq<Record>, s: int)
    ensures Holds(a + b, s) <==> Holds(a, s) || Holds(b, s)
  {
    if Holds(a, s) {
      var i :| 0 <= i < |a| && a[i].sequence == s;
      assert (a + b)[i].sequence == s;
    }
    if Holds(b, s) {
      var i :| 0 <= i < |b| && b[i].sequence == s;
      assert (a + b)[|a| + i].sequence == s;
    }
  }

  lemma HoldsOne(r: Record, s: int)
    ensures Holds([r], s) <==> r.sequence == s
  {
    assert [r][0] == r;
  }

  /** `m'` is `m` without key `k`. */
  ghost predicate Lacks(m: map<int, Record>, m': map<int, Record>, k: int) {
    && k in m && k !in m'
    && (forall s | s in m && s != k :: s in m' && m'[s] == m[s])
    && (forall s | s in m' :: s in m)
  }

  lemma {:induction false} SumRemove(m: map<int, Record>, m': map<int, Record>, k: nat, n: nat)
    requires Lacks(m, m', k)
    ensures Sum(m, n) == Sum(m', n) + (if k < n then Size(m[k]) else 0)
  {
    if n > 0 {
      SumRemove(m, m', k, n - 1);
    }
  }

  lemma {:induction false} SumExtend(m: map<int, Record>, n: nat, n': nat)
    requires n <= n' && forall s | s in m :: s < n
    ensures Sum(m, n') == Sum(m, n)
  {
    if n < n' {
      SumExtend(m, n, n' - 1);
    }
  }

  lemma {:induction false} SumEmpty(n: nat)
    ensures Sum(map[], n) == 0
  {
    if n > 0 {
      SumEmpty(n - 1);
    }
  }

  function Below(keys: set<int>, n: nat): set<int> {
    set s | s in keys && 0 <= s < n
  }

  lemma {:induction false} InOrderCount(m: map<int, Record>, n: nat)
    ensures |InOrder(m, n)| == |Below(m.Keys, n)|
  {
    if n > 0 {
      InOrderCount(m, n - 1);
      if n - 1 in m {
        assert Below(m.Keys, n) == Below(m.Keys, n - 1) + {n - 1};
      } else {
        assert Below(m.Keys, n) == Below(m.Keys, n - 1);
      }
    }
  }

  /** Flatten only depends on the last entry when the last entry changes. */
  lemma FlattenLast(log: seq<seq<Byte>>, more: seq<Byte>)
    requires log != []
    ensures Flatten(log[|log| - 1 := log[|log| - 1] + more]) == Flatten(log) + more
  {
    var grown := log[|log| - 1 := log[|log| - 1] + more];
    assert grown[..|grown| - 1] == log[..|log| - 1];
  }

  lemma FlattenAppend(log: seq<seq<Byte>>, more: seq<Byte>)
    ensures Flatten(log + [more]) == Flatten(log) + more
  {
    assert (log + [more])[..|log|] == log;
  }

  lemma TotalSplitLast(rs: seq<Record>)
    requires rs != []
    ensures Total(rs) == Total(rs[..|rs| - 1]) + Size(rs[|rs| - 1])
  {
    assert rs == rs[..|rs| - 1] + [rs[|rs| - 1]];
    TotalConcat(rs[..|rs| - 1], [rs[|rs| - 1]]);
  }

  // ------------------------------------------- every transition keeps Inv

  lemma EmptyKeepsInv()
    ensures Inv(EmptyLedger)
  {
  }

  lemma CoalesceShape(l: Ledger, bytes: seq<Byte>, paced: bool)
    requires Shape(l) && OpenTail(l) && Increasing(l.chunks) && 1 <= |bytes| && Coalesces(l, |bytes|, paced)
    ensures l.log != [] && Shape(Admit(l, bytes, paced))
  {
    assert Sound(l, l.chunks[|l.chunks| - 1]);
    FlattenLast(l.log, bytes);
  }

  lemma CoalesceTail(l: Ledger, bytes: seq<Byte>, paced: bool)
    requires Tail(l) && l.log != [] && Coalesces(l, |bytes|, paced)
    ensures Tail(Admit(l, bytes, paced))
  {
  }

  lemma CoalescePlaces(l: Ledger, bytes: seq<Byte>, paced: bool)
    requires OnePlace(l) && l.log != [] && Coalesces(l, |bytes|, paced)
    ensures OnePlace(Admit(l, bytes, paced))
  {
    var l' := Admit(l, bytes, paced);
    forall s | Queued(l, s) ensures Queued(l', s) {
      var i :| 0 <= i < |l.chunks| && l.chunks[i].sequence == s;
      assert l'.chunks[i].sequence == s;
    }
  }

  lemma CoalesceCounts(l: Ledger, bytes: seq<Byte>, paced: bool)
    requires Counted(l) && l.log != [] && Coalesces(l, |bytes|, paced)
    ensures Counted(Admit(l, bytes, paced))
  {
    var l' := Admit(l, bytes, paced);
    TotalSplitLast(l.chunks);
    TotalSplitLast(l'.chunks);
    assert l'.chunks[..|l.chunks| - 1] == l.chunks[..|l.chunks| - 1];
  }

  lemma AppendShape(l: Ledger, bytes: seq<Byte>, paced: bool)
    requires Shape(l) && 1 <= |bytes| <= CHUNK_BYTES && !Coalesces(l, |bytes|, paced)
    ensures Shape(Admit(l, bytes, paced))
  {
    FlattenAppend(l.log, bytes);
  }

  lemma AppendTail(l: Ledger, bytes: seq<Byte>, paced: bool)
    requires Tail(l) && l.finishCode.None? && !Coalesces(l, |bytes|, paced)
    ensures Tail(Admit(l, bytes, paced))
  {
  }

  /** Appending one newest record keeps every sequence number in one place. */
  lemma AppendPlaces(l: Ledger, l': Ledger, added: Record)
    requires Shape(l) && OnePlace(l)
    requires added.sequence == l.nextSequence && l'.nextSequence == l.nextSequence + 1
    requires l'.chunks == l.chunks + [added] && l'.inFlight == l.inFlight && l'.acked == l.acked
    ensures OnePlace(l')
  {
    forall s | Queued(l, s) || s == added.sequence ensures Queued(l', s) {
      HoldsOne(added, s);
      HoldsConcat(l.chunks, [added], s);
    }
  }

  lemma AppendCounts(l: Ledger, l': Ledger, added: Record)
    requires Shape(l) && Counted(l) && l'.nextSequence == l.nextSequence + 1
    requires l'.chunks == l.chunks + [added] && l'.inFlight == l.inFlight && l'.inFlightBytes == l.inFlightBytes
    requires l'.queuedBytes == l.queuedBytes + Size(added)
    ensures Counted(l')
  {
    TotalConcat(l.chunks, [added]);
    SumExtend(l.inFlight, l.nextSequence, l'.nextSequence);
  }

  lemma AdmitKeepsInv(l: Ledger, bytes: seq<Byte>, paced: bool)
    requires Inv(l) && l.finishCode.None? && 1 <= |bytes| <= CHUNK_BYTES
    ensures Coalesces(l, |bytes|, paced) ==> l.log != []
    ensures Inv(Admit(l, bytes, paced))
  {
    if Coalesces(l, |bytes|, paced) {
      CoalesceShape(l, bytes, paced);
      CoalesceTail(l, bytes, paced);
      CoalescePlaces(l, bytes, paced);
      CoalesceCounts(l, bytes, paced);
    } else {
      var added := Data(l.nextSequence, bytes, false);
      AppendShape(l, bytes, paced);
      AppendTail(l, bytes, paced);
      AppendPlaces(l, Admit(l, bytes, paced), added);
      AppendCounts(l, Admit(l, bytes, paced), added);
    }
  }

  lemma MarkExitShape(l: Ledger)
    requires Shape(l)
    ensures Shape(MarkExit(l))
  {
    FlattenAppend(l.log, []);
  }

  lemma MarkExitTail(l: Ledger)
    requires Shape(l) && Tail(l)
    ensures Tail(MarkExit(l))
  {
  }

  lemma MarkExitKeepsInv(l: Ledger)
    requires Inv(l)
    ensures Inv(MarkExit(l))
  {
    MarkExitShape(l);
    MarkExitTail(l);
    if MarkExit(l) != l {
      var added := Exit(l.nextSequence, l.finishCode.value);
      AppendPlaces(l, MarkExit(l), added);
      AppendCounts(l, MarkExit(l), added);
    }
  }

  lemma CloseShape(l: Ledger, code: int)
    requires Shape(l)
    ensures Shape(Close(l, code))
  {
  }

  lemma ClosePlaces(l: Ledger, code: int)
    requires OnePlace(l)
    ensures OnePlace(Close(l, code))
  {
    assert forall s :: Queued(Close(l, code), s) <==> Queued(l, s);
  }

  lemma CloseKeepsInv(l: Ledger, code: int)
    requires Inv(l)
    ensures Inv(Close(l, code))
  {
    CloseShape(l, code);
    ClosePlaces(l, code);
  }

  // Take: head of the queue -> in flight

  lemma TakeShape(l: Ledger)
    requires Shape(l) && Increasing(l.chunks) && l.chunks != []
    ensures Shape(Take(l))
  {
    assert Sound(l, l.chunks[0]);
  }

  lemma TakeTail(l: Ledger)
    requires Shape(l) && Tail(l) && l.chunks != []
    ensures Tail(Take(l))
  {
  }

  lemma TakePlaces(l: Ledger)
    requires OnePlace(l) && l.chunks != []
    ensures OnePlace(Take(l))
  {
    var l' := Take(l);
    forall s | Queued(l, s) ensures s in l'.inFlight || Queued(l', s) {
      HoldsOne(l.chunks[0], s);
      HoldsConcat([l.chunks[0]], l.chunks[1..], s);
      assert [l.chunks[0]] + l.chunks[1..] == l.chunks;
    }
  }

  lemma TakeCounts(l: Ledger)
    requires Counted(l) && l.chunks != [] && 0 <= l.chunks[0].sequence < l.nextSequence
    requires l.chunks[0].sequence !in l.inFlight
    ensures Counted(Take(l))
  {
    var s := l.chunks[0].sequence;
    SumRemove(Take(l).inFlight, l.inFlight, s, l.nextSequence);
  }

  lemma TakeKeepsInv(l: Ledger)
    requires Inv(l) && l.chunks != []
    ensures Inv(Take(l))
  {
    assert Sound(l, l.chunks[0]);
    TakeShape(l);
    TakeTail(l);
    TakePlaces(l);
    TakeCounts(l);
  }

  // Retire: in flight -> acknowledged

  lemma RetireShape(l: Ledger, s: int)
    requires Shape(l) && s in l.inFlight
    ensures Shape(Retire(l, s))
  {
  }

  lemma RetireTail(l: Ledger, s: int)
    requires Shape(l) && Tail(l) && s in l.inFlight
    ensures Tail(Retire(l, s))
  {
  }

  lemma RetirePlaces(l: Ledger, s: int)
    requires OnePlace(l) && s in l.inFlight
    ensures OnePlace(Retire(l, s))
  {
    assert forall t :: Queued(Retire(l, s), t) <==> Queued(l, t);
  }

  lemma RemoveCounts(l: Ledger, s: int)
    requires Shape(l) && s in l.inFlight
    ensures Sum(l.inFlight - {s}, l.nextSequence) == Sum(l.inFlight, l.nextSequence) - Size(l.inFlight[s])
  {
    SumRemove(l.inFlight, l.inFlight - {s}, s, l.nextSequence);
  }

  lemma RetireKeepsInv(l: Ledger, s: int)
    requires Inv(l) && s in l.inFlight
    ensures Inv(Retire(l, s))
  {
    RetireShape(l, s);
    RetireTail(l, s);
    RetirePlaces(l, s);
    RemoveCounts(l, s);
  }

  // Requeue: a refused send of the newest in-flight record

  lemma RequeueShape(l: Ledger, s: int)
    requires Shape(l) && s in l.inFlight
    ensures Shape(Requeue(l, s))
  {
  }

  lemma RequeueTail(l: Ledger, s: int)
    requires Shape(l) && Tail(l) && s in l.inFlight
    ensures Tail(Requeue(l, s))
  {
  }

  lemma RequeuePlaces(l: Ledger, s: int)
    requires Shape(l) && OnePlace(l) && s in l.inFlight && forall t | t in l.inFlight :: t <= s
    ensures OnePlace(Requeue(l, s))
  {
    var l' := Requeue(l, s);
    InFrontIncreases(l, s);
    hide Increasing, Sound, Holds, Flatten;
    assert l.inFlight[s].sequence == s;
    forall t | 1 <= t < l'.nextSequence ensures t in l'.acked || t in l'.inFlight || Queued(l', t) {
      HoldsOne(l.inFlight[s], t);
      HoldsConcat([l.inFlight[s]], l.chunks, t);
    }
  }

  /** The newest record in flight is older than all queued ones. */
  lemma InFrontIncreases(l: Ledger, s: int)
    requires Shape(l) && OnePlace(l) && s in l.inFlight
    ensures Increasing([l.inFlight[s]] + l.chunks)
  {
  }

  lemma RequeueCounts(l: Ledger, s: int)
    requires Shape(l) && Counted(l) && s in l.inFlight
    ensures Counted(Requeue(l, s))
  {
    RemoveCounts(l, s);
    assert Total(Requeue(l, s).chunks) == Size(l.inFlight[s]) + Total(l.chunks) by {
      assert Requeue(l, s).chunks[1..] == l.chunks;
    }
  }

  lemma RequeueKeepsInv(l: Ledger, s: int)
    requires Inv(l) && s in l.inFlight && forall t | t in l.inFlight :: t <= s
    ensures Inv(Requeue(l, s))
  {
    RequeueShape(l, s);
    RequeueTail(l, s);
    RequeuePlaces(l, s);
    RequeueCounts(l, s);
  }

  // Replay: everything in flight returns to the queue, in sequence order

  lemma ReplayShape(l: Ledger)
    requires Shape(l)
    ensures Shape(Replay(l))
  {
    InOrderSpec(l.inFlight, l.nextSequence);
  }

  lemma ReplayTail(l: Ledger)
    requires Shape(l) && Tail(l)
    ensures Tail(Replay(l))
  {
    InOrderSpec(l.inFlight, l.nextSequence);
  }

  lemma ReplayPlaces(l: Ledger)
    requires Shape(l) && OnePlace(l)
    ensures OnePlace(Replay(l))
  {
    var l' := Replay(l);
    InOrderSpec(l.inFlight, l.nextSequence);
    forall s | s in l.inFlight || Queued(l, s) ensures Queued(l', s) {
      HoldsConcat(InOrder(l.inFlight, l.nextSequence), l.chunks, s);
    }
  }

  lemma ReplayKeepsInv(l: Ledger)
    requires Inv(l)
    ensures Inv(Replay(l))
  {
    ReplayShape(l);
    ReplayTail(l);
    ReplayPlaces(l);
    TotalConcat(InOrder(l.inFlight, l.nextSequence), l.chunks);
    InOrderTotal(l.inFlight, l.nextSequence);
    SumEmpty(l.nextSequence);
  }

  // ------------------------------------------------------- main theorems

  /** The payload held under sequence number `s`, read from wherever the record lives. */
  function PayloadAt(l: Ledger, s: int): seq<Byte> {
    if s in l.acked then Payload(l.acked[s])
    else if s in l.inFlight then Payload(l.inFlight[s])
    else PayloadIn(l.chunks, s)
  }

  function PayloadIn(rs: seq<Record>, s: int): seq<Byte> {
    if rs == [] then [] else if rs[0].sequence == s then Payload(rs[0]) else PayloadIn(rs[1..], s)
  }

  /** Sequence numbers 1 .. n - 1, each read from its place. */
  function Contents(l: Ledger, n: nat): seq<Byte> {
    if n <= 1 then [] else Contents(l, n - 1) + PayloadAt(l, n - 1)
  }

  ghost predicate ExactlyOnePlace(l: Ledger, s: int) {
    (if s in l.acked then 1 else 0) + (if s in l.inFlight then 1 else 0) + (if Queued(l, s) then 1 else 0) == 1
  }

  /** Every sequence number lives in exactly one place. */
  lemma EachInOnePlace(l: Ledger)
    requires OnePlace(l)
    ensures forall s | 1 <= s < l.nextSequence :: ExactlyOnePlace(l, s)
  {
  }

  /** Lossless: read in sequence order, the places together hold exactly the accepted bytes. */
  lemma Lossless(l: Ledger)
    requires Inv(l)
    ensures Contents(l, l.nextSequence) == l.accepted
  {
    PlacesHoldLog(l);
    ContentsAreLog(l, l.nextSequence);
    assert l.log[..l.nextSequence - 1] == l.log;
  }

  lemma PlacesHoldLog(l: Ledger)
    requires Shape(l) && OnePlace(l)
    ensures forall s | 1 <= s < l.nextSequence :: PayloadAt(l, s) == l.log[s - 1]
  {
    forall s | 1 <= s < l.nextSequence ensures PayloadAt(l, s) == l.log[s - 1] {
      PayloadFound(l, s);
    }
  }

  lemma {:induction false} ContentsAreLog(l: Ledger, n: nat)
    requires 1 <= n <= |l.log| + 1 && forall s | 1 <= s < n :: PayloadAt(l, s) == l.log[s - 1]
    ensures Contents(l, n) == Flatten(l.log[..n - 1])
  {
    if n > 1 {
      ContentsAreLog(l, n - 1);
      assert l.log[..n - 1][..n - 2] == l.log[..n - 2];
    }
  }

  lemma PayloadFound(l: Ledger, s: int)
    requires Shape(l) && OnePlace(l) && 1 <= s < l.nextSequence
    ensures PayloadAt(l, s) == l.log[s - 1]
  {
    if s !in l.acked && s !in l.inFlight {
      assert Queued(l, s);
      var i :| 0 <= i < |l.chunks| && l.chunks[i].sequence == s;
      PayloadInAt(l.chunks, i);
      assert Sound(l, l.chunks[i]);
    }
  }

  lemma {:induction false} PayloadInAt(rs: seq<Record>, i: nat)
    requires Increasing(rs) && i < |rs|
    ensures PayloadIn(rs, rs[i].sequence) == Payload(rs[i])
  {
    if i > 0 {
      PayloadInAt(rs[1..], i - 1);
    }
  }

  /** Once nothing is retained and the exit marker was queued, every record was
      acknowledged and the marker carries the largest sequence number. */
  lemma DrainedMeansDelivered(l: Ledger)
    requires Inv(l) && l.exitQueued && l.chunks == [] && l.inFlight.Keys == {}
    ensures forall s :: s in l.acked <==> 1 <= s < l.nextSequence
    ensures forall s | s in l.acked :: l.acked[s].Exit? <==> s == l.nextSequence - 1
    ensures l.finishCode.Some? && l.nextSequence - 1 in l.acked
    ensures l.acked[l.nextSequence - 1] == Exit(l.nextSequence - 1, l.finishCode.value)
  {
    forall s | 1 <= s < l.nextSequence ensures s in l.acked {
      assert !Queued(l, s);
    }
  }

  /** While the exit marker exists, no data record is retained and nothing is newer than it. */
  lemma ExitComesLast(l: Ledger)
    requires Inv(l) && l.exitQueued
    ensures !HoldsData(l)
    ensures RetainedChunks(l) <= 1 && RetainedBytes(l) == 0
    ensures forall s | 1 <= s < l.nextSequence - 1 :: s in l.acked && l.acked[s].Data?
  {
    var last := l.nextSequence - 1;
    forall s | 1 <= s < last ensures s in l.acked && l.acked[s].Data? {
      assert !Queued(l, s);
    }
    assert l.inFlight.Keys <= {last};
    SubsetOfOne(l.inFlight.Keys, last);
    if l.chunks != [] {
      Spread(l.chunks);
      assert l.chunks[0].sequence == last;
      assert l.inFlight.Keys == {};
    }
    ExitSum(l, l.nextSequence);
    ExitTotal(l.chunks);
  }

  lemma {:induction false} Spread(rs: seq<Record>)
    requires Increasing(rs) && rs != []
    ensures rs[|rs| - 1].sequence - rs[0].sequence >= |rs| - 1
  {
    if |rs| > 1 {
      Spread(rs[..|rs| - 1]);
    }
  }

  lemma SubsetOfOne(keys: set<int>, k: int)
    requires keys <= {k}
    ensures |keys| <= 1
  {
    if k in keys {
      assert keys == {k};
    } else {
      assert keys == {};
    }
  }

  lemma {:induction false} ExitSum(l: Ledger, n: nat)
    requires forall s | s in l.inFlight :: l.inFlight[s].Exit?
    ensures Sum(l.inFlight, n) == 0
  {
    if n > 0 {
      ExitSum(l, n - 1);
    }
  }

  lemma {:induction false} ExitTotal(rs: seq<Record>)
    requires forall i | 0 <= i < |rs| :: rs[i].Exit?
    ensures Total(rs) == 0
  {
    if rs != [] {
      ExitTotal(rs[1..]);
    }
  }

  // ------------------------------------------------------------- history

  /** What every transition keeps: nothing accepted, sent or acknowledged is ever rewritten. */
  ghost predicate Extends(l: Ledger, l': Ledger) {
    && l.accepted <= l'.accepted
    && l.sent <= l'.sent
    && |l.log| <= |l'.log|
    && (forall s | s in l.sent && 1 <= s <= |l.log| :: l'.log[s - 1] == l.log[s - 1])
    && (forall s | s in l.acked :: s in l'.acked && l'.acked[s] == l.acked[s])
    && (l.finishCode.Some? ==> l'.finishCode == l.finishCode && l'.accepted == l.accepted)
    && (l.exitQueued ==> l'.exitQueued && l'.log == l.log)
  }

  lemma ExtendsTransitive(a: Ledger, b: Ledger, c: Ledger)
    requires Extends(a, b) && Extends(b, c)
    ensures Extends(a, c)
  {
  }

  lemma AdmitExtends(l: Ledger, bytes: seq<Byte>, paced: bool)
    requires Inv(l) && l.finishCode.None? && (Coalesces(l, |bytes|, paced) ==> l.log != [])
    ensures Extends(l, Admit(l, bytes, paced))
  {
    if Coalesces(l, |bytes|, paced) {
      assert Sound(l, l.chunks[|l.chunks| - 1]);
    }
  }

  lemma RetireExtends(l: Ledger, s: int)
    requires Inv(l) && s in l.inFlight
    ensures Extends(l, Retire(l, s))
  {
  }

  // ----------------------------------------------- bounds and back-pressure

  lemma TakeRetains(l: Ledger)
    requires l.chunks != [] && l.chunks[0].sequence !in l.inFlight
    ensures RetainedBytes(Take(l)) == RetainedBytes(l) && RetainedChunks(Take(l)) == RetainedChunks(l)
  {
    KeysAdd(l.inFlight, l.chunks[0].sequence, Seal(l.chunks[0]));
  }

  lemma KeysAdd(m: map<int, Record>, k: int, r: Record)
    requires k !in m
    ensures |m[k := r].Keys| == |m.Keys| + 1
  {
    assert m[k := r].Keys == m.Keys + {k};
  }

  lemma RequeueRetains(l: Ledger, s: int)
    requires s in l.inFlight
    ensures RetainedBytes(Requeue(l, s)) == RetainedBytes(l) && RetainedChunks(Requeue(l, s)) == RetainedChunks(l)
  {
    assert Requeue(l, s).inFlight.Keys == l.inFlight.Keys - {s};
  }

  ghost predicate InFlightCounted(l: Ledger) {
    && l.inFlightBytes == Sum(l.inFlight, l.nextSequence)
    && (forall s | s in l.inFlight :: 0 <= s < l.nextSequence)
  }

  lemma ReachedCounts(events: seq<Event>)
    ensures InFlightCounted(Run(events))
    ensures Run(events).queuedBytes == Total(Run(events).chunks)
  {
    EveryReachableLedger(events);
  }

  /** Switching documents retains exactly what was retained: nothing is lost, nothing is duplicated. */
  lemma ReplayRetains(l: Ledger)
    requires InFlightCounted(l)
    ensures RetainedBytes(Replay(l)) == RetainedBytes(l) && RetainedChunks(Replay(l)) == RetainedChunks(l)
  {
    InOrderCount(l.inFlight, l.nextSequence);
    assert Below(l.inFlight.Keys, l.nextSequence) == l.inFlight.Keys;
    assert Replay(l).inFlight.Keys == {};
  }

  lemma RetireRetains(l: Ledger, s: int)
    requires s in l.inFlight
    ensures RetainedBytes(Retire(l, s)) == RetainedBytes(l) - Size(l.inFlight[s])
    ensures RetainedChunks(Retire(l, s)) == RetainedChunks(l) - 1
  {
    assert Retire(l, s).inFlight.Keys == l.inFlight.Keys - {s};
  }

  // ---------------------------------------------------------------- runs

  datatype Event =
    | EAdmit(bytes: seq<Byte>, paced: bool)
    | ETake
    | ERetire(sequence: int)
    | ERequeue(sequence: int)
    | EReplay
    | EClose(code: int)
    | EMarkExit

  ghost predicate Enabled(l: Ledger, e: Event) {
    match e
    case EAdmit(bytes, paced) => 1 <= |bytes| <= CHUNK_BYTES && l.finishCode.None? && (Coalesces(l, |bytes|, paced) ==> l.log != [])
    case ETake => l.chunks != []
    case ERetire(s) => s in l.inFlight
    case ERequeue(s) => s in l.inFlight && forall t | t in l.inFlight :: t <= s
    case _ => true
  }

  ghost function Apply(l: Ledger, e: Event): Ledger {
    if !Enabled(l, e) then l
    else match e
      case EAdmit(bytes, paced) => Admit(l, bytes, paced)
      case ETake => Take(l)
      case ERetire(s) => Retire(l, s)
      case ERequeue(s) => Requeue(l, s)
      case EReplay => Replay(l)
      case EClose(code) => Close(l, code)
      case EMarkExit => MarkExit(l)
  }

  /** The ledger after any sequence of events; an event that is not enabled changes nothing. */
  ghost function Run(events: seq<Event>): Ledger {
    if events == [] then EmptyLedger else Apply(Run(events[..|events| - 1]), events[|events| - 1])
  }

  lemma RunStep(events: seq<Event>, e: Event)
    ensures Run(events + [e]) == Apply(Run(events), e)
  {
    assert (events + [e])[..|events|] == events;
  }

  lemma StepKeepsInv(l: Ledger, e: Event)
    requires Inv(l)
    ensures Inv(Apply(l, e))
  {
    hide Inv, Admit, Take, Retire, Requeue, Replay, Close, MarkExit;
    if Enabled(l, e) {
      match e
      case EAdmit(bytes, paced) => AdmitKeepsInv(l, bytes, paced);
      case ETake => TakeKeepsInv(l);
      case ERetire(s) => RetireKeepsInv(l, s);
      case ERequeue(s) => RequeueKeepsInv(l, s);
      case EReplay => ReplayKeepsInv(l);
      case EClose(code) => CloseKeepsInv(l, code);
      case EMarkExit => MarkExitKeepsInv(l);
    }
  }

  lemma StepExtends(l: Ledger, e: Event)
    requires Inv(l)
    ensures Extends(l, Apply(l, e))
  {
    hide Inv;
    if Enabled(l, e) {
      match e
      case EAdmit(bytes, paced) => AdmitExtends(l, bytes, paced);
      case ERetire(s) => RetireExtends(l, s);
      case _ =>
    }
  }

  /** Safety over whole runs: the invariant holds after every sequence of events. */
  lemma {:induction false} EveryReachableLedger(events: seq<Event>)
    ensures Inv(Run(events))
  {
    if events == [] {
      EmptyKeepsInv();
    } else {
      EveryReachableLedger(events[..|events| - 1]);
      StepKeepsInv(Run(events[..|events| - 1]), events[|events| - 1]);
    }
  }

  /** Bytes and records are conserved: what was admitted is acknowledged or still retained. */
  ghost predicate Conserves(l: Ledger) {
    BytesConserved(l) && RecordsConserved(l)
  }

  ghost predicate BytesConserved(l: Ledger) {
    |l.accepted| == Sum(l.acked, l.nextSequence) + RetainedBytes(l)
  }

  ghost predicate RecordsConserved(l: Ledger) {
    l.nextSequence == |l.acked.Keys| + RetainedChunks(l) + 1
  }

  lemma AckedIsBelow(l: Ledger)
    requires Inv(l)
    ensures forall s | s in l.acked :: s < l.nextSequence
  {
  }

  lemma EmptyConserves(l: Ledger)
    requires l.acked == map[] && l.inFlight == map[] && l.chunks == [] && l.accepted == []
    requires l.nextSequence == 1 && l.queuedBytes == 0 && l.inFlightBytes == 0
    ensures Conserves(l)
  {
    SumExtend(l.acked, 0, 1);
    NoKeys(l.acked);
    NoKeys(l.inFlight);
  }

  lemma NoKeys(m: map<int, Record>)
    requires m == map[]
    ensures |m.Keys| == 0
  {
    assert m.Keys == {};
  }

  lemma AdmitConserves(l: Ledger, bytes: seq<Byte>, paced: bool)
    requires Inv(l) && Conserves(l) && Enabled(l, EAdmit(bytes, paced))
    ensures Conserves(Admit(l, bytes, paced))
  {
    AckedIsBelow(l);
    hide Inv, BytesConserved, RecordsConserved, Admit;
    AdmitBytes(l, bytes, paced);
    AdmitRecords(l, bytes, paced);
  }

  lemma AdmitBytes(l: Ledger, bytes: seq<Byte>, paced: bool)
    requires BytesConserved(l) && Enabled(l, EAdmit(bytes, paced)) && forall s | s in l.acked :: s < l.nextSequence
    ensures BytesConserved(Admit(l, bytes, paced))
  {
    hide Coalesces, Sum;
    SumExtend(l.acked, l.nextSequence, l.nextSequence + 1);
  }

  lemma AdmitRecords(l: Ledger, bytes: seq<Byte>, paced: bool)
    requires RecordsConserved(l) && Enabled(l, EAdmit(bytes, paced))
    ensures RecordsConserved(Admit(l, bytes, paced))
  {
    hide Sum;
  }

  lemma MarkExitConserves(l: Ledger)
    requires Inv(l) && Conserves(l)
    ensures Conserves(MarkExit(l))
  {
    AckedIsBelow(l);
    hide Inv, BytesConserved, RecordsConserved, MarkExit;
    MarkExitBytes(l);
    MarkExitRecords(l);
  }

  lemma MarkExitBytes(l: Ledger)
    requires BytesConserved(l) && forall s | s in l.acked :: s < l.nextSequence
    ensures BytesConserved(MarkExit(l))
  {
    hide HoldsData, Sum;
    SumExtend(l.acked, l.nextSequence, l.nextSequence + 1);
  }

  lemma MarkExitRecords(l: Ledger)
    requires RecordsConserved(l)
    ensures RecordsConserved(MarkExit(l))
  {
    hide HoldsData;
  }

  lemma RetireConserves(l: Ledger, s: int)
    requires Inv(l) && Conserves(l) && s in l.inFlight
    ensures Conserves(Retire(l, s))
  {
    RetireRetains(l, s);
    var acked := l.acked[s := l.inFlight[s]];
    KeysAdd(l.acked, s, l.inFlight[s]);
    SumRemove(acked, l.acked, s, l.nextSequence);
  }

  lemma TakeConserves(l: Ledger)
    requires Inv(l) && Conserves(l) && l.chunks != []
    ensures Conserves(Take(l))
  {
    assert l.chunks[0].sequence !in l.inFlight;
    TakeRetains(l);
  }

  lemma RequeueConserves(l: Ledger, s: int)
    requires Inv(l) && Conserves(l) && s in l.inFlight
    ensures Conserves(Requeue(l, s))
  {
    RequeueRetains(l, s);
  }

  lemma ReplayConserves(l: Ledger)
    requires Inv(l) && Conserves(l)
    ensures Conserves(Replay(l))
  {
    ReplayRetains(l);
  }

  lemma CloseConserves(l: Ledger, code: int)
    requires Conserves(l)
    ensures Conserves(Close(l, code))
  {
  }

  lemma StepConserves(l: Ledger, e: Event)
    requires Inv(l) && Conserves(l)
    ensures Conserves(Apply(l, e))
  {
    hide Inv, Conserves, Admit, Take, Retire, Requeue, Replay, MarkExit;
    if Enabled(l, e) {
      match e
      case EAdmit(bytes, paced) => AdmitConserves(l, bytes, paced);
      case ETake => TakeConserves(l);
      case ERetire(s) => RetireConserves(l, s);
      case ERequeue(s) => RequeueConserves(l, s);
      case EReplay => ReplayConserves(l);
      case EClose(code) => CloseConserves(l, code);
      case EMarkExit => MarkExitConserves(l);
    }
  }

  lemma {:induction false} EveryRunConserves(events: seq<Event>)
    ensures Conserves(Run(events))
  {
    hide Inv, Apply, Conserves;
    if events == [] {
      EmptyConserves(EmptyLedger);
    } else {
      EveryRunConserves(events[..|events| - 1]);
      EveryReachableLedger(events[..|events| - 1]);
      StepConserves(Run(events[..|events| - 1]), events[|events| - 1]);
    }
  }

  /** No continuation of a run rewrites what was accepted, sent or acknowledged before it. */
  lemma {:induction false} HistoryIsFixed(events: seq<Event>, more: seq<Event>)
    ensures Extends(Run(events), Run(events + more))
  {
    if more == [] {
      assert events + more == events;
    } else {
      var before := events + more[..|more| - 1];
      assert before + [more[|more| - 1]] == events + more;
      HistoryIsFixed(events, more[..|more| - 1]);
      EveryReachableLedger(before);
      StepExtends(Run(before), more[|more| - 1]);
      RunStep(before, more[|more| - 1]);
      ExtendsTransitive(Run(events), Run(before), Run(events + more));
    }
  }

  // ------------------------------- what one step of a run does, in brief

  lemma OpenTailIsLogged(events: seq<Event>, n: nat, paced: bool)
    ensures Coalesces(Run(events), n, paced) ==> Run(events).log != []
  {
    EveryReachableLedger(events);
  }

  lemma AdmitStep(events: seq<Event>, bytes: seq<Byte>, paced: bool)
    requires Run(events).finishCode.None? && 1 <= |bytes| <= CHUNK_BYTES
    ensures Coalesces(Run(events), |bytes|, paced) ==> Run(events).log != []
    ensures Run(events + [EAdmit(bytes, paced)]) == Admit(Run(events), bytes, paced)
  {
    OpenTailIsLogged(events, |bytes|, paced);
    RunStep(events, EAdmit(bytes, paced));
  }

  lemma TakeStep(events: seq<Event>)
    requires Run(events).chunks != []
    ensures Run(events + [ETake]) == Take(Run(events))
    ensures forall s | s in Run(events).inFlight :: s < Run(events).chunks[0].sequence
    ensures RetainedBytes(Run(events + [ETake])) == RetainedBytes(Run(events))
    ensures RetainedChunks(Run(events + [ETake])) == RetainedChunks(Run(events))
  {
    EveryReachableLedger(events);
    RunStep(events, ETake);
    TakeRetains(Run(events));
  }

  lemma RetireStep(events: seq<Event>, s: int)
    requires s in Run(events).inFlight
    ensures Run(events + [ERetire(s)]) == Retire(Run(events), s)
    ensures RetainedBytes(Run(events + [ERetire(s)])) <= RetainedBytes(Run(events))
    ensures RetainedChunks(Run(events + [ERetire(s)])) == RetainedChunks(Run(events)) - 1
  {
    RunStep(events, ERetire(s));
    RetireRetains(Run(events), s);
  }

  lemma RequeueStep(events: seq<Event>, s: int)
    requires s in Run(events).inFlight && forall t | t in Run(events).inFlight :: t <= s
    ensures Run(events + [ERequeue(s)]) == Requeue(Run(events), s)
    ensures RetainedBytes(Run(events + [ERequeue(s)])) == RetainedBytes(Run(events))
    ensures RetainedChunks(Run(events + [ERequeue(s)])) == RetainedChunks(Run(events))
    ensures Run(events).inFlight[s].sequence == s
    ensures forall i | 0 <= i < |Run(events).chunks| :: Run(events).chunks[i].sequence != s
  {
    EveryReachableLedger(events);
    RunStep(events, ERequeue(s));
    RequeueRetains(Run(events), s);
  }

  lemma ReplayStep(events: seq<Event>)
    ensures Run(events + [EReplay]) == Replay(Run(events))
  {
    RunStep(events, EReplay);
  }

  lemma ReplayStepRetains(events: seq<Event>)
    ensures RetainedBytes(Replay(Run(events))) == RetainedBytes(Run(events))
    ensures RetainedChunks(Replay(Run(events))) == RetainedChunks(Run(events))
    ensures Total(InOrder(Run(events).inFlight, Run(events).nextSequence)) == Sum(Run(events).inFlight, Run(events).nextSequence)
  {
    ReachedCounts(events);
    ReplayFacts(Run(events));
  }

  lemma ReplayFacts(l: Ledger)
    requires InFlightCounted(l)
    ensures RetainedBytes(Replay(l)) == RetainedBytes(l)
    ensures RetainedChunks(Replay(l)) == RetainedChunks(l)
    ensures Total(InOrder(l.inFlight, l.nextSequence)) == Sum(l.inFlight, l.nextSequence)
  {
    ReplayRetains(l);
    InOrderTotal(l.inFlight, l.nextSequence);
  }

  /** The exit marker needs room for one record, and only an otherwise empty ledger gains it. */
  lemma MarkExitStep(events: seq<Event>)
    ensures Run(events + [EMarkExit]) == MarkExit(Run(events))
    ensures RetainedBytes(MarkExit(Run(events))) == RetainedBytes(Run(events))
    ensures RetainedChunks(MarkExit(Run(events))) <= RetainedChunks(Run(events)) || RetainedChunks(MarkExit(Run(events))) == 1
  {
    EveryReachableLedger(events);
    RunStep(events, EMarkExit);
    var l := Run(events);
    if !l.exitQueued && (l.chunks != [] || l.inFlight.Keys != {}) {
      OnlyExitLacksData(l);
    }
  }

  lemma PickOne<T>(keys: set<T>) returns (k: T)
    requires keys != {}
    ensures k in keys
  {
    k :| k in keys;
  }

  lemma OnlyExitLacksData(l: Ledger)
    requires ExitOrdered(l) && !l.exitQueued && (l.chunks != [] || l.inFlight.Keys != {})
    ensures HoldsData(l)
  {
    if l.chunks != [] {
      assert l.chunks[0].Data?;
    } else {
      var s := PickOne(l.inFlight.Keys);
      assert l.inFlight[s].Data?;
    }
  }

  // ------------------------------------------------------ deliveries

  /** One hand-over to the transport. */
  datatype Delivery = Delivery(sequence: int, payload: seq<Byte>)

  /** Every hand-over carried exactly the bytes logged under its sequence number. */
  ghost predicate Faithful(l: Ledger, deliveries: seq<Delivery>) {
    forall i | 0 <= i < |deliveries| ::
      var d := deliveries[i];
      d.sequence in l.sent && 1 <= d.sequence <= |l.log| && l.log[d.sequence - 1] == d.payload
  }

  lemma FaithfulKept(events: seq<Event>, e: Event, deliveries: seq<Delivery>)
    requires Faithful(Run(events), deliveries)
    ensures Faithful(Run(events + [e]), deliveries)
  {
    HistoryIsFixed(events, [e]);
  }

  /** A replay of a sequence number carries the bytes of its first send, however the queue evolved in between. */
  lemma ReplaysAreIdentical(events: seq<Event>, deliveries: seq<Delivery>, i: nat, j: nat)
    requires Faithful(Run(events), deliveries)
    requires i < |deliveries| && j < |deliveries| && deliveries[i].sequence == deliveries[j].sequence
    ensures deliveries[i].payload == deliveries[j].payload
  {
    var a, b := deliveries[i], deliveries[j];
    assert a.sequence == b.sequence;
  }

  lemma FreshDelivery(events: seq<Event>, deliveries: seq<Delivery>)
    requires Faithful(Run(events), deliveries) && Run(events).chunks != []
    ensures var head := Run(events).chunks[0];
            Faithful(Run(events + [ETake]), deliveries + [Delivery(head.sequence, Payload(head))])
  {
    hide Run, Payload;
    FaithfulKept(events, ETake, deliveries);
    TakeStep(events);
    HeadIsLogged(events);
  }

  lemma HeadIsLogged(events: seq<Event>)
    requires Run(events).chunks != []
    ensures var head := Run(events).chunks[0];
            1 <= head.sequence <= |Run(events).log| && Run(events).log[head.sequence - 1] == Payload(head)
  {
    EveryReachableLedger(events);
    assert Sound(Run(events), Run(events).chunks[0]);
  }
}
