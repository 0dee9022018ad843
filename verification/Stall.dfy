/**
 The tool-loop tracker: consecutive repeats, repeated failures and short cycles
 get recovery guidance once, then a stop. Digests are numbers, compared as the
 fixed-width hex strings they stand for.
 */
module Stall {
  import opened Wrappers

  const STALL_TURNS := 3
  const STALL_FAILURE_TURNS := 3
  const MAX_CYCLE_TURNS := 8
  const RECENT_TURN_LIMIT := MAX_CYCLE_TURNS * STALL_TURNS

  /** One model turn: no calls at all, or the digests its calls give rise to. */
  datatype Turn = TextOnly | Calls(fingerprint: nat, failureKeys: seq<nat>, normalized: nat)

  datatype StallTracker = StallTracker(fingerprint: Option<nat>, repeats: nat)

  datatype FailureLoopTracker = FailureLoopTracker(key: Option<nat>, repeats: nat)

  datatype Cycle = Cycle(key: seq<nat>, turns: seq<nat>)

  datatype ToolLoopTracker = ToolLoopTracker(
    exact: StallTracker, failure: FailureLoopTracker, recoveryOffered: bool, recentTurns: seq<nat>, warnedCycle: Option<Cycle>)

  const EmptyTracker := ToolLoopTracker(StallTracker(None, 0), FailureLoopTracker(None, 0), false, [], None)

  function TrackStallTurn(prev: StallTracker, fingerprint: nat): StallTracker {
    if prev.fingerprint == Some(fingerprint) then StallTracker(Some(fingerprint), prev.repeats + 1)
    else StallTracker(Some(fingerprint), 1)
  }

  predicate AllSame(keys: seq<nat>) {
    forall i | 0 <= i < |keys| :: keys[i] == keys[0]
  }

  function TrackFailureLoopTurn(prev: FailureLoopTracker, keys: seq<nat>): FailureLoopTracker {
    if keys == [] || !AllSame(keys) then FailureLoopTracker(None, 0)
    else if prev.key == Some(keys[0]) then FailureLoopTracker(Some(keys[0]), prev.repeats + |keys|)
    else FailureLoopTracker(Some(keys[0]), |keys|)
  }

  // --------------------------------------------------------------- cycles

  /** The last three blocks of this size coincide. */
  predicate Repeats(turns: seq<nat>, size: nat) {
    && size * STALL_TURNS <= |turns|
    && var end := |turns|;
       turns[end - 3 * size..end - 2 * size] == turns[end - 2 * size..end - size] == turns[end - size..]
  }

  /** The source's test: everything from the start on equals the first block, position by position. */
  predicate EqualsFirstBlock(turns: seq<nat>, size: nat)
    requires 1 <= size && size * STALL_TURNS <= |turns|
  {
    BlockWise(turns[|turns| - size * STALL_TURNS..], size)
  }

  predicate BlockWise(tail: seq<nat>, size: nat)
    requires size >= 1
  {
    forall i | 0 <= i < |tail| :: tail[i] == tail[i % size]
  }

  /** `i % size` for an index into three blocks. */
  function Position(i: nat, size: nat): nat
    requires i < 3 * size
  {
    if i < size then i else if i < 2 * size then i - size else i - 2 * size
  }

  lemma PositionIsMod(i: nat, size: nat)
    requires size >= 1 && i < 3 * size
    ensures i % size == Position(i, size)
  {
    var q := if i < size then 0 else if i < 2 * size then 1 else 2;
    DivUnique(i, size, q, Position(i, size));
  }

  lemma DivUnique(x: nat, d: nat, q: nat, r: nat)
    requires d > 0 && x == d * q + r && r < d
    ensures x % d == r
  {
    var k := x / d;
    assert x == d * k + x % d;
    MulGap(d, k, q);
    MulGap(d, q, k);
  }

  lemma {:induction false} MulGap(d: nat, a: nat, b: nat)
    ensures a < b ==> d * a + d <= d * b
    decreases b
  {
    if a < b {
      assert d * b == d * (b - 1) + d;
      MulGap(d, a, b - 1);
    }
  }

  lemma BlocksCoincide(turns: seq<nat>, size: nat)
    requires 1 <= size && size * STALL_TURNS <= |turns|
    ensures EqualsFirstBlock(turns, size) <==> Repeats(turns, size)
  {
    hide BlockWise;
    var tail := turns[|turns| - size * STALL_TURNS..];
    ByPosition(tail, size);
    ThreeBlocks(tail, size);
    SameBlocks(turns, size);
  }

  lemma ByPosition(tail: seq<nat>, size: nat)
    requires size >= 1 && |tail| == 3 * size
    ensures BlockWise(tail, size) <==> forall i | 0 <= i < |tail| :: tail[i] == tail[Position(i, size)]
  {
    forall i | 0 <= i < |tail| ensures 0 <= i % size < |tail| && tail[i % size] == tail[Position(i, size)] {
      PositionIsMod(i, size);
    }
    if BlockWise(tail, size) {
      forall i | 0 <= i < |tail| ensures tail[i] == tail[Position(i, size)] {
        assert tail[i] == tail[i % size];
      }
    }
    if forall i | 0 <= i < |tail| :: tail[i] == tail[Position(i, size)] {
      forall i | 0 <= i < |tail| ensures tail[i] == tail[i % size] {
        assert tail[i] == tail[Position(i, size)];
      }
    }
  }

  lemma SameBlocks(turns: seq<nat>, size: nat)
    requires 3 * size <= |turns|
    ensures var tail, end := turns[|turns| - 3 * size..], |turns|;
            && tail[..size] == turns[end - 3 * size..end - 2 * size]
            && tail[size..2 * size] == turns[end - 2 * size..end - size]
            && tail[2 * size..] == turns[end - size..]
  {
  }

  lemma ThreeBlocks(tail: seq<nat>, size: nat)
    requires |tail| == 3 * size
    ensures (forall i | 0 <= i < |tail| :: tail[i] == tail[Position(i, size)])
        <==> tail[..size] == tail[size..2 * size] == tail[2 * size..]
  {
    var a, b, c := tail[..size], tail[size..2 * size], tail[2 * size..];
    if forall i | 0 <= i < |tail| :: tail[i] == tail[Position(i, size)] {
      assert forall i | 0 <= i < size :: b[i] == tail[size + i] == tail[Position(size + i, size)] == a[i];
      assert forall i | 0 <= i < size :: c[i] == tail[2 * size + i] == tail[Position(2 * size + i, size)] == a[i];
    }
    if a == b == c {
      forall i | 0 <= i < |tail| ensures tail[i] == tail[Position(i, size)] {
        if size <= i < 2 * size {
          assert tail[i] == b[i - size] == a[i - size];
        } else if 2 * size <= i {
          assert tail[i] == c[i - 2 * size] == a[i - 2 * size];
        }
      }
    }
  }

  function Rotate(cycle: seq<nat>, i: nat): seq<nat>
    requires i <= |cycle|
  {
    cycle[i..] + cycle[..i]
  }

  predicate LexLess(a: seq<nat>, b: seq<nat>) {
    if b == [] then false
    else if a == [] then true
    else a[0] < b[0] || (a[0] == b[0] && LexLess(a[1..], b[1..]))
  }

  /** The least of the first `n` rotations. */
  function LeastRotation(cycle: seq<nat>, n: nat): seq<nat>
    requires 1 <= n <= |cycle|
  {
    if n == 1 then Rotate(cycle, 0)
    else
      var least := LeastRotation(cycle, n - 1);
      if LexLess(Rotate(cycle, n - 1), least) then Rotate(cycle, n - 1) else least
  }

  /** The key of a cycle stands for its least rotation. */
  function CycleKey(cycle: seq<nat>): seq<nat>
    requires cycle != []
  {
    LeastRotation(cycle, |cycle|)
  }

  /** The shortest cycle, of at most 8 turns, that was repeated three times at the end. */
  function FindCycle(turns: seq<nat>, size: nat): Option<Cycle>
    requires size >= 1
    decreases MAX_CYCLE_TURNS + 1 - size
  {
    if size > MAX_CYCLE_TURNS || size * STALL_TURNS > |turns| then None
    else if EqualsFirstBlock(turns, size) then Some(Cycle(CycleKey(turns[|turns| - size..]), turns[|turns| - size..]))
    else FindCycle(turns, size + 1)
  }

  function RepeatedCycle(turns: seq<nat>): Option<Cycle> {
    FindCycle(turns, 1)
  }

  lemma {:induction false} FindCycleIsLeast(turns: seq<nat>, size: nat)
    requires size >= 1
    ensures var c := FindCycle(turns, size);
            && (c.None? <==> forall n | size <= n <= MAX_CYCLE_TURNS :: !Repeats(turns, n))
            && (c.Some? ==>
                  var n := |c.value.turns|;
                  && size <= n <= MAX_CYCLE_TURNS && Repeats(turns, n) && c.value.turns == turns[|turns| - n..]
                  && c.value.key == CycleKey(c.value.turns)
                  && forall m | size <= m < n :: !Repeats(turns, m))
    decreases MAX_CYCLE_TURNS + 1 - size
  {
    hide Repeats, EqualsFirstBlock, CycleKey;
    if size <= MAX_CYCLE_TURNS {
      if size * STALL_TURNS <= |turns| {
        BlocksCoincide(turns, size);
        if !EqualsFirstBlock(turns, size) {
          FindCycleIsLeast(turns, size + 1);
        }
      } else {
        forall n | size <= n <= MAX_CYCLE_TURNS ensures !Repeats(turns, n) {
          TooShort(turns, n);
        }
      }
    }
  }

  lemma TooShort(turns: seq<nat>, n: nat)
    requires n * STALL_TURNS > |turns|
    ensures !Repeats(turns, n)
  {
  }

  /** The search finds the least size whose last three blocks coincide, if any up to 8 does. */
  lemma RepeatedCycleIsLeast(turns: seq<nat>)
    ensures var c := RepeatedCycle(turns);
            && (c.None? <==> forall n | 1 <= n <= MAX_CYCLE_TURNS :: !Repeats(turns, n))
            && (c.Some? ==>
                  var n := |c.value.turns|;
                  && 1 <= n <= MAX_CYCLE_TURNS && Repeats(turns, n) && c.value.turns == turns[|turns| - n..]
                  && c.value.key == CycleKey(c.value.turns)
                  && forall m | 1 <= m < n :: !Repeats(turns, m))
  {
    FindCycleIsLeast(turns, 1);
  }

  // ------------------------------------------------------------ rotations

  ghost predicate IsRotation(a: seq<nat>, b: seq<nat>) {
    exists i :: 0 <= i <= |a| && b == Rotate(a, i)
  }

  lemma {:induction false} LexTotal(a: seq<nat>, b: seq<nat>)
    ensures LexLess(a, b) || LexLess(b, a) || a == b
    ensures !(LexLess(a, b) && LexLess(b, a)) && !LexLess(a, a)
  {
    if a != [] {
      LexTotal(a[1..], if b != [] then b[1..] else []);
      assert b != [] && a[0] == b[0] && a[1..] == b[1..] ==> a == [a[0]] + a[1..] == b;
    }
  }

  lemma {:induction false} LexTransitive(a: seq<nat>, b: seq<nat>, c: seq<nat>)
    requires LexLess(a, b) && LexLess(b, c)
    ensures LexLess(a, c)
  {
    if a != [] && a[0] == b[0] && b[0] == c[0] {
      LexTransitive(a[1..], b[1..], c[1..]);
    }
  }

  /** No rotation is smaller than the least one, and the least one is a rotation. */
  lemma {:induction false} LeastIsLeast(cycle: seq<nat>, n: nat)
    requires 1 <= n <= |cycle|
    ensures exists i :: 0 <= i < n && LeastRotation(cycle, n) == Rotate(cycle, i)
    ensures forall i | 0 <= i < n :: !LexLess(Rotate(cycle, i), LeastRotation(cycle, n))
  {
    hide LexLess, Rotate;
    if n == 1 {
      LexTotal(Rotate(cycle, 0), Rotate(cycle, 0));
    } else {
      LeastIsLeast(cycle, n - 1);
      var before, last := LeastRotation(cycle, n - 1), Rotate(cycle, n - 1);
      LexTotal(last, last);
      if LexLess(last, before) {
        forall i | 0 <= i < n - 1 ensures !LexLess(Rotate(cycle, i), last) {
          if LexLess(Rotate(cycle, i), last) {
            LexTransitive(Rotate(cycle, i), last, before);
          }
        }
      }
    }
  }

  lemma RotateTwice(a: seq<nat>, i: nat, j: nat)
    requires i <= |a| && j <= |a|
    ensures Rotate(Rotate(a, i), j) == if i + j <= |a| then Rotate(a, i + j) else Rotate(a, i + j - |a|)
  {
  }

  lemma RotationIsSymmetric(a: seq<nat>, b: seq<nat>)
    requires IsRotation(a, b)
    ensures IsRotation(b, a) && |a| == |b|
  {
    var i :| 0 <= i <= |a| && b == Rotate(a, i);
    RotateTwice(a, i, |a| - i);
    assert Rotate(a, |a|) == a;
    assert a == Rotate(b, |a| - i);
  }

  lemma RotationIsTransitive(a: seq<nat>, b: seq<nat>, c: seq<nat>)
    requires IsRotation(a, b) && IsRotation(b, c)
    ensures IsRotation(a, c)
  {
    var i :| 0 <= i <= |a| && b == Rotate(a, i);
    var j :| 0 <= j <= |b| && c == Rotate(b, j);
    RotateTwice(a, i, j);
  }

  lemma KeyIsRotation(a: seq<nat>)
    requires a != []
    ensures IsRotation(a, CycleKey(a))
    ensures forall b | IsRotation(a, b) :: !LexLess(b, CycleKey(a))
  {
    hide LexLess;
    LeastIsLeast(a, |a|);
    var i :| 0 <= i < |a| && CycleKey(a) == Rotate(a, i);
    forall b | IsRotation(a, b) ensures !LexLess(b, CycleKey(a)) {
      var j :| 0 <= j <= |a| && b == Rotate(a, j);
      if j == |a| {
        assert Rotate(a, |a|) == Rotate(a, 0);
      }
    }
  }

  /** Two cycles share a key exactly when one is a rotation of the other. */
  lemma KeysAreRotations(a: seq<nat>, b: seq<nat>)
    requires a != [] && b != []
    ensures CycleKey(a) == CycleKey(b) <==> IsRotation(a, b)
  {
    hide LexLess, CycleKey, Rotate;
    KeyIsRotation(a);
    KeyIsRotation(b);
    if CycleKey(a) == CycleKey(b) {
      RotationIsSymmetric(b, CycleKey(b));
      RotationIsTransitive(a, CycleKey(a), b);
    }
    if IsRotation(a, b) {
      RotationIsSymmetric(a, b);
      RotationIsTransitive(a, b, CycleKey(b));
      RotationIsTransitive(b, a, CycleKey(a));
      LexTotal(CycleKey(a), CycleKey(b));
    }
  }

  // -------------------------------------------------------------- tracker

  datatype Decision = Decision(tracker: ToolLoopTracker, recovery: bool, stalled: bool)

  function LastTurns(turns: seq<nat>): seq<nat> {
    if |turns| <= RECENT_TURN_LIMIT then turns else turns[|turns| - RECENT_TURN_LIMIT..]
  }

  /** Offer recovery when a loop shows, stop when it shows again after that. */
  function TrackToolLoopTurn(prev: ToolLoopTracker, turn: Turn): Decision {
    if turn.TextOnly? then Decision(EmptyTracker, false, false)
    else
      var exact := TrackStallTurn(prev.exact, turn.fingerprint);
      var failure := TrackFailureLoopTurn(prev.failure, turn.failureKeys);
      var sameLoop := exact.fingerprint == prev.exact.fingerprint || (failure.key.Some? && failure.key == prev.failure.key);
      var recentTurns := LastTurns(prev.recentTurns + [turn.normalized]);
      var cycle := RepeatedCycle(recentTurns);
      var warnedCycle := if prev.warnedCycle.Some? && turn.normalized in prev.warnedCycle.value.turns then prev.warnedCycle else None;
      var tracker := ToolLoopTracker(exact, failure, sameLoop && prev.recoveryOffered, recentTurns, warnedCycle);
      if exact.repeats < STALL_TURNS && failure.repeats < STALL_FAILURE_TURNS && cycle.None? then Decision(tracker, false, false)
      else if tracker.recoveryOffered || (cycle.Some? && warnedCycle.Some? && cycle.value.key == warnedCycle.value.key) then
        Decision(tracker, false, true)
      else
        Decision(ToolLoopTracker(exact.(repeats := 0), failure.(repeats := 0), true, [], cycle), true, false)
  }

  /** The decision after a whole run of turns from a fresh tracker. */
  function Run(turns: seq<Turn>): Decision {
    if turns == [] then Decision(EmptyTracker, false, false)
    else TrackToolLoopTurn(Run(turns[..|turns| - 1]).tracker, turns[|turns| - 1])
  }

  ghost predicate WarnedAt(turns: seq<Turn>, k: nat) {
    k < |turns| && Run(turns[..k + 1]).recovery
  }

  ghost predicate NoResetAfter(turns: seq<Turn>, k: nat) {
    forall i | k < i < |turns| :: !turns[i].TextOnly?
  }

  /** Some turn, with no text-only turn since, was answered with recovery guidance. */
  ghost predicate WasWarned(turns: seq<Turn>) {
    exists k: nat :: WarnedAt(turns, k) && NoResetAfter(turns, k)
  }

  lemma WarnedBefore(turns: seq<Turn>)
    requires turns != [] && WasWarned(turns[..|turns| - 1]) && !turns[|turns| - 1].TextOnly?
    ensures WasWarned(turns)
  {
    hide Run;
    var init := turns[..|turns| - 1];
    var k: nat :| WarnedAt(init, k) && NoResetAfter(init, k);
    assert turns[..k + 1] == init[..k + 1];
    forall i | k < i < |turns| ensures !turns[i].TextOnly? {
      assert i < |init| ==> turns[i] == init[i];
    }
    assert WarnedAt(turns, k) && NoResetAfter(turns, k);
  }

  lemma WarnedNow(turns: seq<Turn>)
    requires turns != [] && Run(turns).recovery
    ensures WasWarned(turns)
  {
    hide Run;
    assert turns[..|turns| - 1 + 1] == turns;
    assert WarnedAt(turns, |turns| - 1) && NoResetAfter(turns, |turns| - 1);
  }

  lemma RecentIsBounded(prev: ToolLoopTracker, turn: Turn)
    ensures |TrackToolLoopTurn(prev, turn).tracker.recentTurns| <= RECENT_TURN_LIMIT
  {
    hide RepeatedCycle;
  }

  /** A stricter tracker comes from a stricter one, or from guidance offered now. */
  lemma StrictnessComesFrom(prev: ToolLoopTracker, turn: Turn)
    ensures var d := TrackToolLoopTurn(prev, turn);
            d.tracker.recoveryOffered || d.tracker.warnedCycle.Some? || d.stalled ==>
              turn.Calls? && (d.recovery || prev.recoveryOffered || prev.warnedCycle.Some?)
    ensures TrackToolLoopTurn(prev, turn).stalled ==> turn.Calls? && (prev.recoveryOffered || prev.warnedCycle.Some?)
  {
    hide RepeatedCycle, TrackStallTurn, TrackFailureLoopTurn, LastTurns;
  }

  /** Whatever makes the tracker strict was preceded by guidance; recent turns stay bounded. */
  lemma {:induction false} RunInvariant(turns: seq<Turn>)
    ensures var t := Run(turns).tracker;
            |t.recentTurns| <= RECENT_TURN_LIMIT && (t.recoveryOffered || t.warnedCycle.Some? ==> WasWarned(turns))
  {
    hide TrackToolLoopTurn, WasWarned;
    if turns != [] {
      var init, last := turns[..|turns| - 1], turns[|turns| - 1];
      RunInvariant(init);
      RecentIsBounded(Run(init).tracker, last);
      StrictnessComesFrom(Run(init).tracker, last);
      if Run(turns).recovery {
        WarnedNow(turns);
      } else if WasWarned(init) && !last.TextOnly? {
        WarnedBefore(turns);
      }
    }
  }

  /** A run is never stopped unless guidance was offered since the last reset, at an earlier turn. */
  lemma StallNeedsWarning(turns: seq<Turn>)
    requires turns != [] && Run(turns).stalled
    ensures WasWarned(turns[..|turns| - 1]) && !turns[|turns| - 1].TextOnly?
  {
    hide TrackToolLoopTurn, WasWarned;
    RunInvariant(turns[..|turns| - 1]);
    StrictnessComesFrom(Run(turns[..|turns| - 1]).tracker, turns[|turns| - 1]);
  }

  // ------------------------------------------------- repeats are stopped

  /** Fold turns into a tracker; true when some of them was answered with a stop. */
  predicate StopsWithin(prev: ToolLoopTracker, turns: seq<Turn>)
    decreases |turns|
  {
    turns != [] &&
    var d := TrackToolLoopTurn(prev, turns[0]);
    d.stalled || StopsWithin(d.tracker, turns[1..])
  }

  /** Once guidance was offered, `n` more identical turns reach the stop. */
  lemma {:induction false} WarnedRepeatsStop(prev: ToolLoopTracker, turns: seq<Turn>, fingerprint: nat)
    requires prev.recoveryOffered && prev.exact.fingerprint == Some(fingerprint)
    requires prev.exact.repeats + |turns| >= STALL_TURNS && turns != []
    requires forall i | 0 <= i < |turns| :: turns[i].Calls? && turns[i].fingerprint == fingerprint
    ensures StopsWithin(prev, turns)
    decreases |turns|
  {
    hide RepeatedCycle, TrackFailureLoopTurn, LastTurns;
    var d := TrackToolLoopTurn(prev, turns[0]);
    if !d.stalled {
      assert d.tracker.recoveryOffered && d.tracker.exact.repeats == prev.exact.repeats + 1;
      WarnedRepeatsStop(d.tracker, turns[1..], fingerprint);
    }
  }

  /** Identical turns are warned within three and stopped within three more, whatever the calls returned and whatever came before. */
  lemma {:induction false} RepeatsAreStopped(prev: ToolLoopTracker, turns: seq<Turn>, fingerprint: nat)
    requires |turns| == 6 && forall i | 0 <= i < |turns| :: turns[i].Calls? && turns[i].fingerprint == fingerprint
    ensures StopsWithin(prev, turns)
  {
    hide RepeatedCycle, TrackFailureLoopTurn, LastTurns;
    var d1 := TrackToolLoopTurn(prev, turns[0]);
    if !d1.stalled {
      if d1.tracker.recoveryOffered {
        WarnedRepeatsStop(d1.tracker, turns[1..], fingerprint);
      } else {
        NotYetWarned(d1.tracker, turns[1..], fingerprint);
      }
    }
  }

  /** The same from a tracker that has just seen the calls once. */
  lemma NotYetWarned(prev: ToolLoopTracker, turns: seq<Turn>, fingerprint: nat)
    requires !prev.recoveryOffered && prev.exact.fingerprint == Some(fingerprint) && prev.exact.repeats >= 1
    requires |turns| == 5 && forall i | 0 <= i < |turns| :: turns[i].Calls? && turns[i].fingerprint == fingerprint
    ensures StopsWithin(prev, turns)
  {
    hide RepeatedCycle, TrackFailureLoopTurn, LastTurns;
    var d2 := TrackToolLoopTurn(prev, turns[0]);
    var rest := turns[1..];
    if !d2.stalled {
      if d2.tracker.recoveryOffered {
        WarnedRepeatsStop(d2.tracker, rest, fingerprint);
      } else {
        assert d2.tracker.exact.repeats >= 2;
        var d3 := TrackToolLoopTurn(d2.tracker, rest[0]);
        if !d3.stalled {
          assert d3.tracker.recoveryOffered;
          WarnedRepeatsStop(d3.tracker, rest[1..], fingerprint);
        }
      }
    }
  }

  /** Six turns with the same calls from a fresh tracker: stopped by the sixth. */
  lemma SameCallsStopBySix(turns: seq<Turn>, fingerprint: nat)
    requires |turns| == 6 && forall i | 0 <= i < |turns| :: turns[i].Calls? && turns[i].fingerprint == fingerprint
    ensures StopsWithin(EmptyTracker, turns)
  {
    RepeatsAreStopped(EmptyTracker, turns, fingerprint);
  }

  /** Every call of the turn that failed, failed for this one reason. */
  predicate FailsWith(turn: Turn, key: nat) {
    turn.Calls? && turn.failureKeys != [] && forall i | 0 <= i < |turn.failureKeys| :: turn.failureKeys[i] == key
  }

  lemma FailureStep(prev: FailureLoopTracker, turn: Turn, key: nat)
    requires FailsWith(turn, key)
    ensures var next := TrackFailureLoopTurn(prev, turn.failureKeys);
            next.key == Some(key) && next.repeats >= 1 && (prev.key == Some(key) ==> next.repeats >= prev.repeats + 1)
  {
  }

  /** Once guidance was offered, more turns that fail the same way reach the stop. */
  lemma {:induction false} WarnedFailuresStop(prev: ToolLoopTracker, turns: seq<Turn>, key: nat)
    requires prev.recoveryOffered && prev.failure.key == Some(key)
    requires prev.failure.repeats + |turns| >= STALL_FAILURE_TURNS && turns != []
    requires forall i | 0 <= i < |turns| :: FailsWith(turns[i], key)
    ensures StopsWithin(prev, turns)
    decreases |turns|
  {
    hide RepeatedCycle, TrackFailureLoopTurn, LastTurns, FailsWith;
    assert FailsWith(turns[0], key);
    FailureStep(prev.failure, turns[0], key);
    NoTextOnly(turns[0], key);
    var d := TrackToolLoopTurn(prev, turns[0]);
    if !d.stalled {
      assert d.tracker.recoveryOffered && d.tracker.failure.repeats >= prev.failure.repeats + 1;
      WarnedFailuresStop(d.tracker, turns[1..], key);
    }
  }

  lemma NoTextOnly(turn: Turn, key: nat)
    requires FailsWith(turn, key)
    ensures turn.Calls?
  {
  }

  /** Turns that fail the same way are stopped within six, whatever they try and whatever came before. */
  lemma {:induction false} FailuresAreStopped(prev: ToolLoopTracker, turns: seq<Turn>, key: nat)
    requires |turns| == 6 && forall i | 0 <= i < |turns| :: FailsWith(turns[i], key)
    ensures StopsWithin(prev, turns)
  {
    hide RepeatedCycle, TrackFailureLoopTurn, LastTurns, FailsWith;
    assert FailsWith(turns[0], key);
    FailureStep(prev.failure, turns[0], key);
    NoTextOnly(turns[0], key);
    var d := TrackToolLoopTurn(prev, turns[0]);
    if !d.stalled {
      if d.tracker.recoveryOffered {
        WarnedFailuresStop(d.tracker, turns[1..], key);
      } else {
        FailuresNotYetWarned(d.tracker, turns[1..], key);
      }
    }
  }

  /** The same from a tracker that counts the failure already but has not warned; two more such turns bring the guidance. */
  lemma {:induction false} FailuresNotYetWarned(prev: ToolLoopTracker, turns: seq<Turn>, key: nat)
    requires !prev.recoveryOffered && prev.failure.key == Some(key) && 1 <= prev.failure.repeats
    requires |turns| >= 4 && prev.failure.repeats + |turns| >= 6 && forall i | 0 <= i < |turns| :: FailsWith(turns[i], key)
    ensures StopsWithin(prev, turns)
    decreases |turns|
  {
    hide RepeatedCycle, TrackFailureLoopTurn, LastTurns, FailsWith;
    assert FailsWith(turns[0], key);
    FailureStep(prev.failure, turns[0], key);
    NoTextOnly(turns[0], key);
    var d, rest := TrackToolLoopTurn(prev, turns[0]), turns[1..];
    if !d.stalled {
      if d.tracker.recoveryOffered {
        WarnedFailuresStop(d.tracker, rest, key);
      } else {
        FailuresNotYetWarned(d.tracker, rest, key);
      }
    }
  }

  // ------------------------------------------- what decides guidance and stop

  /** The turns that still count: those since the last guidance or text-only turn. */
  function Counted(turns: seq<Turn>): (r: seq<Turn>)
    ensures |r| <= |turns| && forall t | t in r :: t.Calls?
  {
    if turns == [] || turns[|turns| - 1].TextOnly? || Run(turns).recovery then []
    else Counted(turns[..|turns| - 1]) + [turns[|turns| - 1]]
  }

  function Normals(s: seq<Turn>): (r: seq<nat>)
    requires forall t | t in s :: t.Calls?
    ensures |r| == |s| && forall i | 0 <= i < |s| :: r[i] == s[i].normalized
  {
    if s == [] then [] else Normals(s[..|s| - 1]) + [s[|s| - 1].normalized]
  }

  /** How many of the last turns made the same calls. */
  function SameCalls(s: seq<Turn>): nat
    requires forall t | t in s :: t.Calls?
  {
    if s == [] then 0
    else if |s| >= 2 && s[|s| - 2].fingerprint == s[|s| - 1].fingerprint then SameCalls(s[..|s| - 1]) + 1
    else 1
  }

  predicate LastThreeSame(s: seq<Turn>)
    requires forall t | t in s :: t.Calls?
  {
    && |s| >= 3
    && var n := |s|;
       s[n - 3].fingerprint == s[n - 2].fingerprint == s[n - 1].fingerprint
  }

  lemma ThreeIsThree(s: seq<Turn>)
    requires forall t | t in s :: t.Calls?
    ensures SameCalls(s) >= 3 <==> LastThreeSame(s)
  {
    if |s| >= 2 {
      var s1 := s[..|s| - 1];
      assert s1[..|s1| - 1] == s[..|s| - 2];
      assert SameCalls(s1) >= 2 <==> |s1| >= 2 && s1[|s1| - 2].fingerprint == s1[|s1| - 1].fingerprint;
    }
  }

  /** The failures of the last turns, when they are all of one kind. */
  function Failures(s: seq<Turn>): FailureLoopTracker
    requires forall t | t in s :: t.Calls?
  {
    if s == [] then FailureLoopTracker(None, 0) else TrackFailureLoopTurn(Failures(s[..|s| - 1]), s[|s| - 1].failureKeys)
  }

  /** A loop shows: the same calls three times, three failures of one kind, or a short cycle three times. */
  ghost predicate Alarming(s: seq<Turn>)
    requires forall t | t in s :: t.Calls?
  {
    LastThreeSame(s) || Failures(s).repeats >= STALL_FAILURE_TURNS || RepeatedCycle(Normals(s)).Some?
  }

  /** Only the last 24 turns matter to the search for cycles. */
  lemma RecentEnough(turns: seq<nat>)
    ensures RepeatedCycle(LastTurns(turns)) == RepeatedCycle(turns)
  {
    hide Repeats, RepeatedCycle, CycleKey;
    var recent := LastTurns(turns);
    assert recent == turns[|turns| - |recent|..];
    hide LastTurns;
    forall n | 1 <= n <= MAX_CYCLE_TURNS
      ensures Repeats(recent, n) <==> Repeats(turns, n)
      ensures Repeats(turns, n) ==> n <= |turns| && n <= |recent| && recent[|recent| - n..] == turns[|turns| - n..]
    {
      RecentIsLong(turns, n);
      SameEnd(recent, turns, n);
    }
    RepeatedCycleIsLeast(turns);
    RepeatedCycleIsLeast(recent);
  }

  lemma RecentIsLong(turns: seq<nat>, n: nat)
    requires n <= MAX_CYCLE_TURNS
    ensures |LastTurns(turns)| == |turns| || |LastTurns(turns)| >= 3 * n
  {
  }

  /** A repetition shows in a long enough end of the turns exactly when it shows in all of them. */
  lemma SameEnd(recent: seq<nat>, turns: seq<nat>, n: nat)
    requires |recent| <= |turns| && recent == turns[|turns| - |recent|..]
    requires |recent| == |turns| || |recent| >= 3 * n
    ensures Repeats(recent, n) <==> Repeats(turns, n)
    ensures Repeats(turns, n) ==> n <= |turns| && n <= |recent| && recent[|recent| - n..] == turns[|turns| - n..]
  {
    if |recent| >= 3 * n {
      SameSlice(recent, turns, 3 * n, 2 * n);
      SameSlice(recent, turns, 2 * n, n);
      SameSlice(recent, turns, n, 0);
    }
  }

  lemma SameSlice(recent: seq<nat>, turns: seq<nat>, from: nat, to: nat)
    requires |recent| <= |turns| && recent == turns[|turns| - |recent|..] && to <= from <= |recent|
    ensures recent[|recent| - from..|recent| - to] == turns[|turns| - from..|turns| - to]
  {
  }

  lemma LastTurnsNext(turns: seq<nat>, x: nat)
    ensures LastTurns(LastTurns(turns) + [x]) == LastTurns(turns + [x])
  {
  }

  /** One turn with calls, field by field. */
  lemma StepIs(prev: ToolLoopTracker, turn: Turn)
    requires turn.Calls?
    ensures var d := TrackToolLoopTurn(prev, turn);
            var exact := TrackStallTurn(prev.exact, turn.fingerprint);
            var failure := TrackFailureLoopTurn(prev.failure, turn.failureKeys);
            var recent := LastTurns(prev.recentTurns + [turn.normalized]);
            var cycle := RepeatedCycle(recent);
            var alarm := exact.repeats >= STALL_TURNS || failure.repeats >= STALL_FAILURE_TURNS || cycle.Some?;
            var same := exact.fingerprint == prev.exact.fingerprint || (failure.key.Some? && failure.key == prev.failure.key);
            var warned := if prev.warnedCycle.Some? && turn.normalized in prev.warnedCycle.value.turns then prev.warnedCycle else None;
            && (d.recovery || d.stalled <==> alarm) && !(d.recovery && d.stalled)
            && (d.stalled <==> alarm && ((same && prev.recoveryOffered)
                                         || (cycle.Some? && warned.Some? && cycle.value.key == warned.value.key)))
            && d.tracker.exact.fingerprint == Some(turn.fingerprint) && d.tracker.failure.key == failure.key
            && d.tracker.exact.repeats == (if d.recovery then 0 else exact.repeats)
            && d.tracker.failure.repeats == (if d.recovery then 0 else failure.repeats)
            && d.tracker.recentTurns == (if d.recovery then [] else recent)
            && d.tracker.recoveryOffered == (d.recovery || (same && prev.recoveryOffered))
            && d.tracker.warnedCycle == (if d.recovery then cycle else warned)
  {
    hide RepeatedCycle, LastTurns, TrackFailureLoopTurn;
  }

  function LastFingerprint(turns: seq<Turn>): Option<nat> {
    if turns == [] || turns[|turns| - 1].TextOnly? then None else Some(turns[|turns| - 1].fingerprint)
  }

  /** The one kind of failure all calls of the turn had, if any. */
  function FailureOf(turn: Turn): Option<nat> {
    if turn.TextOnly? || turn.failureKeys == [] || !AllSame(turn.failureKeys) then None else Some(turn.failureKeys[0])
  }

  function LastFailure(turns: seq<Turn>): Option<nat> {
    if turns == [] then None else FailureOf(turns[|turns| - 1])
  }

  lemma FailureStepIs(prev: FailureLoopTracker, turn: Turn)
    requires turn.Calls?
    ensures TrackFailureLoopTurn(prev, turn.failureKeys).key == FailureOf(turn)
    ensures prev.repeats == 0 ==>
              TrackFailureLoopTurn(prev, turn.failureKeys).repeats
              == TrackFailureLoopTurn(FailureLoopTracker(None, 0), turn.failureKeys).repeats
  {
  }

  lemma FromNothing()
    ensures LastTurns([]) == [] && Normals([]) == [] && SameCalls([]) == 0 && Failures([]) == FailureLoopTracker(None, 0)
  {
  }

  lemma CountedNext(s: seq<Turn>, turn: Turn)
    requires turn.Calls? && forall t | t in s :: t.Calls?
    ensures forall t | t in s + [turn] :: t.Calls?
    ensures Normals(s + [turn]) == Normals(s) + [turn.normalized]
    ensures SameCalls(s + [turn]) == if s != [] && s[|s| - 1].fingerprint == turn.fingerprint then SameCalls(s) + 1 else 1
    ensures Failures(s + [turn]) == TrackFailureLoopTurn(Failures(s), turn.failureKeys)
  {
    hide TrackFailureLoopTurn;
    NormalsNext(s, turn);
    SameCallsNext(s, turn);
    FailuresNext(s, turn);
  }

  lemma NormalsNext(s: seq<Turn>, turn: Turn)
    requires turn.Calls? && forall t | t in s :: t.Calls?
    ensures Normals(s + [turn]) == Normals(s) + [turn.normalized]
  {
    assert (s + [turn])[..|s|] == s;
  }

  lemma SameCallsNext(s: seq<Turn>, turn: Turn)
    requires turn.Calls? && forall t | t in s :: t.Calls?
    ensures SameCalls(s + [turn]) == if s != [] && s[|s| - 1].fingerprint == turn.fingerprint then SameCalls(s) + 1 else 1
  {
    assert (s + [turn])[..|s|] == s;
  }

  lemma FailuresNext(s: seq<Turn>, turn: Turn)
    requires turn.Calls? && forall t | t in s :: t.Calls?
    ensures Failures(s + [turn]) == TrackFailureLoopTurn(Failures(s), turn.failureKeys)
  {
    hide TrackFailureLoopTurn;
    assert (s + [turn])[..|s|] == s;
  }

  /** The tracker's counters are those of the turns that still count. */
  ghost predicate CountersAre(t: ToolLoopTracker, turns: seq<Turn>) {
    var s := Counted(turns);
    && t.recentTurns == LastTurns(Normals(s))
    && t.exact.repeats == SameCalls(s) && t.failure.repeats == Failures(s).repeats
    && t.exact.fingerprint == LastFingerprint(turns) && t.failure.key == LastFailure(turns)
    && (s != [] ==> s[|s| - 1] == turns[|turns| - 1] && LastFailure(turns) == Failures(s).key)
  }

  lemma {:induction false} TrackerCounts(turns: seq<Turn>)
    ensures CountersAre(Run(turns).tracker, turns)
  {
    hide TrackToolLoopTurn, RepeatedCycle, LastTurns, TrackFailureLoopTurn, AllSame, FailureOf, SameCalls, Normals, Failures;
    FromNothing();
    if turns != [] {
      var init, last := turns[..|turns| - 1], turns[|turns| - 1];
      TrackerCounts(init);
      if last.TextOnly? {
        TextOnlyResets(Run(init).tracker);
      } else {
        var t, s := Run(init).tracker, Counted(init);
        StepIs(t, last);
        CountedNext(s, last);
        FailureStepIs(t.failure, last);
        FailureStepIs(Failures(s), last);
        LastTurnsNext(Normals(s), last.normalized);
      }
    }
  }

  lemma TextOnlyResets(prev: ToolLoopTracker)
    ensures TrackToolLoopTurn(prev, TextOnly) == Decision(EmptyTracker, false, false) && FailureOf(TextOnly).None?
  {
  }

  /** Where guidance was last offered. */
  function Guidance(turns: seq<Turn>): (j: Option<nat>)
    ensures j.Some? ==> j.value < |turns|
  {
    if turns == [] then None
    else if Run(turns).recovery then Some(|turns| - 1)
    else Guidance(turns[..|turns| - 1])
  }

  /** The cycle the last turn completes among those that count. */
  function ShownCycle(turns: seq<Turn>): Option<Cycle> {
    if turns == [] || turns[|turns| - 1].TextOnly? then None
    else RepeatedCycle(Normals(Counted(turns[..|turns| - 1]) + [turns[|turns| - 1]]))
  }

  /** The same calls as the turn before, or the same kind of failure. */
  predicate SameLoop(before: Turn, turn: Turn) {
    && before.Calls? && turn.Calls?
    && (before.fingerprint == turn.fingerprint || (FailureOf(turn).Some? && FailureOf(turn) == FailureOf(before)))
  }

  ghost predicate OneLoopSince(turns: seq<Turn>, j: nat) {
    forall i | j < i < |turns| :: SameLoop(turns[i - 1], turns[i])
  }

  ghost predicate InsideSince(turns: seq<Turn>, j: nat, cycle: Option<Cycle>) {
    && cycle.Some?
    && forall i | j < i < |turns| :: turns[i].Calls? && turns[i].normalized in cycle.value.turns
  }

  ghost predicate EscalatedAs(t: ToolLoopTracker, turns: seq<Turn>) {
    var g := Guidance(turns);
    if g.None? then !t.recoveryOffered && t.warnedCycle.None?
    else
      var cycle := ShownCycle(turns[..g.value + 1]);
      && (t.recoveryOffered <==> OneLoopSince(turns, g.value))
      && t.warnedCycle == if InsideSince(turns, g.value, cycle) then cycle else None
  }

  lemma {:induction false} TrackerEscalates(turns: seq<Turn>)
    ensures EscalatedAs(Run(turns).tracker, turns)
  {
    hide TrackToolLoopTurn, RepeatedCycle, LastTurns, TrackFailureLoopTurn, FailureOf, SameCalls, Normals, Failures, Counted,
         OneLoopSince, InsideSince, SameLoop, ShownCycle;
    if turns != [] {
      var init, last := turns[..|turns| - 1], turns[|turns| - 1];
      TrackerEscalates(init);
      var g := Guidance(init);
      if Run(turns).recovery {
        GuidedNow(turns);
      } else if last.TextOnly? {
        TextOnlyResets(Run(init).tracker);
        if g.Some? {
          SinceNext(turns, g.value, ShownCycle(turns[..g.value + 1]));
        }
      } else {
        StepIs(Run(init).tracker, last);
        SameIs(turns);
        if g.Some? {
          assert init[..g.value + 1] == turns[..g.value + 1];
          SinceNext(turns, g.value, ShownCycle(turns[..g.value + 1]));
        }
      }
    }
  }

  lemma SinceNext(turns: seq<Turn>, j: nat, cycle: Option<Cycle>)
    requires turns != [] && j + 1 < |turns|
    ensures var init, last := turns[..|turns| - 1], turns[|turns| - 1];
            && (OneLoopSince(turns, j) <==> OneLoopSince(init, j) && SameLoop(init[|init| - 1], last))
            && (InsideSince(turns, j, cycle) <==>
                  InsideSince(init, j, cycle) && last.Calls? && last.normalized in cycle.value.turns)
            && (last.TextOnly? ==> !SameLoop(init[|init| - 1], last))
  {
    hide FailureOf;
    var init := turns[..|turns| - 1];
    assert forall i | 0 <= i < |init| :: init[i] == turns[i];
  }

  lemma GuidedNow(turns: seq<Turn>)
    requires turns != [] && Run(turns).recovery
    ensures EscalatedAs(Run(turns).tracker, turns)
  {
    hide TrackToolLoopTurn, RepeatedCycle, LastTurns, TrackFailureLoopTurn, FailureOf, SameCalls, Normals, Failures, Counted;
    var init, last := turns[..|turns| - 1], turns[|turns| - 1];
    if last.TextOnly? {
      TextOnlyResets(Run(init).tracker);
    } else {
      StepIs(Run(init).tracker, last);
      ShownIs(turns);
      assert turns[..|turns| - 1 + 1] == turns;
    }
  }

  /** The cycle the tracker finds is the one among the turns that count. */
  lemma ShownIs(turns: seq<Turn>)
    requires turns != [] && turns[|turns| - 1].Calls?
    ensures var init, last := turns[..|turns| - 1], turns[|turns| - 1];
            RepeatedCycle(LastTurns(Run(init).tracker.recentTurns + [last.normalized])) == ShownCycle(turns)
  {
    hide TrackToolLoopTurn, RepeatedCycle, LastTurns, SameCalls, Failures, Counted, Normals;
    var init, last := turns[..|turns| - 1], turns[|turns| - 1];
    TrackerCounts(init);
    CountedNext(Counted(init), last);
    LastTurnsNext(Normals(Counted(init)), last.normalized);
    RecentEnough(Normals(Counted(init)) + [last.normalized]);
  }

  /** What the tracker compares with its last fingerprint and key is the turn before. */
  lemma SameIs(turns: seq<Turn>)
    requires turns != [] && turns[|turns| - 1].Calls?
    ensures var init, last := turns[..|turns| - 1], turns[|turns| - 1];
            var t := Run(init).tracker;
            var failure := TrackFailureLoopTurn(t.failure, last.failureKeys);
            (Some(last.fingerprint) == t.exact.fingerprint || (failure.key.Some? && failure.key == t.failure.key))
            <==> init != [] && SameLoop(init[|init| - 1], last)
  {
    hide TrackToolLoopTurn, RepeatedCycle, LastTurns, TrackFailureLoopTurn, SameCalls, Failures, Counted, Normals;
    var init, last := turns[..|turns| - 1], turns[|turns| - 1];
    TrackerCounts(init);
    FailureStepIs(Run(init).tracker.failure, last);
  }

  /** The loop that shows now is the one guidance was offered for at `j`, and nothing else came in between. */
  ghost predicate SameLoopAgain(turns: seq<Turn>, j: nat)
    requires j < |turns|
  {
    var warned, now := ShownCycle(turns[..j + 1]), ShownCycle(turns);
    || OneLoopSince(turns, j)
    || (InsideSince(turns, j, warned) && now.Some? && IsRotation(warned.value.turns, now.value.turns))
  }

  /**
   Exactly when a turn is answered with guidance and when with a stop: either
   way a loop shows among the turns that count; the run is stopped when it is
   the loop the last guidance was about, kept up ever since.
   */
  lemma DecisionIs(turns: seq<Turn>)
    requires turns != []
    ensures var init, last, d := turns[..|turns| - 1], turns[|turns| - 1], Run(turns);
            && (d.recovery || d.stalled <==> last.Calls? && Alarming(Counted(init) + [last]))
            && (d.stalled <==> last.Calls? && Alarming(Counted(init) + [last])
                               && Guidance(init).Some? && SameLoopAgain(turns, Guidance(init).value))
            && !(d.recovery && d.stalled)
  {
    hide TrackToolLoopTurn, RepeatedCycle, LastTurns, TrackFailureLoopTurn, SameCalls, Normals, Failures, Counted,
         OneLoopSince, InsideSince, SameLoop, ShownCycle, IsRotation, Alarming, Guidance;
    var init, last := turns[..|turns| - 1], turns[|turns| - 1];
    if last.TextOnly? {
      TextOnlyResets(Run(init).tracker);
    } else {
      StepIs(Run(init).tracker, last);
      SameIs(turns);
      ShownIs(turns);
      AlarmIs(turns);
      TrackerEscalates(init);
      var g := Guidance(init);
      if g.Some? {
        assert init[..g.value + 1] == turns[..g.value + 1];
        var warned := ShownCycle(turns[..g.value + 1]);
        SinceNext(turns, g.value, warned);
        if warned.Some? && ShownCycle(turns).Some? {
          InsideIsSome(turns, g.value, warned);
          SameCycle(turns[..g.value + 1], turns);
        }
        InsideIsSome(init, g.value, warned);
      }
    }
  }

  lemma InsideIsSome(turns: seq<Turn>, j: nat, cycle: Option<Cycle>)
    ensures InsideSince(turns, j, cycle) ==> cycle.Some?
  {
  }

  lemma SameCycle(a: seq<Turn>, b: seq<Turn>)
    requires ShownCycle(a).Some? && ShownCycle(b).Some?
    ensures ShownCycle(a).value.key == ShownCycle(b).value.key
        <==> IsRotation(ShownCycle(a).value.turns, ShownCycle(b).value.turns)
  {
    hide RepeatedCycle, Repeats, CycleKey, IsRotation, Counted, Normals;
    var x, y := Normals(Counted(a[..|a| - 1]) + [a[|a| - 1]]), Normals(Counted(b[..|b| - 1]) + [b[|b| - 1]]);
    RepeatedCycleIsLeast(x);
    RepeatedCycleIsLeast(y);
    KeysAreRotations(RepeatedCycle(x).value.turns, RepeatedCycle(y).value.turns);
  }

  lemma AlarmIs(turns: seq<Turn>)
    requires turns != [] && turns[|turns| - 1].Calls?
    ensures var init, last := turns[..|turns| - 1], turns[|turns| - 1];
            var t := Run(init).tracker;
            Alarming(Counted(init) + [last])
            <==> TrackStallTurn(t.exact, last.fingerprint).repeats >= STALL_TURNS
                 || TrackFailureLoopTurn(t.failure, last.failureKeys).repeats >= STALL_FAILURE_TURNS
                 || ShownCycle(turns).Some?
  {
    hide TrackToolLoopTurn, RepeatedCycle, LastTurns, TrackFailureLoopTurn, SameCalls, Failures, Counted, Normals, LastThreeSame;
    var init, last := turns[..|turns| - 1], turns[|turns| - 1];
    var t, s := Run(init).tracker, Counted(init);
    FromNothing();
    TrackerCounts(init);
    CountedNext(s, last);
    FailureStepIs(t.failure, last);
    ThreeIsThree(s + [last]);
    if s != [] {
      assert s[|s| - 1] in s;
      assert t.failure == Failures(s) && t.exact == StallTracker(Some(s[|s| - 1].fingerprint), SameCalls(s));
    } else {
      assert t.failure.repeats == 0 && t.exact.repeats == 0;
      assert Failures(s) == FailureLoopTracker(None, 0);
    }
  }

  // ------------------------------------------------- cycles are stopped

  /** Calls in every turn, and what they did recurs every `p` turns. */
  ghost predicate Periodic(s: seq<Turn>, p: nat) {
    && (forall t | t in s :: t.Calls?)
    && forall i | p <= i < |s| :: s[i].normalized == s[i - p].normalized
  }

  /** No other loop shows at the end: not the same calls, nor failures of one kind, nor a shorter cycle. */
  ghost predicate NothingShorter(s: seq<Turn>, p: nat)
    requires forall t | t in s :: t.Calls?
  {
    && !LastThreeSame(s) && Failures(s).repeats < STALL_FAILURE_TURNS
    && forall m | 1 <= m < p :: !Repeats(Normals(s), m)
  }

  /** Two periods of three rounds of a cycle of `p` turns that never shows a shorter loop. */
  ghost predicate SixRounds(turns: seq<Turn>, p: nat) {
    && 1 <= p <= MAX_CYCLE_TURNS && |turns| == 6 * p && Periodic(turns, p)
    && forall k | 0 <= k <= |turns| :: QuietUpTo(turns, p, k)
  }

  ghost predicate QuietUpTo(turns: seq<Turn>, p: nat, k: nat)
    requires k <= |turns| && forall t | t in turns :: t.Calls?
  {
    NothingShorter(turns[..k], p)
  }

  lemma {:induction false} FailuresOfEnd(s: seq<Turn>, i: nat)
    requires i <= |s| && forall t | t in s :: t.Calls?
    ensures Failures(s[i..]).repeats <= Failures(s).repeats
    ensures i < |s| ==> Failures(s[i..]).key == Failures(s).key
    decreases |s|
  {
    hide TrackFailureLoopTurn;
    if i < |s| {
      var init, last := s[..|s| - 1], s[|s| - 1];
      FailuresOfEnd(init, i);
      assert s[i..][..|s| - 1 - i] == init[i..];
      MoreFailures(Failures(init[i..]), Failures(init), last, i < |init|);
    }
  }

  lemma MoreFailures(less: FailureLoopTracker, more: FailureLoopTracker, turn: Turn, same: bool)
    requires turn.Calls? && less.repeats <= more.repeats && (if same then less.key == more.key else less == FailureLoopTracker(None, 0))
    ensures var l, m := TrackFailureLoopTurn(less, turn.failureKeys), TrackFailureLoopTurn(more, turn.failureKeys);
            l.repeats <= m.repeats && l.key == m.key
  {
  }

  lemma {:induction false} NormalsOfEnd(s: seq<Turn>, i: nat)
    requires i <= |s| && forall t | t in s :: t.Calls?
    ensures Normals(s[i..]) == Normals(s)[i..]
  {
    hide Normals;
    var a, b := Normals(s[i..]), Normals(s)[i..];
    assert |a| == |b| && forall j | 0 <= j < |a| :: a[j] == b[j];
  }

  /** What no end of the turns shows, no end of their later part shows. */
  lemma QuietEnd(s: seq<Turn>, i: nat, p: nat)
    requires i <= |s| && (forall t | t in s :: t.Calls?) && NothingShorter(s, p)
    ensures NothingShorter(s[i..], p)
  {
    hide Repeats, Normals, Failures;
    FailuresOfEnd(s, i);
    NormalsOfEnd(s, i);
    forall m | 1 <= m < p ensures !Repeats(Normals(s[i..]), m) {
      if 3 * m <= |s| - i {
        SameEnd(Normals(s[i..]), Normals(s), m);
      } else {
        TooShort(Normals(s[i..]), m);
      }
    }
  }

  /** Within three rounds the cycle alone can show, and it shows when they are complete. */
  lemma ShowsAfterThree(s: seq<Turn>, p: nat)
    requires 1 <= p <= MAX_CYCLE_TURNS && |s| <= 3 * p && Periodic(s, p) && NothingShorter(s, p)
    ensures Alarming(s) <==> |s| == 3 * p
    ensures |s| == 3 * p ==> RepeatedCycle(Normals(s)).Some? && RepeatedCycle(Normals(s)).value.turns == Normals(s)[2 * p..]
  {
    hide Repeats, Normals, Failures, RepeatedCycle, LastThreeSame;
    RepeatedCycleIsLeast(Normals(s));
    if |s| == 3 * p {
      RoundsRepeat(s, p);
    } else {
      forall m | 1 <= m <= MAX_CYCLE_TURNS ensures !Repeats(Normals(s), m) {
        if m >= p {
          TooShort(Normals(s), m);
        }
      }
    }
  }

  lemma RoundsRepeat(s: seq<Turn>, p: nat)
    requires |s| == 3 * p && Periodic(s, p)
    ensures Repeats(Normals(s), p)
  {
    hide Normals;
    var n := Normals(s);
    forall i | 0 <= i < p ensures n[0..p][i] == n[p..2 * p][i] == n[2 * p..][i] {
      assert s[p + i].normalized == s[p + i - p].normalized && s[2 * p + i].normalized == s[2 * p + i - p].normalized;
    }
    assert n[0..p] == n[p..2 * p] == n[2 * p..];
  }

  function ThirdRound(turns: seq<Turn>, p: nat): seq<nat>
    requires 3 * p <= |turns| && forall t | t in turns :: t.Calls?
  {
    Normals(turns[..3 * p])[2 * p..]
  }

  /** Every later turn of the cycle is one of its third round. */
  lemma {:induction false} InThirdRound(turns: seq<Turn>, p: nat, i: nat)
    requires 1 <= p && Periodic(turns, p) && 2 * p <= i < |turns| && 3 * p <= |turns|
    ensures turns[i].normalized in ThirdRound(turns, p)
    decreases i
  {
    if i < 3 * p {
      var n := Normals(turns[..3 * p]);
      assert n[2 * p..][i - 2 * p] == n[i];
    } else {
      InThirdRound(turns, p, i - p);
      assert turns[i].normalized == turns[i - p].normalized;
    }
  }

  /** The state of the run after `k` of the turns. */
  ghost predicate RoundsSoFar(turns: seq<Turn>, p: nat, k: nat)
    requires k <= |turns| == 6 * p && forall t | t in turns :: t.Calls?
  {
    var done := turns[..k];
    && (k < 3 * p ==> Counted(done) == done && Guidance(done).None?)
    && (3 * p <= k < 6 * p ==> Counted(done) == turns[3 * p..k] && Guidance(done) == Some(3 * p - 1))
    && (3 * p <= k ==> ShownCycle(turns[..3 * p]).Some? && ShownCycle(turns[..3 * p]).value.turns == ThirdRound(turns, p))
    && (Run(done).recovery <==> k == 3 * p) && (Run(done).stalled <==> k == 6 * p)
  }

  lemma {:induction false} RoundsAre(turns: seq<Turn>, p: nat, k: nat)
    requires SixRounds(turns, p) && k <= |turns|
    ensures RoundsSoFar(turns, p, k)
    decreases k
  {
    hide Run, ShownCycle, Normals, Alarming, SixRounds, Guidance, Counted;
    if k == 0 {
      NoRounds(turns, p);
    } else {
      RoundsAre(turns, p, k - 1);
      RoundNext(turns, p, k);
    }
  }

  lemma NoRounds(turns: seq<Turn>, p: nat)
    requires SixRounds(turns, p)
    ensures RoundsSoFar(turns, p, 0)
  {
    assert turns[..0] == [];
  }

  lemma PeriodicPart(turns: seq<Turn>, p: nat, i: nat, k: nat)
    requires Periodic(turns, p) && i <= k <= |turns|
    ensures Periodic(turns[i..k], p)
  {
  }

  /** The turns that count when turn `k` comes, with it. */
  function Round(turns: seq<Turn>, p: nat, k: nat): seq<Turn>
    requires k <= |turns|
  {
    if k <= 3 * p then turns[..k] else turns[3 * p..k]
  }

  lemma RoundShows(turns: seq<Turn>, p: nat, k: nat)
    requires SixRounds(turns, p) && 0 < k <= |turns|
    ensures var s := Round(turns, p, k);
            && (forall t | t in s :: t.Calls?)
            && (Alarming(s) <==> k == 3 * p || k == 6 * p)
            && (k == 3 * p || k == 6 * p ==>
                  RepeatedCycle(Normals(s)).Some? && RepeatedCycle(Normals(s)).value.turns == Normals(s)[2 * p..])
  {
    hide Normals, Alarming, NothingShorter, RepeatedCycle;
    assert QuietUpTo(turns, p, k);
    var done := turns[..k];
    if k <= 3 * p {
      PeriodicPart(turns, p, 0, k);
      ShowsAfterThree(done, p);
    } else {
      QuietEnd(done, 3 * p, p);
      PeriodicPart(turns, p, 3 * p, k);
      ShowsAfterThree(done[3 * p..], p);
    }
  }

  lemma CountedWith(turns: seq<Turn>, p: nat, k: nat)
    requires 0 < k <= |turns| == 6 * p && (forall t | t in turns :: t.Calls?) && RoundsSoFar(turns, p, k - 1)
    ensures turns[..k][..k - 1] == turns[..k - 1] && Counted(turns[..k - 1]) + [turns[k - 1]] == Round(turns, p, k)
  {
    hide Run, ShownCycle, Normals, Guidance, Counted;
  }

  lemma ShownIsRound(turns: seq<Turn>, p: nat, k: nat)
    requires 0 < k <= |turns| == 6 * p && (forall t | t in turns :: t.Calls?) && RoundsSoFar(turns, p, k - 1)
    ensures (forall t | t in Round(turns, p, k) :: t.Calls?)
    ensures ShownCycle(turns[..k]) == RepeatedCycle(Normals(Round(turns, p, k)))
  {
    hide Run, Normals, Guidance, Counted, RepeatedCycle;
    CountedWith(turns, p, k);
    var done := turns[..k];
    assert |done| == k && done[k - 1] == turns[k - 1] && turns[k - 1] in turns;
    assert Round(turns, p, k) == Counted(done[..k - 1]) + [done[k - 1]];
  }

  lemma AfterTurn(turns: seq<Turn>, k: nat)
    requires 0 < k <= |turns| && turns[k - 1].Calls?
    ensures var done, before := turns[..k], turns[..k - 1];
            && Counted(done) == (if Run(done).recovery then [] else Counted(before) + [turns[k - 1]])
            && Guidance(done) == (if Run(done).recovery then Some(k - 1) else Guidance(before))
  {
    hide Run;
    assert turns[..k][..k - 1] == turns[..k - 1];
  }

  /** What the turn is answered with. */
  lemma RoundDecision(turns: seq<Turn>, p: nat, k: nat)
    requires SixRounds(turns, p) && 0 < k <= |turns| && RoundsSoFar(turns, p, k - 1)
    ensures (Run(turns[..k]).recovery <==> k == 3 * p) && (Run(turns[..k]).stalled <==> k == 6 * p)
  {
    hide Normals, Alarming, SixRounds, SameLoopAgain, RepeatedCycle, Run, ThirdRound, ShownCycle, Counted, Guidance;
    SixRoundsAre(turns, p);
    CountedWith(turns, p, k);
    RoundShows(turns, p, k);
    DecisionIs(turns[..k]);
    if k == 6 * p {
      CycleAgain(turns, p);
      assert turns[..k] == turns;
    }
  }

  lemma RoundNext(turns: seq<Turn>, p: nat, k: nat)
    requires SixRounds(turns, p) && 0 < k <= |turns| && RoundsSoFar(turns, p, k - 1)
    ensures RoundsSoFar(turns, p, k)
  {
    hide Normals, SixRounds, RepeatedCycle, Run, ThirdRound, ShownCycle, Counted, Guidance;
    SixRoundsAre(turns, p);
    RoundDecision(turns, p, k);
    AfterTurn(turns, k);
    CountedWith(turns, p, k);
    if k == 3 * p {
      ShownIsRound(turns, p, k);
      RoundShows(turns, p, k);
      ThirdRoundIs(turns, p);
    }
  }

  lemma SixRoundsAre(turns: seq<Turn>, p: nat)
    requires SixRounds(turns, p)
    ensures 1 <= p <= MAX_CYCLE_TURNS && |turns| == 6 * p && forall t | t in turns :: t.Calls?
  {
  }

  lemma ThirdRoundIs(turns: seq<Turn>, p: nat)
    requires 3 * p <= |turns| && forall t | t in turns :: t.Calls?
    ensures ThirdRound(turns, p) == Normals(turns[..3 * p])[2 * p..]
  {
  }

  /** The last round is the third one again. */
  lemma SixthIsThird(turns: seq<Turn>, p: nat)
    requires SixRounds(turns, p)
    ensures Normals(turns[3 * p..])[2 * p..] == ThirdRound(turns, p)
  {
    hide Normals;
    var a, b := Normals(turns[3 * p..])[2 * p..], ThirdRound(turns, p);
    forall i | 0 <= i < p ensures a[i] == b[i] {
      assert turns[5 * p + i].normalized == turns[4 * p + i].normalized == turns[3 * p + i].normalized == turns[2 * p + i].normalized;
    }
  }

  lemma CycleAgain(turns: seq<Turn>, p: nat)
    requires SixRounds(turns, p) && RoundsSoFar(turns, p, |turns| - 1)
    ensures SameLoopAgain(turns, 3 * p - 1)
  {
    hide Normals, RepeatedCycle, Run, Guidance, Counted, ThirdRound, OneLoopSince, RoundsSoFar;
    var warned := ShownCycle(turns[..3 * p]);
    WarnedThen(turns, p);
    SixthIsThird(turns, p);
    forall i | 3 * p - 1 < i < |turns| ensures turns[i].Calls? && turns[i].normalized in warned.value.turns {
      InThirdRound(turns, p, i);
    }
    var now := ShownCycle(turns);
    assert now.value.turns == Rotate(warned.value.turns, 0);
  }

  lemma WarnedThen(turns: seq<Turn>, p: nat)
    requires SixRounds(turns, p) && RoundsSoFar(turns, p, |turns| - 1)
    ensures var warned, now := ShownCycle(turns[..3 * p]), ShownCycle(turns);
            && warned.Some? && warned.value.turns == ThirdRound(turns, p)
            && now.Some? && now.value.turns == Normals(turns[3 * p..])[2 * p..]
  {
    hide Normals, RepeatedCycle, Run, Guidance, Counted, ThirdRound, SixRounds, ShownCycle, Alarming;
    SixRoundsAre(turns, p);
    ShownIsRound(turns, p, 6 * p);
    RoundShows(turns, p, 6 * p);
    assert turns[..6 * p] == turns && turns[3 * p..6 * p] == turns[3 * p..];
  }

  /**
   A cycle of up to eight turns in which no shorter loop ever shows is warned
   about when it was seen three times, and the run is stopped when it was seen
   three times more; neither happens at any other turn.
   */
  lemma CyclesAreStopped(turns: seq<Turn>, p: nat, k: nat)
    requires SixRounds(turns, p) && k <= |turns|
    ensures Run(turns[..k]).recovery <==> k == 3 * p
    ensures Run(turns[..k]).stalled <==> k == 6 * p
  {
    hide Run;
    RoundsAre(turns, p, k);
  }

  lemma {:induction false} NoFailures(s: seq<Turn>)
    requires forall t | t in s :: t.Calls? && t.failureKeys == []
    ensures Failures(s) == FailureLoopTracker(None, 0)
  {
    if s != [] {
      NoFailures(s[..|s| - 1]);
    }
  }

  /** Two turns less than a period apart differ. */
  ghost predicate DistinctWithin(turns: seq<Turn>, p: nat)
    requires forall t | t in turns :: t.Calls?
  {
    && (forall i, j | 0 <= j < i < |turns| && i - j < p :: turns[i].normalized != turns[j].normalized)
    && (forall i, j | 0 <= j < i < |turns| && i - j < p :: turns[i].fingerprint != turns[j].fingerprint)
  }

  /** Rounds of two to eight different calls that fail in no way: warned after three, stopped after six. */
  lemma DistinctCyclesAreStopped(turns: seq<Turn>, p: nat, k: nat)
    requires 2 <= p <= MAX_CYCLE_TURNS && |turns| == 6 * p && k <= |turns|
    requires Periodic(turns, p) && DistinctWithin(turns, p) && forall t | t in turns :: t.failureKeys == []
    ensures Run(turns[..k]).recovery <==> k == 3 * p
    ensures Run(turns[..k]).stalled <==> k == 6 * p
  {
    hide Run, Failures, Repeats;
    forall k | 0 <= k <= |turns| ensures QuietUpTo(turns, p, k) {
      NoFailures(turns[..k]);
      forall m | 1 <= m < p ensures !Repeats(Normals(turns[..k]), m) {
        EndsDiffer(turns, p, k, m);
      }
      if k >= 3 {
        assert turns[..k][k - 1] == turns[k - 1] && turns[..k][k - 2] == turns[k - 2];
      }
    }
    CyclesAreStopped(turns, p, k);
  }

  lemma EndsDiffer(turns: seq<Turn>, p: nat, k: nat, m: nat)
    requires (forall t | t in turns :: t.Calls?) && DistinctWithin(turns, p) && k <= |turns| && 1 <= m < p
    ensures !Repeats(Normals(turns[..k]), m)
  {
    hide Normals, Repeats;
    var n := Normals(turns[..k]);
    LastsCoincide(n, m);
    if 3 * m <= k {
      assert n[k - m - 1] == turns[k - m - 1].normalized && n[k - 1] == turns[k - 1].normalized;
    }
  }

  lemma LastsCoincide(n: seq<nat>, m: nat)
    ensures Repeats(n, m) && m >= 1 ==> 3 * m <= |n| && n[|n| - 1] == n[|n| - 1 - m]
  {
    if m >= 1 && 3 * m <= |n| {
      assert n[|n| - 2 * m..|n| - m][m - 1] == n[|n| - m - 1] && n[|n| - m..][m - 1] == n[|n| - 1];
    }
  }

  // ----------------------------------------------- not every loop is stopped

  /** A cycle that recurs after its guidance, in any rotation, is stopped the moment it shows again. */
  lemma WarnedCycleStops(prev: ToolLoopTracker, turn: Turn)
    requires turn.Calls? && prev.warnedCycle.Some? && prev.warnedCycle.value.turns != []
    requires prev.warnedCycle.value.key == CycleKey(prev.warnedCycle.value.turns)
    requires turn.normalized in prev.warnedCycle.value.turns
    requires var c := RepeatedCycle(LastTurns(prev.recentTurns + [turn.normalized]));
             c.Some? && IsRotation(prev.warnedCycle.value.turns, c.value.turns)
    ensures TrackToolLoopTurn(prev, turn).stalled
  {
    hide CycleKey, LastTurns, IsRotation;
    var recent := LastTurns(prev.recentTurns + [turn.normalized]);
    RepeatedCycleIsLeast(recent);
    hide RepeatedCycle;
    KeysAreRotations(prev.warnedCycle.value.turns, RepeatedCycle(recent).value.turns);
  }

  /** `n` rounds of the same call three times and another one once; nothing fails. */
  function ThreeThenOther(n: nat, a: nat, b: nat): seq<Turn> {
    if n == 0 then [] else [Calls(a, [], a), Calls(a, [], a), Calls(a, [], a), Calls(b, [], b)] + ThreeThenOther(n - 1, a, b)
  }

  /** Between two rounds: nothing is held against the next one. */
  ghost predicate Unmarked(t: ToolLoopTracker, a: nat, b: nat) {
    && !t.recoveryOffered && t.warnedCycle.None? && t.exact.fingerprint != Some(a)
    && t.failure == FailureLoopTracker(None, 0) && (t.recentTurns == [] || t.recentTurns == [b])
  }

  /** Guidance clears the recent turns and another call clears the guidance: this loop is warned once a round, and never stopped. */
  lemma {:induction false} NotEveryLoopIsStopped(prev: ToolLoopTracker, n: nat, a: nat, b: nat)
    requires a != b && Unmarked(prev, a, b)
    ensures !StopsWithin(prev, ThreeThenOther(n, a, b))
    decreases n
  {
    hide TrackToolLoopTurn, RepeatedCycle, LastTurns, StopsWithin;
    if n == 0 {
      NothingStops(prev);
    } else {
      var again, other := Calls(a, [], a), Calls(b, [], b);
      var rest := ThreeThenOther(n - 1, a, b);
      var turns := [again, again, again, other] + rest;
      OneRound(prev, a, b);
      var d1 := TrackToolLoopTurn(prev, again);
      var d2 := TrackToolLoopTurn(d1.tracker, again);
      var d3 := TrackToolLoopTurn(d2.tracker, again);
      var d4 := TrackToolLoopTurn(d3.tracker, other);
      NotEveryLoopIsStopped(d4.tracker, n - 1, a, b);
      StopsLater(d3.tracker, other, rest);
      StopsLater(d2.tracker, again, [other] + rest);
      StopsLater(d1.tracker, again, [again] + ([other] + rest));
      StopsLater(prev, again, [again] + ([again] + ([other] + rest)));
      assert turns == [again] + ([again] + ([again] + ([other] + rest)));
    }
  }

  lemma NothingStops(prev: ToolLoopTracker)
    ensures !StopsWithin(prev, [])
  {
  }

  lemma StopsLater(prev: ToolLoopTracker, turn: Turn, rest: seq<Turn>)
    ensures var d := TrackToolLoopTurn(prev, turn);
            StopsWithin(prev, [turn] + rest) <==> d.stalled || StopsWithin(d.tracker, rest)
  {
    hide TrackToolLoopTurn;
    assert ([turn] + rest)[1..] == rest;
  }

  lemma OneRound(prev: ToolLoopTracker, a: nat, b: nat)
    requires a != b && Unmarked(prev, a, b)
    ensures var again, other := Calls(a, [], a), Calls(b, [], b);
            var d1 := TrackToolLoopTurn(prev, again);
            var d2 := TrackToolLoopTurn(d1.tracker, again);
            var d3 := TrackToolLoopTurn(d2.tracker, again);
            var d4 := TrackToolLoopTurn(d3.tracker, other);
            !d1.stalled && !d2.stalled && !d3.stalled && d3.recovery && !d4.stalled && Unmarked(d4.tracker, a, b)
  {
    hide RepeatedCycle;
    var again := Calls(a, [], a);
    var r := prev.recentTurns;
    NoCycleYet(r + [a]);
    NoCycleYet(r + [a] + [a]);
    OnlyLast(r + [a] + [a] + [a]);
    NoCycleYet([b]);
    var d1 := TrackToolLoopTurn(prev, again);
    assert d1.tracker.recentTurns == r + [a] && d1.tracker.exact == StallTracker(Some(a), 1);
    var d2 := TrackToolLoopTurn(d1.tracker, again);
    assert d2.tracker.recentTurns == r + [a] + [a] && d2.tracker.exact == StallTracker(Some(a), 2);
    var d3 := TrackToolLoopTurn(d2.tracker, again);
    assert d3.recovery && d3.tracker.recentTurns == [];
    assert [] + [b] == [b];
  }

  /** Fewer than three turns, or three that differ, show no cycle. */
  lemma NoCycleYet(turns: seq<nat>)
    requires |turns| <= 3 && (|turns| == 3 ==> turns[0] != turns[1])
    ensures RepeatedCycle(turns).None?
  {
    RepeatedCycleIsLeast(turns);
    if |turns| == 3 {
      assert turns[0..1][0] != turns[1..2][0];
    }
  }

  lemma OnlyLast(turns: seq<nat>)
    requires 1 <= |turns| <= 4
    ensures var c := RepeatedCycle(turns); c.Some? ==> c.value.turns == [turns[|turns| - 1]]
  {
    RepeatedCycleIsLeast(turns);
  }
}
