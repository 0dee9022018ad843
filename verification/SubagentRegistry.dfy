/**
 The registry of subagent runs: admission, settling and messages, with a spawn
 that is suspended while credentials are checked. `runs` is the source's map in
 its insertion order; run "bg-n" is run number n.
 */
module SubagentRegistry {
  import opened ClaimPaths
  import opened JsText
  import opened Utf8
  import opened Wrappers

  const MAX_SUBAGENT_RUNS := 4
  const MAX_SETTLED_RUNS := 10
  const MAX_DEPTH := 1
  const MAX_TASK_CHARS := 8000
  const MAX_MESSAGE_CHARS := 8000
  const MAX_RESULT_BYTES := 32000
  const MAX_CLAIM_PATHS := 20
  const MAX_INBOX := 50

  datatype RunState = Active | Settled | Failed | Killed

  datatype Run = Run(
    id: nat, task: string, resumeRunId: Option<nat>, readOnly: bool, depth: nat, paths: seq<string>,
    state: RunState, inbox: seq<string>, result: string)

  datatype Request = Request(
    parentDepth: nat, task: string, readOnly: bool, resume: Option<nat>, paths: seq<string>, routeKnown: bool)

  /** What a spawn holds on to while it waits for the credentials check. */
  datatype Suspended = Suspended(task: string, readOnly: bool, resumeRunId: Option<nat>, depth: nat, paths: seq<string>)

  datatype SpawnError =
    | TooDeep | EmptyTask | TaskTooLong | UnknownRun(id: nat) | StillActive(id: nat) | FailedBefore(id: nat)
    | TooManyPaths | BadPath(error: PathError) | UnknownRoute | NotAuthenticated | UnsupportedEffort
    | TooManyRuns | Overlaps(id: nat, path: string)

  datatype BeginResult = Begun(spawn: Suspended) | NotBegun(error: SpawnError)

  datatype SpawnResult = Spawned(run: Run) | NotSpawned(error: SpawnError)

  datatype SettleResult = SettledOk(run: Run) | NoSuchRun | AlreadyOver(state: RunState) | ResultTooLong

  datatype MessageResult = Recorded | NoRun | RunIsOver | EmptyMessage | MessageTooLong | InboxFull

  // ------------------------------------------------------- lists of runs

  /** The runs that are active (or that are not), in order. */
  function Select(runs: seq<Run>, active: bool): seq<Run> {
    if runs == [] then []
    else (if runs[0].state.Active? == active then [runs[0]] else []) + Select(runs[1..], active)
  }

  function Drop(runs: seq<Run>, id: nat): seq<Run> {
    if runs == [] then [] else if runs[0].id == id then runs[1..] else [runs[0]] + Drop(runs[1..], id)
  }

  ghost predicate DistinctIds(runs: seq<Run>) {
    forall i, j | 0 <= i < j < |runs| :: runs[i].id != runs[j].id
  }

  function Ids(runs: seq<Run>): (ids: seq<nat>)
    ensures |ids| == |runs| && forall i | 0 <= i < |runs| :: ids[i] == runs[i].id
  {
    if runs == [] then [] else [runs[0].id] + Ids(runs[1..])
  }

  lemma {:induction false} SelectMembers(runs: seq<Run>, active: bool)
    ensures forall r :: r in Select(runs, active) <==> r in runs && r.state.Active? == active
    ensures |Select(runs, active)| <= |runs|
    ensures DistinctIds(runs) ==> DistinctIds(Select(runs, active))
  {
    if runs != [] {
      SelectMembers(runs[1..], active);
      assert forall r :: r in runs <==> r == runs[0] || r in runs[1..];
      if DistinctIds(runs) {
        assert DistinctIds(runs[1..]);
        var rest := Select(runs[1..], active);
        forall i | 0 <= i < |rest| ensures rest[i].id != runs[0].id {
          assert rest[i] in runs[1..];
        }
      }
    }
  }

  lemma {:induction false} SelectAppend(a: seq<Run>, b: seq<Run>, active: bool)
    ensures Select(a + b, active) == Select(a, active) + Select(b, active)
  {
    if a == [] {
      assert a + b == b;
    } else {
      assert (a + b)[1..] == a[1..] + b;
      SelectAppend(a[1..], b, active);
      var first := if a[0].state.Active? == active then [a[0]] else [];
      assert first + (Select(a[1..], active) + Select(b, active)) == (first + Select(a[1..], active)) + Select(b, active);
    }
  }

  lemma SelectPush(runs: seq<Run>, r: Run, active: bool)
    ensures Select(runs + [r], active) == Select(runs, active) + (if r.state.Active? == active then [r] else [])
  {
    SelectAppend(runs, [r], active);
    assert [r][1..] == [];
  }

  lemma {:induction false} DropMembers(runs: seq<Run>, id: nat)
    requires DistinctIds(runs)
    ensures DistinctIds(Drop(runs, id)) && forall r :: r in Drop(runs, id) <==> r in runs && r.id != id
    ensures |runs| - 1 <= |Drop(runs, id)| <= |runs|
  {
    if runs != [] {
      DropMembers(runs[1..], id);
      var r, rest := runs[0], Drop(runs[1..], id);
      hide Drop;
      DropCons(r, runs[1..], id);
      assert runs == [r] + runs[1..];
      forall i | 0 <= i < |rest| ensures rest[i].id != r.id {
        assert rest[i] in runs[1..];
      }
    }
  }

  lemma SelectCons(r: Run, rest: seq<Run>, active: bool)
    ensures Select([r] + rest, active) == if r.state.Active? == active then [r] + Select(rest, active) else Select(rest, active)
  {
    assert ([r] + rest)[1..] == rest;
    assert [] + Select(rest, active) == Select(rest, active);
  }

  lemma DropCons(r: Run, rest: seq<Run>, id: nat)
    ensures Drop([r] + rest, id) == if r.id == id then rest else [r] + Drop(rest, id)
  {
    assert ([r] + rest)[1..] == rest;
  }

  lemma {:induction false} SelectDrop(runs: seq<Run>, id: nat, active: bool)
    requires DistinctIds(runs)
    ensures Select(Drop(runs, id), active) == Drop(Select(runs, active), id)
  {
    hide Select, Drop;
    if runs == [] {
      NothingSelected(id, active);
    } else {
      var r, tail := runs[0], runs[1..];
      assert runs == [r] + tail;
      SelectDrop(tail, id, active);
      SelectMembers(tail, active);
      SelectCons(r, tail, active);
      DropCons(r, tail, id);
      DropCons(r, Select(tail, active), id);
      SelectCons(r, Drop(tail, id), active);
      if r.id == id {
        assert forall q | q in Select(tail, active) :: q.id != id;
        DropAbsent(Select(tail, active), id);
      }
    }
  }

  lemma NothingSelected(id: nat, active: bool)
    ensures Select(Drop([], id), active) == [] && Drop(Select([], active), id) == []
  {
  }

  lemma {:induction false} DropAbsent(runs: seq<Run>, id: nat)
    requires forall r | r in runs :: r.id != id
    ensures Drop(runs, id) == runs
  {
    if runs != [] {
      assert runs[0] in runs;
      DropAbsent(runs[1..], id);
    }
  }

  // -------------------------------------------------------------- claims

  ghost predicate Disjoint(a: seq<string>, b: seq<string>) {
    forall p, q | p in a && q in b :: !PathsOverlap(p, q)
  }

  ghost predicate ClaimsOk(runs: seq<Run>) {
    && (forall i, j | 0 <= i < j < |runs| :: Disjoint(runs[i].paths, runs[j].paths))
    && forall i | 0 <= i < |runs| :: |runs[i].paths| <= MAX_CLAIM_PATHS && forall p | p in runs[i].paths :: IsClaim(p)
  }

  lemma OverlapIsSymmetric(a: string, b: string)
    ensures PathsOverlap(a, b) <==> PathsOverlap(b, a)
  {
  }

  /** Some active run claims something that overlaps one of these paths. */
  ghost predicate Blocked(active: seq<Run>, paths: seq<string>) {
    exists i :: 0 <= i < |active| && !Disjoint(paths, active[i].paths)
  }

  /** The error names an active run and the path of it that is in the way. */
  ghost predicate NamesOverlap(active: seq<Run>, paths: seq<string>, e: SpawnError) {
    e.Overlaps? && exists r, p :: r in active && r.id == e.id && e.path in r.paths && p in paths && PathsOverlap(p, e.path)
  }

  method FindOverlap(active: seq<Run>, paths: seq<string>) returns (e: Option<SpawnError>)
    ensures e.Some? <==> Blocked(active, paths)
    ensures e.Some? ==> NamesOverlap(active, paths, e.value)
  {
    hide PathsOverlap;
    for i := 0 to |active|
      invariant !Blocked(active[..i], paths)
    {
      assert active[..i + 1][..i] == active[..i] && active[..i + 1][i] == active[i];
      for j := 0 to |paths|
        invariant forall p, q | p in paths[..j] && q in active[i].paths :: !PathsOverlap(p, q)
      {
        for k := 0 to |active[i].paths|
          invariant forall q | q in active[i].paths[..k] :: !PathsOverlap(paths[j], q)
        {
          if PathsOverlap(paths[j], active[i].paths[k]) {
            assert paths[j] in paths && active[i].paths[k] in active[i].paths;
            assert !Disjoint(paths, active[i].paths) && active[i] in active;
            return Some(Overlaps(active[i].id, active[i].paths[k]));
          }
        }
        assert active[i].paths[..|active[i].paths|] == active[i].paths;
      }
      assert paths[..|paths|] == paths;
      NotBlockedYet(active, paths, i);
    }
    assert active[..|active|] == active;
    e := None;
  }

  lemma NotBlockedYet(active: seq<Run>, paths: seq<string>, i: nat)
    requires i < |active| && !Blocked(active[..i], paths) && Disjoint(paths, active[i].paths)
    ensures !Blocked(active[..i + 1], paths)
  {
    hide Disjoint;
    var more := active[..i + 1];
    forall k | 0 <= k < i + 1 ensures Disjoint(paths, more[k].paths) {
      if k < i {
        assert more[k] == active[..i][k];
      }
    }
  }

  lemma NotBlockedIsDisjoint(active: seq<Run>, r: Run)
    requires ClaimsOk(active) && !Blocked(active, r.paths)
    requires |r.paths| <= MAX_CLAIM_PATHS && forall p | p in r.paths :: IsClaim(p)
    ensures ClaimsOk(active + [r])
  {
    hide PathsOverlap, IsClaim;
    var all := active + [r];
    forall i, j | 0 <= i < j < |all| ensures Disjoint(all[i].paths, all[j].paths) {
      if j == |active| {
        forall p, q | p in all[i].paths && q in r.paths ensures !PathsOverlap(p, q) {
          OverlapIsSymmetric(p, q);
          assert Disjoint(r.paths, active[i].paths);
        }
      }
    }
  }

  lemma {:induction false} ClaimsDrop(active: seq<Run>, id: nat)
    requires ClaimsOk(active)
    ensures ClaimsOk(Drop(active, id))
    ensures forall r | r in Drop(active, id) :: r in active
  {
    hide Disjoint, IsClaim;
    if active != [] {
      assert ClaimsOk(active[1..]);
      ClaimsDrop(active[1..], id);
      var rest := Drop(active[1..], id);
      forall j | 0 <= j < |rest| ensures Disjoint(active[0].paths, rest[j].paths) {
        assert rest[j] in active[1..];
        var k :| 1 <= k < |active| && active[k] == rest[j];
      }
    }
  }

  // ------------------------------------------------------------ registry

  function Find(runs: seq<Run>, id: nat): Option<Run> {
    if runs == [] then None else if runs[0].id == id then Some(runs[0]) else Find(runs[1..], id)
  }

  lemma {:induction false} FindIs(runs: seq<Run>, id: nat)
    ensures Find(runs, id).Some? ==> Find(runs, id).value in runs && Find(runs, id).value.id == id
    ensures Find(runs, id).None? ==> forall r | r in runs :: r.id != id
  {
    if runs != [] {
      FindIs(runs[1..], id);
    }
  }

  /** The last `n` entries. */
  function Last(ids: seq<nat>, n: nat): seq<nat> {
    if n <= |ids| then ids[|ids| - n..] else ids
  }

  /** A brief that failed with nothing to show; respawning it unchanged would repeat it. */
  predicate FailedEmpty(r: Run, task: string) {
    r.state.Failed? && Trim(r.result) == "" && r.task == task
  }

  ghost predicate SpawnOk(s: Suspended) {
    && 1 <= s.depth <= MAX_DEPTH && s.task != "" && |s.task| <= MAX_TASK_CHARS
    && |s.paths| <= MAX_CLAIM_PATHS && (forall p | p in s.paths :: IsClaim(p))
    && forall i, j | 0 <= i < j < |s.paths| :: s.paths[i] != s.paths[j]
  }

  /** Everything a request must meet before credentials are looked at. */
  ghost predicate MayBegin(runs: seq<Run>, req: Request) {
    && req.parentDepth < MAX_DEPTH && Trim(req.task) != "" && |Trim(req.task)| <= MAX_TASK_CHARS
    && (if req.resume.None? then forall p | p in runs :: !FailedEmpty(p, Trim(req.task))
        else exists p :: p in runs && p.id == req.resume.value && !p.state.Active? && !FailedEmpty(p, Trim(req.task)))
    && |req.paths| <= MAX_CLAIM_PATHS && (forall raw | raw in req.paths :: Normalize(raw).Path?)
    && req.routeKnown
  }

  /** The check that would answer `e` objects to the request. */
  ghost predicate Objects(runs: seq<Run>, req: Request, e: SpawnError) {
    match e
    case TooDeep => req.parentDepth >= MAX_DEPTH
    case EmptyTask => Trim(req.task) == ""
    case TaskTooLong => |Trim(req.task)| > MAX_TASK_CHARS
    case UnknownRun(id) => req.resume == Some(id) && Find(runs, id).None?
    case StillActive(id) => req.resume == Some(id) && Find(runs, id).Some? && Find(runs, id).value.state.Active?
    case FailedBefore(id) =>
      (req.resume.None? || req.resume == Some(id)) && exists p :: p in runs && p.id == id && FailedEmpty(p, Trim(req.task))
    case TooManyPaths => |req.paths| > MAX_CLAIM_PATHS
    case BadPath(error) => exists raw :: raw in req.paths && Normalize(raw) == Refused(error)
    case UnknownRoute => !req.routeKnown
    case _ => false
  }

  /** The order of the checks. */
  function Rank(e: SpawnError): nat {
    match e
    case TooDeep => 0
    case EmptyTask => 1
    case TaskTooLong => 2
    case UnknownRun(_) => 3
    case StillActive(_) => 4
    case FailedBefore(_) => 5
    case TooManyPaths => 6
    case BadPath(_) => 7
    case UnknownRoute => 8
    case _ => 9
  }

  function DropFirst(runs: seq<Run>, ended: seq<Run>, n: nat): seq<Run>
    requires n <= |ended|
  {
    if n == 0 then runs else Drop(DropFirst(runs, ended, n - 1), ended[n - 1].id)
  }

  /** The runs without the least recently ended ones, as many as have ended beyond what the window holds. */
  function Retained(runs: seq<Run>): seq<Run> {
    var ended := Select(runs, false);
    DropFirst(runs, ended, if |ended| <= MAX_SETTLED_RUNS then 0 else |ended| - MAX_SETTLED_RUNS)
  }

  /** One run beyond the window: the least recently ended one goes. */
  lemma RetainedIs(runs: seq<Run>)
    ensures var ended := Select(runs, false);
            && (|ended| <= MAX_SETTLED_RUNS ==> Retained(runs) == runs)
            && (|ended| == MAX_SETTLED_RUNS + 1 ==> Retained(runs) == Drop(runs, ended[0].id))
  {
    hide Select, Drop;
    var ended := Select(runs, false);
    if |ended| > 0 {
      assert DropFirst(runs, ended, 1) == Drop(DropFirst(runs, ended, 0), ended[0].id);
    }
  }

  /** Of the ended runs exactly the last ten stay, and every active one does. */
  lemma RetainedKeepsTheLast(runs: seq<Run>)
    requires DistinctIds(runs)
    ensures var ended := Select(runs, false);
            && Select(Retained(runs), true) == Select(runs, true)
            && Select(Retained(runs), false) == if |ended| <= MAX_SETTLED_RUNS then ended else ended[|ended| - MAX_SETTLED_RUNS..]
  {
    hide Select, Drop, DropFirst;
    var ended := Select(runs, false);
    DropFirstKeeps(runs, if |ended| <= MAX_SETTLED_RUNS then 0 else |ended| - MAX_SETTLED_RUNS);
  }

  lemma {:induction false} DropFirstKeeps(runs: seq<Run>, n: nat)
    requires DistinctIds(runs) && n <= |Select(runs, false)|
    ensures var kept := DropFirst(runs, Select(runs, false), n);
            && DistinctIds(kept) && Select(kept, true) == Select(runs, true) && Select(kept, false) == Select(runs, false)[n..]
  {
    hide Select, Drop;
    if n > 0 {
      var ended := Select(runs, false);
      var kept, oldest := DropFirst(runs, ended, n - 1), ended[n - 1];
      DropFirstKeeps(runs, n - 1);
      var rest := ended[n..];
      assert Select(kept, false) == [oldest] + rest;
      SelectMembers(kept, false);
      assert oldest in Select(kept, false);
      DropMembers(kept, oldest.id);
      SelectDrop(kept, oldest.id, true);
      SelectDrop(kept, oldest.id, false);
      DropCons(oldest, rest, oldest.id);
      OldestIsNotActive(kept, oldest);
      DropAbsent(Select(kept, true), oldest.id);
    }
  }

  ghost predicate RunOk(r: Run, nextId: nat) {
    1 <= r.id < nextId && 1 <= r.depth <= MAX_DEPTH && |r.inbox| <= MAX_INBOX
  }

  ghost predicate RunsOk(runs: seq<Run>, nextId: nat) {
    DistinctIds(runs) && forall r | r in runs :: RunOk(r, nextId)
  }

  /** Every number handed out belongs to exactly one active run or to one that is over. */
  ghost predicate Accounted(active: seq<Run>, over: seq<nat>, nextId: nat) {
    && (forall i, j | 0 <= i < j < |over| :: over[i] != over[j])
    && (forall id: nat :: id in over ==> 1 <= id < nextId && forall r | r in active :: r.id != id)
    && (forall id: nat | 1 <= id < nextId && id !in over :: exists r :: r in active && r.id == id)
  }

  class SubagentRegistry {
    var runs: seq<Run>
    var nextId: nat

    /** The numbers of the runs that are over, in the order they ended. */
    ghost var over: seq<nat>

    ghost function Current(): seq<Run>
      reads `runs
    {
      Select(runs, true)
    }

    /** At most 4 runs are active, with disjoint claims; of the ended ones exactly the last 10 are kept, in order. */
    ghost predicate Valid()
      reads this
    {
      && nextId >= 1 && RunsOk(runs, nextId)
      && |Current()| <= MAX_SUBAGENT_RUNS && ClaimsOk(Current())
      && Accounted(Current(), over, nextId)
      && Ids(Select(runs, false)) == Last(over, MAX_SETTLED_RUNS)
    }

    constructor ()
      ensures Valid() && runs == [] && nextId == 1 && over == []
    {
      runs, nextId, over := [], 1, [];
    }

    method ActiveRuns() returns (active: seq<Run>)
      ensures active == Current()
    {
      active := Select(runs, true);
    }

    lemma IdsAreDistinct()
      requires Valid()
      ensures DistinctIds(runs)
    {
    }

    /** What a spawn checks before it waits for credentials. The registry does not change. */
    method BeginSpawn(req: Request) returns (r: BeginResult)
      requires Valid()
      ensures r.Begun? <==> MayBegin(runs, req)
      ensures r.NotBegun? ==> Objects(runs, req, r.error) && forall e | Rank(e) < Rank(r.error) :: !Objects(runs, req, e)
      ensures r.Begun? ==>
                && SpawnOk(r.spawn) && r.spawn.depth == req.parentDepth + 1 && r.spawn.task == Trim(req.task)
                && (forall raw | raw in req.paths :: Normalize(raw).Path? && Normalize(raw).path in r.spawn.paths)
                && r.spawn.resumeRunId == req.resume
                && (req.resume.None? ==> r.spawn.readOnly == req.readOnly && forall p | p in runs :: !FailedEmpty(p, r.spawn.task))
                && (req.resume.Some? ==>
                      exists p :: p in runs && p.id == req.resume.value && !p.state.Active? && !FailedEmpty(p, r.spawn.task)
                                  && r.spawn.readOnly == (req.readOnly || p.readOnly))
    {
      hide Trim, Normalize, IsClaim, ClaimsOk, Valid, RunsOk, Find;
      IdsAreDistinct();
      if req.parentDepth >= MAX_DEPTH {
        return NotBegun(TooDeep);
      }
      var task := Trim(req.task);
      if task == "" {
        return NotBegun(EmptyTask);
      }
      var readOnly := req.readOnly;
      if |task| > MAX_TASK_CHARS {
        return NotBegun(TaskTooLong);
      }
      if req.resume.Some? {
        FindIs(runs, req.resume.value);
        var prior := Find(runs, req.resume.value);
        if prior.None? {
          return NotBegun(UnknownRun(req.resume.value));
        }
        OnlyRun(runs, prior.value);
        if prior.value.state.Active? {
          return NotBegun(StillActive(req.resume.value));
        }
        readOnly := readOnly || prior.value.readOnly;
        if prior.value.state.Failed? && Trim(prior.value.result) == "" && prior.value.task == task {
          return NotBegun(FailedBefore(prior.value.id));
        }
      } else {
        for i := 0 to |runs|
          invariant forall k | 0 <= k < i :: !FailedEmpty(runs[k], task)
        {
          if runs[i].state.Failed? && Trim(runs[i].result) == "" && runs[i].task == task {
            assert runs[i] in runs;
            return NotBegun(FailedBefore(runs[i].id));
          }
        }
      }
      if |req.paths| > MAX_CLAIM_PATHS {
        return NotBegun(TooManyPaths);
      }
      var paths, error := ClaimAll(req.paths);
      if error.Some? {
        return NotBegun(BadPath(error.value));
      }
      if !req.routeKnown {
        return NotBegun(UnknownRoute);
      }
      r := Begun(Suspended(task, readOnly, req.resume, req.parentDepth + 1, paths));
    }

    /** Normalize the claimed paths, each one kept once. */
    method ClaimAll(raws: seq<string>) returns (paths: seq<string>, error: Option<PathError>)
      ensures error.None? ==>
                && |paths| <= |raws| && (forall p | p in paths :: IsClaim(p))
                && (forall i, j | 0 <= i < j < |paths| :: paths[i] != paths[j])
                && (forall raw | raw in raws :: Normalize(raw).Path? && Normalize(raw).path in paths)
      ensures error.Some? ==> exists raw :: raw in raws && Normalize(raw) == Refused(error.value)
    {
      hide Normalize, IsClaim;
      paths := [];
      for i := 0 to |raws|
        invariant |paths| <= i && (forall p | p in paths :: IsClaim(p))
        invariant forall a, b | 0 <= a < b < |paths| :: paths[a] != paths[b]
        invariant forall k | 0 <= k < i :: Normalize(raws[k]).Path? && Normalize(raws[k]).path in paths
      {
        var norm := NormalizeClaimPath(raws[i]);
        if norm.Refused? {
          assert raws[i] in raws;
          return paths, Some(norm.error);
        }
        NormalizedIsClaim(raws[i]);
        if norm.path !in paths {
          paths := paths + [norm.path];
        }
      }
      error := None;
    }

    /** What a spawn does once the credentials check answered; anything may have happened in between. */
    method FinishSpawn(s: Suspended, authenticated: bool, effortKnown: bool) returns (r: SpawnResult)
      requires Valid() && SpawnOk(s)
      modifies `runs, `nextId
      ensures Valid() && over == old(over)
      ensures r.Spawned? <==> authenticated && effortKnown && |old(Current())| < MAX_SUBAGENT_RUNS && !Blocked(old(Current()), s.paths)
      ensures r.Spawned? ==>
                && r.run == Run(old(nextId), s.task, s.resumeRunId, s.readOnly, s.depth, s.paths, Active, [], "")
                && runs == old(runs) + [r.run] && nextId == old(nextId) + 1
      ensures r.NotSpawned? ==> runs == old(runs) && nextId == old(nextId)
      ensures r.NotSpawned? ==>
                if !authenticated then r.error == NotAuthenticated
                else if !effortKnown then r.error == UnsupportedEffort
                else if |Current()| >= MAX_SUBAGENT_RUNS then r.error == TooManyRuns
                else NamesOverlap(Current(), s.paths, r.error)
    {
      hide Valid, Blocked, SpawnOk, NamesOverlap;
      if !authenticated {
        return NotSpawned(NotAuthenticated);
      }
      if !effortKnown {
        return NotSpawned(UnsupportedEffort);
      }
      var active := ActiveRuns();
      if |active| >= MAX_SUBAGENT_RUNS {
        return NotSpawned(TooManyRuns);
      }
      var hit := FindOverlap(active, s.paths);
      if hit.Some? {
        return NotSpawned(hit.value);
      }
      var run := Run(nextId, s.task, s.resumeRunId, s.readOnly, s.depth, s.paths, Active, [], "");
      Admit(s, run);
      r := Spawned(run);
    }

    method Admit(s: Suspended, run: Run)
      requires Valid() && SpawnOk(s) && |Current()| < MAX_SUBAGENT_RUNS && !Blocked(Current(), s.paths)
      requires run == Run(nextId, s.task, s.resumeRunId, s.readOnly, s.depth, s.paths, Active, [], "")
      modifies `runs, `nextId
      ensures Valid() && runs == old(runs) + [run] && nextId == old(nextId) + 1
    {
      hide Blocked, ClaimsOk, IsClaim, Ids, RunsOk, Accounted;
      RunsGrow(runs, nextId, run);
      NotBlockedIsDisjoint(Current(), run);
      SelectPush(runs, run, true);
      SelectPush(runs, run, false);
      assert Select(runs, false) + [] == Select(runs, false);
      AccountedSpawn(Current(), over, nextId, run);
      runs := runs + [run];
      nextId := nextId + 1;
    }

    /** End a run, once. Only the most recently ended ones are kept. */
    method SettleRun(id: nat, result: string, scanned: string, outcome: RunState) returns (r: SettleResult)
      requires Valid() && !outcome.Active?
      modifies `runs, `over
      ensures Valid()
      ensures var run := old(Find(runs, id));
              if run.None? then r == NoSuchRun && runs == old(runs) && over == old(over)
              else if !run.value.state.Active? then r == AlreadyOver(run.value.state) && runs == old(runs) && over == old(over)
              else if |EncodeText(result)| > MAX_RESULT_BYTES then r == ResultTooLong && runs == old(runs) && over == old(over)
              else
                var ended := run.value.(state := outcome, result := scanned);
                && r == SettledOk(ended) && over == old(over) + [id] && ended in runs
                && runs == Retained(Drop(old(runs), id) + [ended]) && Current() == Drop(old(Current()), id)
    {
      hide Valid, ClaimsOk, Accounted;
      FindIs(runs, id);
      var found := Find(runs, id);
      if found.None? {
        return NoSuchRun;
      }
      if !found.value.state.Active? {
        return AlreadyOver(found.value.state);
      }
      if |EncodeText(result)| > MAX_RESULT_BYTES {
        return ResultTooLong;
      }
      var run := found.value.(state := outcome, result := scanned);
      End(found.value, run);
      r := SettledOk(run);
    }

    /** Move the run behind all others, and let go of the ones beyond the retention window. */
    method End(before: Run, run: Run)
      requires Valid() && before in runs && before.state.Active? && !run.state.Active?
      requires run == before.(state := run.state, result := run.result)
      modifies `runs, `over
      ensures Valid() && over == old(over) + [run.id] && Current() == Drop(old(Current()), run.id) && run in runs
      ensures runs == Retained(Drop(old(runs), run.id) + [run])
    {
      hide ClaimsOk, Ids, Accounted, RunsOk, Select, Drop, Last;
      ghost var active, ended := Select(runs, true), Select(runs, false);
      MoveBehind(runs, nextId, before, run);
      EndKeeps(active, ended, over, nextId, before, run);
      runs := Drop(runs, run.id) + [run];
      over := over + [run.id];
      ghost var moved := runs;
      assert (ended + [run])[0] == if ended == [] then run else ended[0];
      RetainedIs(moved);
      EvictSettledRuns();
      if |ended| >= MAX_SETTLED_RUNS {
        EvictOldest(moved, nextId, ended, run);
      }
    }

    /** Drop what lies beyond the retention window, least recently ended first. */
    method EvictSettledRuns()
      modifies `runs
      ensures runs == Retained(old(runs))
    {
      hide Select, Drop;
      var settled := Select(runs, false);
      var overflow := |settled| - MAX_SETTLED_RUNS;
      var i := 0;
      while i < overflow
        invariant 0 <= i && (i == 0 || i <= overflow) && i <= |settled|
        invariant runs == DropFirst(old(runs), settled, i)
      {
        runs := Drop(runs, settled[i].id);
        i := i + 1;
      }
    }

    /** Record a message for an active run. */
    method RecordMessage(id: nat, text: string) returns (r: MessageResult)
      requires Valid()
      modifies `runs
      ensures Valid() && Ids(runs) == Ids(old(runs))
      ensures var run := old(Find(runs, id));
              if run.None? then r == NoRun && runs == old(runs)
              else if !run.value.state.Active? then r == RunIsOver && runs == old(runs)
              else if Trim(text) == "" then r == EmptyMessage && runs == old(runs)
              else if |Trim(text)| > MAX_MESSAGE_CHARS then r == MessageTooLong && runs == old(runs)
              else if |run.value.inbox| >= MAX_INBOX then r == InboxFull && runs == old(runs)
              else r == Recorded && Replaced(old(runs), runs, run.value, run.value.(inbox := run.value.inbox + [Trim(text)]))
    {
      hide Trim, ClaimsOk, Accounted, Valid;
      FindIs(runs, id);
      var found := Find(runs, id);
      if found.None? {
        return NoRun;
      }
      if !found.value.state.Active? {
        return RunIsOver;
      }
      var clean := Trim(text);
      if clean == "" {
        return EmptyMessage;
      }
      if |clean| > MAX_MESSAGE_CHARS {
        return MessageTooLong;
      }
      if |found.value.inbox| >= MAX_INBOX {
        return InboxFull;
      }
      Replace(found.value, found.value.(inbox := found.value.inbox + [clean]));
      r := Recorded;
    }

    /** Update one active run where it stands. */
    method Replace(before: Run, run: Run)
      requires Valid() && before in runs && before.state.Active? && run == before.(inbox := run.inbox) && |run.inbox| <= MAX_INBOX
      modifies `runs
      ensures Valid() && Ids(runs) == Ids(old(runs)) && Replaced(old(runs), runs, before, run)
    {
      var i := 0;
      while runs[i] != before
        invariant i < |runs| && before !in runs[..i]
        decreases |runs| - i
      {
        i := i + 1;
      }
      ReplaceKeeps(runs, i, run);
      ReplaceClaims(Current(), Select(runs[i := run], true));
      ReplaceAccounted(Current(), Select(runs[i := run], true), over, nextId);
      runs := runs[i := run];
    }
  }

  /** One run changed where it stands, and nothing else. */
  ghost predicate Replaced(runs: seq<Run>, next: seq<Run>, before: Run, run: Run) {
    exists i :: 0 <= i < |runs| && runs[i] == before && next == runs[i := run]
  }

  lemma OnlyRun(runs: seq<Run>, r: Run)
    requires DistinctIds(runs) && r in runs
    ensures forall p | p in runs && p.id == r.id :: p == r
  {
  }

  lemma RunsGrow(runs: seq<Run>, nextId: nat, run: Run)
    requires RunsOk(runs, nextId) && run.id == nextId && nextId >= 1 && RunOk(run, nextId + 1)
    ensures RunsOk(runs + [run], nextId + 1)
  {
    forall i | 0 <= i < |runs| ensures runs[i].id != run.id {
      assert RunOk(runs[i], nextId);
    }
  }

  /** Taking a run out and putting its ended form behind all others. */
  lemma MoveBehind(runs: seq<Run>, nextId: nat, before: Run, run: Run)
    requires RunsOk(runs, nextId) && before in runs && before.state.Active? && !run.state.Active?
    requires run == before.(state := run.state, result := run.result)
    ensures var moved := Drop(runs, run.id) + [run];
            && RunsOk(moved, nextId) && run in moved
            && Select(moved, true) == Drop(Select(runs, true), run.id)
            && Select(moved, false) == Select(runs, false) + [run]
    ensures before in Select(runs, true) && DistinctIds(Select(runs, true)) && 1 <= before.id < nextId
  {
    hide Select, Drop;
    DropMembers(runs, run.id);
    SelectMembers(runs, true);
    SelectDrop(runs, run.id, true);
    SelectDrop(runs, run.id, false);
    DropAbsentEnded(runs, before);
    SelectPush(Drop(runs, run.id), run, true);
    SelectPush(Drop(runs, run.id), run, false);
    assert Drop(Select(runs, true), run.id) + [] == Drop(Select(runs, true), run.id);
    assert RunOk(before, nextId);
    RunOkEnd(before, run, nextId);
    var moved := Drop(runs, run.id) + [run];
    assert moved[|moved| - 1] == run;
    assert forall i | 0 <= i < |moved| - 1 :: moved[i] in Drop(runs, run.id);
  }

  /** The accounts after a run ended. */
  lemma EndKeeps(active: seq<Run>, ended: seq<Run>, over: seq<nat>, nextId: nat, before: Run, run: Run)
    requires DistinctIds(active) && before in active && run.id == before.id && 1 <= before.id < nextId
    requires Accounted(active, over, nextId) && ClaimsOk(active) && Ids(ended) == Last(over, MAX_SETTLED_RUNS)
    ensures Accounted(Drop(active, run.id), over + [run.id], nextId) && ClaimsOk(Drop(active, run.id))
    ensures |Drop(active, run.id)| <= |active| && |ended| <= MAX_SETTLED_RUNS
    ensures Last(over + [run.id], MAX_SETTLED_RUNS)
         == Ids(if |ended| < MAX_SETTLED_RUNS then ended + [run] else ended[1..] + [run])
  {
    hide Accounted, ClaimsOk, Drop;
    AccountedEnd(active, over, nextId, before);
    ClaimsDrop(active, run.id);
    DropMembers(active, run.id);
    LastPush(over, run.id, ended);
    IdsPush(ended, run);
    IdsLength(ended, Last(over, MAX_SETTLED_RUNS));
  }

  /** Letting the oldest ended run go touches no other. */
  lemma EvictOldest(moved: seq<Run>, nextId: nat, ended: seq<Run>, run: Run)
    requires RunsOk(moved, nextId) && Select(moved, false) == ended + [run] && ended != []
    ensures var kept := Drop(moved, ended[0].id);
            && RunsOk(kept, nextId) && run in kept
            && Select(kept, true) == Select(moved, true) && Select(kept, false) == ended[1..] + [run]
  {
    hide Select, Drop;
    var oldest := ended[0];
    DropMembers(moved, oldest.id);
    SelectMembers(moved, true);
    SelectMembers(moved, false);
    SelectDrop(moved, oldest.id, true);
    SelectDrop(moved, oldest.id, false);
    var all := ended + [run];
    assert all[0] == oldest && all[|ended|] == run && all == [oldest] + (ended[1..] + [run]);
    DropCons(oldest, ended[1..] + [run], oldest.id);
    assert run in Select(moved, false) && oldest in Select(moved, false) && run.id != oldest.id;
    OldestIsNotActive(moved, oldest);
    DropAbsent(Select(moved, true), oldest.id);
  }

  lemma OldestIsNotActive(runs: seq<Run>, r: Run)
    requires DistinctIds(runs) && r in runs && !r.state.Active?
    ensures forall q | q in Select(runs, true) :: q.id != r.id
  {
    SelectMembers(runs, true);
  }

  lemma AccountedSpawn(active: seq<Run>, over: seq<nat>, nextId: nat, run: Run)
    requires nextId >= 1 && Accounted(active, over, nextId) && run.id == nextId
    ensures Accounted(active + [run], over, nextId + 1)
  {
    forall id: nat | 1 <= id < nextId + 1 && id !in over ensures exists r :: r in active + [run] && r.id == id {
      if id == nextId {
        assert run in active + [run];
      } else {
        var r :| r in active && r.id == id;
        assert r in active + [run];
      }
    }
  }

  lemma AccountedEnd(active: seq<Run>, over: seq<nat>, nextId: nat, before: Run)
    requires Accounted(active, over, nextId) && before in active && DistinctIds(active) && 1 <= before.id < nextId
    ensures Accounted(Drop(active, before.id), over + [before.id], nextId)
  {
    DropMembers(active, before.id);
    forall i | 0 <= i < |over| ensures over[i] != before.id {
      assert over[i] in over;
    }
    forall id: nat | 1 <= id < nextId && id !in over + [before.id] ensures exists r :: r in Drop(active, before.id) && r.id == id {
      assert (over + [before.id])[|over|] == before.id;
      assert id !in over;
      var r :| r in active && r.id == id;
      assert r in Drop(active, before.id);
    }
  }

  lemma DropAbsentEnded(runs: seq<Run>, before: Run)
    requires DistinctIds(runs) && before in runs && before.state.Active?
    ensures Drop(Select(runs, false), before.id) == Select(runs, false)
  {
    SelectMembers(runs, false);
    DropAbsent(Select(runs, false), before.id);
  }

  lemma RunOkEnd(before: Run, run: Run, nextId: nat)
    requires run == before.(state := run.state, result := run.result)
    ensures RunOk(run, nextId) <==> RunOk(before, nextId)
  {
  }

  lemma IdsPush(runs: seq<Run>, r: Run)
    ensures Ids(runs + [r]) == Ids(runs) + [r.id]
    ensures runs != [] ==> Ids(runs[1..] + [r]) == Ids(runs)[1..] + [r.id]
  {
  }

  lemma LastPush(over: seq<nat>, id: nat, ended: seq<Run>)
    requires Ids(ended) == Last(over, MAX_SETTLED_RUNS)
    ensures Last(over + [id], MAX_SETTLED_RUNS)
         == if |ended| < MAX_SETTLED_RUNS then Ids(ended) + [id] else Ids(ended)[1..] + [id]
  {
  }

  lemma IdsLength(ended: seq<Run>, ids: seq<nat>)
    requires Ids(ended) == ids
    ensures |ended| == |ids|
  {
  }

  lemma {:induction false} ReplaceKeeps(runs: seq<Run>, i: nat, run: Run)
    requires i < |runs| && runs[i].state.Active? && run == runs[i].(inbox := run.inbox)
    ensures Ids(runs[i := run]) == Ids(runs)
    ensures Select(runs[i := run], false) == Select(runs, false)
    ensures |Select(runs[i := run], true)| == |Select(runs, true)|
    ensures forall k | 0 <= k < |Select(runs, true)| ::
              Select(runs[i := run], true)[k] == Select(runs, true)[k].(inbox := Select(runs[i := run], true)[k].inbox)
  {
    if i == 0 {
      assert runs[0 := run][1..] == runs[1..];
    } else {
      assert runs[i := run][1..] == runs[1..][i - 1 := run];
      ReplaceKeeps(runs[1..], i - 1, run);
    }
  }

  lemma ReplaceClaims(active: seq<Run>, updated: seq<Run>)
    requires ClaimsOk(active) && |updated| == |active|
    requires forall k | 0 <= k < |active| :: updated[k] == active[k].(inbox := updated[k].inbox)
    ensures ClaimsOk(updated)
  {
  }

  lemma ReplaceAccounted(active: seq<Run>, updated: seq<Run>, over: seq<nat>, nextId: nat)
    requires Accounted(active, over, nextId) && |updated| == |active|
    requires forall k | 0 <= k < |active| :: updated[k] == active[k].(inbox := updated[k].inbox)
    ensures Accounted(updated, over, nextId)
  {
    forall id: nat | 1 <= id < nextId && id !in over ensures exists r :: r in updated && r.id == id {
      var r :| r in active && r.id == id;
      var k :| 0 <= k < |active| && active[k] == r;
      assert updated[k] in updated;
    }
  }

  /**
   Every interleaving: spawns begin, wait in any number and finish in any
   order, while runs end and messages arrive in between.
   */
  method AnyInterleaving() returns (registry: SubagentRegistry)
    ensures registry.Valid()
  {
    registry := new SubagentRegistry();
    var waiting: seq<Suspended> := [];
    var steps: nat := *;
    while steps > 0
      invariant registry.Valid() && fresh(registry) && forall s | s in waiting :: SpawnOk(s)
      decreases steps
    {
      steps := steps - 1;
      var which: nat := *;
      if which == 0 {
        var req: Request := *;
        var begun := registry.BeginSpawn(req);
        if begun.Begun? {
          waiting := waiting + [begun.spawn];
        }
      } else if which == 1 && waiting != [] {
        var k: int := *;
        var authenticated: bool, effortKnown: bool := *, *;
        if 0 <= k < |waiting| {
          var _ := registry.FinishSpawn(waiting[k], authenticated, effortKnown);
          waiting := waiting[..k] + waiting[k + 1..];
        }
      } else if which == 2 {
        var id: nat, result: string, scanned: string, outcome: RunState := *, *, *, *;
        if !outcome.Active? {
          var _ := registry.SettleRun(id, result, scanned, outcome);
        }
      } else {
        var id: nat, text: string := *, *;
        var _ := registry.RecordMessage(id, text);
      }
    }
  }
}
