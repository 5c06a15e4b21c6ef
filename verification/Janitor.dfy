/** Live runs and the background janitor over one task fabric. Every step below is atomic;
    everything else interleaves: a sweep lists, tests, reads and deletes in separate steps,
    and its scan of the active runs is itself spread over time. */
module Janitor {
  import opened Basics
  import opened CollabIds

  /** LEASED, RUNNING and SUSPENDED are all in flight. */
  datatype TaskState = Ready | InFlight | Completed | Failed

  /** Where a run is: creating (so many tasks made), waiting, deleting what it created, over. */
  datatype Phase = Unborn | Creating(made: nat) | Waiting | Cleaning(left: seq<string>) | Over

  /** Where the janitor is. `must` holds the runs active throughout the scan so far, which the
      scan is bound to visit; `may` those active at some moment of it, which it might. */
  datatype Sweep =
    | Resting
    | Listing(ids: seq<string>)
    | Scanning(id: string, rest: seq<string>, seen: set<RunId>, must: set<RunId>, may: set<RunId>)
    | Unprotected(id: string, rest: seq<string>)
    | Deletable(id: string, rest: seq<string>)

  datatype System = System(fabric: map<string, TaskState>, active: set<RunId>, runs: map<RunId, Phase>, sweep: Sweep)

  /** The node ids each run will submit: distinct, and of the shape its generator allows. */
  type Plan = map<RunId, seq<string>>

  ghost predicate GoodPlan(plan: Plan) {
    forall r :: r in plan ==> NoDup(plan[r]) && forall n :: n in plan[r] ==> Submits(r, n)
  }

  datatype Step =
    | Mark(r: RunId) | Create(r: RunId) | Abort(r: RunId) | StartWaiting(r: RunId) | StopWaiting(r: RunId)
    | CleanOne(r: RunId) | Unmark(r: RunId)
    | Progress(id: string, state: TaskState) | AddForeign(id: string) | RemoveForeign(id: string)
    | List(ids: seq<string>) | Consider | Look(r: RunId) | EndScan | ReadTask | Delete | FinishSweep

  function Tasks(plan: Plan, r: RunId): seq<string>
    requires r in plan
  {
    seq(|plan[r]|, i requires 0 <= i < |plan[r]| => TaskId(r, plan[r][i]))
  }

  ghost predicate Owns(plan: Plan, r: RunId, id: string) {
    r in plan && exists n :: n in plan[r] && id == TaskId(r, n)
  }

  /** A task of none of these runs, whatever its id looks like. */
  ghost predicate Foreign(plan: Plan, id: string) {
    forall r {:trigger Owns(plan, r, id)} :: !Owns(plan, r, id)
  }

  predicate IsCollab(id: string) {
    "collab-" <= id
  }

  /** The fabric refuses to delete a task in flight, and forgets one it does not know. */
  function DeleteTask(fabric: map<string, TaskState>, id: string): map<string, TaskState> {
    if id in fabric && !fabric[id].InFlight? then fabric - {id} else fabric
  }

  function SetPhase(s: System, r: RunId, p: Phase): System {
    s.(runs := s.runs[r := p])
  }

  ghost predicate CanStep(plan: Plan, s: System, t: Step) {
    match t
    case Mark(r) => r in s.runs && s.runs[r].Unborn?
    case Create(r) => r in s.runs && r in plan && s.runs[r].Creating? && s.runs[r].made < |plan[r]|
    case Abort(r) => r in s.runs && r in plan && s.runs[r].Creating? && s.runs[r].made <= |plan[r]|
    case StartWaiting(r) => r in s.runs && r in plan && s.runs[r] == Creating(|plan[r]|)
    case StopWaiting(r) => r in s.runs && r in plan && s.runs[r].Waiting?
    case CleanOne(r) => r in s.runs && s.runs[r].Cleaning? && s.runs[r].left != []
    case Unmark(r) => r in s.runs && s.runs[r] == Cleaning([])
    case Progress(id, state) => id in s.fabric && !s.fabric[id].Completed? && !s.fabric[id].Failed?
    case AddForeign(id) => id !in s.fabric && Foreign(plan, id)
    case RemoveForeign(id) => Foreign(plan, id)
    case List(ids) => s.sweep.Resting? && Elements(ids) == s.fabric.Keys
    case Consider => s.sweep.Listing? && s.sweep.ids != []
    case Look(r) => s.sweep.Scanning? && r in s.sweep.may && r !in s.sweep.seen
    case EndScan => s.sweep.Scanning? && s.sweep.must <= s.sweep.seen
    case ReadTask => s.sweep.Unprotected?
    case Delete => s.sweep.Deletable?
    case FinishSweep => s.sweep.Listing? && s.sweep.ids == []
  }

  ghost function DoStep(plan: Plan, s: System, t: Step): System
    requires CanStep(plan, s, t)
  {
    match t
    case Mark(r) => Marked(SetPhase(s, r, Creating(0)), r)
    case Create(r) =>
      var k := s.runs[r].made;
      var id := TaskId(r, plan[r][k]);
      if id in s.fabric then SetPhase(s, r, Cleaning(Tasks(plan, r)[..k]))
      else SetPhase(s, r, Creating(k + 1)).(fabric := s.fabric[id := Ready])
    case Abort(r) => SetPhase(s, r, Cleaning(Tasks(plan, r)[..s.runs[r].made]))
    case StartWaiting(r) => SetPhase(s, r, Waiting)
    case StopWaiting(r) => SetPhase(s, r, Cleaning(Tasks(plan, r)))
    case CleanOne(r) =>
      SetPhase(s, r, Cleaning(s.runs[r].left[1..])).(fabric := DeleteTask(s.fabric, s.runs[r].left[0]))
    case Unmark(r) => Unmarked(SetPhase(s, r, Over), r)
    case Progress(id, state) => s.(fabric := s.fabric[id := state])
    case AddForeign(id) => s.(fabric := s.fabric[id := Ready])
    case RemoveForeign(id) => s.(fabric := s.fabric - {id})
    case List(ids) => s.(sweep := Listing(ids))
    case Consider =>
      var id, rest := s.sweep.ids[0], s.sweep.ids[1..];
      s.(sweep := if IsCollab(id) then Scanning(id, rest, {}, s.active, s.active) else Listing(rest))
    case Look(r) =>
      s.(sweep := if Protects(r, s.sweep.id) then Listing(s.sweep.rest) else s.sweep.(seen := s.sweep.seen + {r}))
    case EndScan => s.(sweep := Unprotected(s.sweep.id, s.sweep.rest))
    case ReadTask =>
      var id := s.sweep.id;
      s.(sweep := if id in s.fabric && !s.fabric[id].InFlight? then Deletable(id, s.sweep.rest)
          else Listing(s.sweep.rest))
    case Delete => s.(fabric := DeleteTask(s.fabric, s.sweep.id), sweep := Listing(s.sweep.rest))
    case FinishSweep => s.(sweep := Resting)
  }

  function Marked(s: System, r: RunId): System {
    s.(active := s.active + {r}, sweep := if s.sweep.Scanning? then s.sweep.(may := s.sweep.may + {r}) else s.sweep)
  }

  function Unmarked(s: System, r: RunId): System {
    s.(active := s.active - {r}, sweep := if s.sweep.Scanning? then s.sweep.(must := s.sweep.must - {r}) else s.sweep)
  }

  /** Nothing has started; the fabric holds only tasks of others, which may carry the prefix too. */
  ghost predicate Initial(plan: Plan, s: System) {
    && s.active == {} && s.runs == (map r | r in plan :: Unborn) && s.sweep.Resting?
    && forall id :: id in s.fabric ==> Foreign(plan, id)
  }

  ghost function Play(plan: Plan, s: System, steps: seq<Step>): Option<System> {
    if steps == [] then Some(s)
    else
      match Play(plan, s, steps[..|steps| - 1])
      case None => None
      case Some(s') => if CanStep(plan, s', steps[|steps| - 1]) then Some(DoStep(plan, s', steps[|steps| - 1]))
          else None
  }

  ghost predicate Reachable(plan: Plan, steps: seq<Step>, s: System) {
    exists s0 :: Initial(plan, s0) && Play(plan, s0, steps) == Some(s)
  }

  // ---- the invariant -------------------------------------------------------------------------

  predicate Busy(p: Phase) {
    p.Creating? || p.Waiting? || p.Cleaning?
  }

  /** The tasks `r` relies on are there, and the ones it has yet to create are not. */
  ghost predicate Holds(plan: Plan, s: System, r: RunId)
    requires r in plan && r in s.runs
  {
    match s.runs[r]
    case Creating(k) =>
      && k <= |plan[r]|
      && (forall i :: 0 <= i < k ==> TaskId(r, plan[r][i]) in s.fabric)
      && (forall i :: k <= i < |plan[r]| ==> TaskId(r, plan[r][i]) !in s.fabric)
    case Waiting => forall n :: n in plan[r] ==> TaskId(r, n) in s.fabric
    case Cleaning(left) => NoDup(left) && forall id :: id in left ==> Owns(plan, r, id) && id in s.fabric
    case _ => true
  }

  /** Whoever owns `id` has started. */
  ghost predicate Started(plan: Plan, s: System, id: string) {
    forall r {:trigger Owns(plan, r, id)} :: Owns(plan, r, id) ==> r in s.runs && !s.runs[r].Unborn?
  }

  /** Whoever owns `id` is over, for good. */
  ghost predicate Orphaned(plan: Plan, s: System, id: string) {
    forall r {:trigger Owns(plan, r, id)} :: Owns(plan, r, id) ==> r in s.runs && s.runs[r].Over?
  }

  ghost predicate SweepInv(plan: Plan, s: System) {
    match s.sweep
    case Resting => true
    case Listing(ids) => forall id :: id in ids ==> Started(plan, s, id)
    case Scanning(id, rest, seen, must, may) =>
      && IsCollab(id) && Started(plan, s, id) && (forall j :: j in rest ==> Started(plan, s, j))
      && (forall r :: r in seen ==> !Protects(r, id))
      && (forall r {:trigger Owns(plan, r, id)} :: Owns(plan, r, id) && r in s.active ==> r in must)
    case Unprotected(id, rest) => IsCollab(id) && Orphaned(plan, s, id) && forall j :: j in rest ==> Started(plan, s, j)
    case Deletable(id, rest) => IsCollab(id) && Orphaned(plan, s, id) && forall j :: j in rest ==> Started(plan, s, j)
  }

  /** The active runs are the started ones that have not finished their cleanup. */
  ghost predicate ActiveIsBusy(plan: Plan, s: System) {
    && s.runs.Keys == plan.Keys
    && forall r :: r in s.active <==> r in s.runs && Busy(s.runs[r])
  }

  ghost predicate Inv(plan: Plan, s: System) {
    && ActiveIsBusy(plan, s)
    && (forall id :: id in s.fabric ==> Started(plan, s, id))
    && (forall r :: r in plan ==> Holds(plan, s, r))
    && SweepInv(plan, s)
  }

  // ---- one step keeps it -----------------------------------------------------------------------

  /** A task has one owner. */
  lemma OneOwner(plan: Plan, r: RunId, q: RunId, id: string)
    requires GoodPlan(plan) && Owns(plan, r, id) && Owns(plan, q, id)
    ensures r == q
  {
    var n :| n in plan[r] && id == TaskId(r, n);
    var m :| m in plan[q] && id == TaskId(q, m);
    TaskIdInjective(r, n, q, m);
  }

  lemma OwnsPlanned(plan: Plan, r: RunId, i: nat)
    requires r in plan && i < |plan[r]|
    ensures Owns(plan, r, TaskId(r, plan[r][i]))
  {
    assert plan[r][i] in plan[r];
  }

  lemma PlannedDistinct(plan: Plan, r: RunId, i: nat, j: nat)
    requires GoodPlan(plan) && r in plan && i < |plan[r]| && j < |plan[r]| && i != j
    ensures TaskId(r, plan[r][i]) != TaskId(r, plan[r][j])
  {
    if TaskId(r, plan[r][i]) == TaskId(r, plan[r][j]) {
      assert plan[r][i] in plan[r] && plan[r][j] in plan[r];
      TaskIdInjective(r, plan[r][i], r, plan[r][j]);
    }
  }

  /** Starting never goes back, so what was started or orphaned stays so. */
  lemma OwnersAdvance(plan: Plan, s: System, t: Step)
    requires CanStep(plan, s, t)
    ensures forall id :: Started(plan, s, id) ==> Started(plan, DoStep(plan, s, t), id)
    ensures forall id :: Orphaned(plan, s, id) ==> Orphaned(plan, DoStep(plan, s, t), id)
  {
    var s' := DoStep(plan, s, t);
    assert forall r :: r in s.runs ==>
        r in s'.runs && (!s.runs[r].Unborn? ==> !s'.runs[r].Unborn?) && (s.runs[r].Over? ==> s'.runs[r].Over?);
  }

  /** A step that only takes away or adds tasks `r` does not own leaves `r` what it relies on. */
  lemma HoldsFrame(plan: Plan, s: System, s': System, r: RunId)
    requires r in plan && r in s.runs && r in s'.runs && s'.runs[r] == s.runs[r] && Holds(plan, s, r)
    requires forall id :: Owns(plan, r, id) ==> (id in s'.fabric <==> id in s.fabric)
    ensures Holds(plan, s', r)
  {
    match s.runs[r]
    case Creating(k) =>
      forall i | 0 <= i < |plan[r]|
        ensures TaskId(r, plan[r][i]) in s'.fabric <==> TaskId(r, plan[r][i]) in s.fabric
      {
        OwnsPlanned(plan, r, i);
      }
    case Waiting =>
      forall n | n in plan[r]
        ensures TaskId(r, n) in s'.fabric
      {
        assert Owns(plan, r, TaskId(r, n));
      }
    case _ =>
  }

  lemma TasksOwned(plan: Plan, r: RunId, k: nat)
    requires GoodPlan(plan) && r in plan && k <= |plan[r]|
    ensures NoDup(Tasks(plan, r)[..k])
    ensures forall id :: id in Tasks(plan, r)[..k] ==>
              Owns(plan, r, id) && exists i :: 0 <= i < k && id == TaskId(r, plan[r][i])
  {
    var made := Tasks(plan, r)[..k];
    forall i: nat | i < k
      ensures Owns(plan, r, made[i]) && made[i] == TaskId(r, plan[r][i])
    {
      OwnsPlanned(plan, r, i);
    }
    forall i: nat, j: nat | i < j < k
      ensures made[i] != made[j]
    {
      PlannedDistinct(plan, r, i, j);
    }
  }

  /** Steps of one run. */
  lemma RunStepHolds(plan: Plan, s: System, t: Step, r: RunId)
    requires GoodPlan(plan) && Inv(plan, s) && CanStep(plan, s, t)
    requires t == Mark(r) || t == Create(r) || t == Abort(r) || t == StartWaiting(r) || t == StopWaiting(r)
              || t == CleanOne(r) || t == Unmark(r)
    ensures Holds(plan, DoStep(plan, s, t), r)
  {
    var s' := DoStep(plan, s, t);
    assert r in plan.Keys;
    match t
    case Mark(_) =>
      forall i: nat | i < |plan[r]|
        ensures TaskId(r, plan[r][i]) !in s.fabric
      {
        OwnsPlanned(plan, r, i);
      }
    case Create(_) =>
      var k := s.runs[r].made;
      forall i: nat | i < |plan[r]| && i != k
        ensures TaskId(r, plan[r][i]) != TaskId(r, plan[r][k])
      {
        PlannedDistinct(plan, r, i, k);
      }
    case Abort(_) => TasksOwned(plan, r, s.runs[r].made);
    case StopWaiting(_) =>
      TasksOwned(plan, r, |plan[r]|);
      assert Tasks(plan, r)[..|plan[r]|] == Tasks(plan, r);
    case _ =>
  }

  /** Creating or cleaning up a task of one run touches no task of another. */
  lemma CreateApart(plan: Plan, s: System, q: RunId, r: RunId, id: string)
    requires GoodPlan(plan) && Inv(plan, s) && CanStep(plan, s, Create(q)) && Owns(plan, r, id) && q != r
    ensures id != TaskId(q, plan[q][s.runs[q].made])
  {
    assert q in plan.Keys;
    OwnsPlanned(plan, q, s.runs[q].made);
    if id == TaskId(q, plan[q][s.runs[q].made]) {
      OneOwner(plan, r, q, id);
    }
  }

  lemma CleanApart(plan: Plan, s: System, q: RunId, r: RunId, id: string)
    requires GoodPlan(plan) && Inv(plan, s) && CanStep(plan, s, CleanOne(q)) && Owns(plan, r, id) && q != r
    ensures id != s.runs[q].left[0]
  {
    assert q in plan.Keys && Holds(plan, s, q);
    if id == s.runs[q].left[0] {
      OneOwner(plan, r, q, id);
    }
  }

  /** What a step may do to the fabric, seen by a run that is not taking it. */
  lemma OthersUntouched(plan: Plan, s: System, t: Step, r: RunId, id: string)
    requires GoodPlan(plan) && Inv(plan, s) && CanStep(plan, s, t) && Owns(plan, r, id)
    requires r in s.runs && r in DoStep(plan, s, t).runs
    requires DoStep(plan, s, t).runs[r] == s.runs[r] && s.runs[r] != Over
    requires !(t.Create? && t.r == r) && !(t.CleanOne? && t.r == r)
    ensures id in DoStep(plan, s, t).fabric <==> id in s.fabric
  {
    match t
    case Create(q) => CreateApart(plan, s, q, r, id);
    case CleanOne(q) => CleanApart(plan, s, q, r, id);
    case _ =>
  }

  lemma StepHolds(plan: Plan, s: System, t: Step, r: RunId)
    requires GoodPlan(plan) && Inv(plan, s) && CanStep(plan, s, t) && r in plan
    ensures Holds(plan, DoStep(plan, s, t), r)
  {
    var s' := DoStep(plan, s, t);
    assert r in plan.Keys;
    if t == Mark(r) || t == Create(r) || t == Abort(r) || t == StartWaiting(r) || t == StopWaiting(r)
        || t == CleanOne(r) || t == Unmark(r) {
      RunStepHolds(plan, s, t, r);
    } else if s.runs[r] != Over {
      assert s'.runs[r] == s.runs[r];
      forall id | Owns(plan, r, id)
        ensures id in s'.fabric <==> id in s.fabric
      {
        OthersUntouched(plan, s, t, r, id);
      }
      HoldsFrame(plan, s, s', r);
    }
  }

  /** The scan of the active runs: if it ends, no owner of the task is active any more. */
  lemma ScanFindsOwner(plan: Plan, s: System)
    requires Inv(plan, s) && CanStep(plan, s, EndScan)
    ensures Orphaned(plan, s, s.sweep.id)
  {
    forall r {:trigger Owns(plan, r, s.sweep.id)} | Owns(plan, r, s.sweep.id)
      ensures r in s.runs && s.runs[r].Over?
    {
      var n :| n in plan[r] && s.sweep.id == TaskId(r, n);
      ProtectsOwn(r, n);
      assert r !in s.sweep.seen;
    }
  }

  lemma StepSweeps(plan: Plan, s: System, t: Step)
    requires Inv(plan, s) && CanStep(plan, s, t)
    ensures SweepInv(plan, DoStep(plan, s, t))
  {
    OwnersAdvance(plan, s, t);
    match t
    case List(ids) => assert forall id :: id in ids ==> id in Elements(ids);
    case EndScan => ScanFindsOwner(plan, s);
    case Mark(r) => MarkSweeps(plan, s, r);
    case _ =>
  }

  lemma MarkSweeps(plan: Plan, s: System, r: RunId)
    requires Inv(plan, s) && CanStep(plan, s, Mark(r))
    ensures SweepInv(plan, DoStep(plan, s, Mark(r)))
  {
    OwnersAdvance(plan, s, Mark(r));
  }

  lemma StepStarts(plan: Plan, s: System, t: Step)
    requires GoodPlan(plan) && Inv(plan, s) && CanStep(plan, s, t)
    ensures forall id :: id in DoStep(plan, s, t).fabric ==> Started(plan, DoStep(plan, s, t), id)
  {
    OwnersAdvance(plan, s, t);
    var s' := DoStep(plan, s, t);
    forall id | id in s'.fabric
      ensures Started(plan, s', id)
    {
      if id !in s.fabric {
        forall q {:trigger Owns(plan, q, id)} | Owns(plan, q, id)
          ensures q in s'.runs && !s'.runs[q].Unborn?
        {
          OwnsPlanned(plan, t.r, s.runs[t.r].made);
          OneOwner(plan, q, t.r, id);
        }
      }
    }
  }

  lemma StepActive(plan: Plan, s: System, t: Step)
    requires ActiveIsBusy(plan, s) && CanStep(plan, s, t)
    ensures ActiveIsBusy(plan, DoStep(plan, s, t))
  {
  }

  lemma StepKeepsInv(plan: Plan, s: System, t: Step)
    requires GoodPlan(plan) && Inv(plan, s) && CanStep(plan, s, t)
    ensures Inv(plan, DoStep(plan, s, t))
  {
    var s' := DoStep(plan, s, t);
    StepActive(plan, s, t);
    StepSweeps(plan, s, t);
    StepStarts(plan, s, t);
    forall r | r in plan
      ensures Holds(plan, s', r)
    {
      StepHolds(plan, s, t, r);
    }
  }

  lemma {:induction false} PlayKeepsInv(plan: Plan, s0: System, steps: seq<Step>, s: System)
    requires GoodPlan(plan) && Initial(plan, s0) && Play(plan, s0, steps) == Some(s)
    ensures Inv(plan, s)
    decreases |steps|
  {
    if steps == [] {
      forall id | id in s.fabric
        ensures Started(plan, s, id)
      {
      }
    } else {
      var before := Play(plan, s0, steps[..|steps| - 1]).value;
      PlayKeepsInv(plan, s0, steps[..|steps| - 1], before);
      StepKeepsInv(plan, before, steps[|steps| - 1]);
    }
  }

  // ---- what the janitor and the runs may rely on -------------------------------------------------

  /** In every interleaving, when a sweep deletes a task its owning run is over: never one
      that is active, nor one that has not started. */
  lemma SweepSparesLiveRuns(plan: Plan, steps: seq<Step>, s: System, r: RunId)
    requires GoodPlan(plan) && Reachable(plan, steps, s) && CanStep(plan, s, Delete)
    requires Owns(plan, r, s.sweep.id)
    ensures r in s.runs && s.runs[r].Over? && r !in s.active
  {
    var s0 :| Initial(plan, s0) && Play(plan, s0, steps) == Some(s);
    PlayKeepsInv(plan, s0, steps, s);
  }

  /** ... and it never deletes a task without the collaboration prefix, whoever's it is. */
  lemma SweepSparesForeignTasks(plan: Plan, steps: seq<Step>, s: System)
    requires GoodPlan(plan) && Reachable(plan, steps, s) && CanStep(plan, s, Delete)
    ensures |s.sweep.id| >= 7 && s.sweep.id[..7] == "collab-"
  {
    var s0 :| Initial(plan, s0) && Play(plan, s0, steps) == Some(s);
    PlayKeepsInv(plan, s0, steps, s);
  }

  /** Neither a sweep nor a cleanup removes a task in flight: only somebody else can. */
  lemma TasksInFlightStay(plan: Plan, s: System, t: Step, id: string)
    requires CanStep(plan, s, t) && id in s.fabric && s.fabric[id].InFlight? && t != RemoveForeign(id)
    ensures id in DoStep(plan, s, t).fabric
  {
  }

  /** A waiting run finds every one of its tasks, whatever sweeps and other runs do. */
  lemma WaitingReadsSucceed(plan: Plan, steps: seq<Step>, s: System, r: RunId, n: string)
    requires GoodPlan(plan) && Reachable(plan, steps, s)
    requires r in s.runs && s.runs[r].Waiting? && r in plan && n in plan[r]
    ensures TaskId(r, n) in s.fabric
  {
    var s0 :| Initial(plan, s0) && Play(plan, s0, steps) == Some(s);
    PlayKeepsInv(plan, s0, steps, s);
  }

  /** A run stays marked until its own cleanup is done, so the cleanup finds every task it
      still has to delete: no sweep got there first. */
  lemma CleanupFindsItsTasks(plan: Plan, steps: seq<Step>, s: System, r: RunId)
    requires GoodPlan(plan) && Reachable(plan, steps, s) && CanStep(plan, s, CleanOne(r))
    ensures s.runs[r].left[0] in s.fabric
  {
    var s0 :| Initial(plan, s0) && Play(plan, s0, steps) == Some(s);
    PlayKeepsInv(plan, s0, steps, s);
    assert r in plan.Keys && Holds(plan, s, r);
  }

  /** The fabric never refuses a run's task because the id is taken. */
  lemma CreateNeverCollides(plan: Plan, steps: seq<Step>, s: System, r: RunId)
    requires GoodPlan(plan) && Reachable(plan, steps, s) && CanStep(plan, s, Create(r))
    ensures TaskId(r, plan[r][s.runs[r].made]) !in s.fabric
  {
    var s0 :| Initial(plan, s0) && Play(plan, s0, steps) == Some(s);
    PlayKeepsInv(plan, s0, steps, s);
    assert Holds(plan, s, r);
  }
}
