/** How much a run can cost with everything nested in it: executions are counted at every depth,
    and the iteration caps bound their total before the run begins. */
module GraphBudget {
  import opened Basics
  import opened GraphModel
  import opened GraphRound
  import opened GraphRuns
  import opened GraphNesting

  // ---- counting executions at every depth ----------------------------------------------------

  /** `k` executions began with this step: the node's own, or those of the nested run it commits. */
  ghost predicate StepSpends(snap: Snapshot, c: Round, s: Step, k: nat)
    decreases snap, 0, 0
  {
    match s
    case Begin(_) => k == 1
    case Report(_) => k == 0
    case Commit(id, e) =>
      if id in c.copies && id in snap.nodes && snap.nodes[id].SubNode?
      then NestedSpends(snap.nodes[id].sub, OrDefault(snap.nodes[id].maxIterations), c.copies[id], e, k)
      else k == 0
  }

  ghost predicate LastStepSpends(snap: Snapshot, c: Round, steps: seq<Step>, k: nat)
    decreases snap, 0, 1
  {
    steps != [] && StepSpends(snap, c, steps[|steps| - 1], k)
  }

  ghost predicate NestedSpends(sub: Snapshot, maxIter: nat, copy: State, e: Effect, k: nat)
    decreases sub, 4, 0
  {
    exists cs, r, err ::
      NestedRun(false, sub, maxIter, copy, cs, r, err) && e == NestedEffect(r, err)
          && RunSpends(sub, maxIter, copy, cs, k)
  }

  ghost predicate RoundSpends(snap: Snapshot, start: Round, steps: seq<Step>, n: nat)
    decreases snap, 1, |steps|
  {
    if steps == [] then n == 0
    else
      match Play(snap, start, steps[..|steps| - 1])
      case None => false
      case Some(c) =>
        exists k: nat :: LastStepSpends(snap, c, steps, k) && k <= n
            && RoundSpends(snap, start, steps[..|steps| - 1], n - k)
  }

  ghost predicate TurnSpendsAll(snap: Snapshot, maxIter: nat, h: Head, c: Choice, k: nat)
    decreases snap, 2, 0
  {
    if c.cancelled || Launch(snap, maxIter, h, c) == [] then k == 0
    else RoundSpends(snap, StartRound(Cleared(snap, SettleSkips(snap, h.run)), Elements(Launch(snap, maxIter, h, c))),
        c.steps, k)
  }

  ghost predicate LastTurnSpends(snap: Snapshot, maxIter: nat, h: Head, cs: seq<Choice>, k: nat)
    decreases snap, 2, 1
  {
    cs != [] && TurnSpendsAll(snap, maxIter, h, cs[|cs| - 1], k)
  }

  /** The choices `cs` start `n` executions, at every depth together. */
  ghost predicate RunSpends(snap: Snapshot, maxIter: nat, state: State, cs: seq<Choice>, n: nat)
    decreases snap, 3, |cs|
  {
    if cs == [] then n == 0
    else
      match Exec(snap, maxIter, FreshRun(state), cs[..|cs| - 1])
      case Some(Again(h)) =>
        exists k: nat :: LastTurnSpends(snap, maxIter, h, cs, k) && k <= n
            && RunSpends(snap, maxIter, state, cs[..|cs| - 1], n - k)
      case _ => false
  }

  // ---- the budget ------------------------------------------------------------------------------

  /** The most that a run over `snap` can start: every node at its cap, nested graphs in full. */
  function Budget(snap: Snapshot, maxIter: nat): nat
    decreases snap, 3, 0
  {
    maxIter * CostOf(snap, snap.order)
  }

  function CostOf(snap: Snapshot, ids: seq<string>): nat
    decreases snap, 2, |ids|
  {
    if ids == [] then 0 else CostOf(snap, ids[..|ids| - 1]) + Cost(snap, ids[|ids| - 1])
  }

  /** One execution of a node, with all that a nested graph may start. */
  function Cost(snap: Snapshot, id: string): nat
    decreases snap, 1, 0
  {
    1 + Inner(snap, id)
  }

  function Inner(snap: Snapshot, id: string): nat
    decreases snap, 0, 0
  {
    if id in snap.nodes && snap.nodes[id].SubNode?
        then Budget(snap.nodes[id].sub, OrDefault(snap.nodes[id].maxIterations)) else 0
  }

  /** The cost of executing each of `launch` once. */
  function CostIn(snap: Snapshot, ids: seq<string>, launch: set<string>): nat {
    if ids == [] then 0
    else CostIn(snap, ids[..|ids| - 1], launch) + if ids[|ids| - 1] in launch then Cost(snap, ids[|ids| - 1]) else 0
  }

  // ---- one round ---------------------------------------------------------------------------------

  /** What a launched node can have spent by now: its own execution once begun, the nested one
      once committed. */
  function Part(snap: Snapshot, ready: set<string>, c: Round, id: string): nat {
    if id !in ready || id in c.waiting then 0 else if id in c.copies then 1 else Cost(snap, id)
  }

  function Tally(snap: Snapshot, ids: seq<string>, ready: set<string>, c: Round): nat {
    if ids == [] then 0 else Tally(snap, ids[..|ids| - 1], ready, c) + Part(snap, ready, c, ids[|ids| - 1])
  }

  /** A step of `id` changes the tally by what it changes of `id`'s part. */
  lemma {:induction false} TallyChanges(snap: Snapshot, ids: seq<string>, ready: set<string>, c: Round, c': Round,
                                        id: string)
    requires NoDup(ids) && forall j :: j != id ==> Part(snap, ready, c', j) == Part(snap, ready, c, j)
    ensures id in ids ==>
              Tally(snap, ids, ready, c') - Tally(snap, ids, ready, c) ==
                  Part(snap, ready, c', id) - Part(snap, ready, c, id)
    ensures id !in ids ==> Tally(snap, ids, ready, c') == Tally(snap, ids, ready, c)
    decreases |ids|
  {
    if ids != [] {
      var front, last := ids[..|ids| - 1], ids[|ids| - 1];
      assert ids == front + [last];
      TallyChanges(snap, front, ready, c, c', id);
      assert last !in front;
    }
  }

  lemma {:induction false} TallyWithin(snap: Snapshot, ids: seq<string>, ready: set<string>, c: Round)
    ensures Tally(snap, ids, ready, c) <= CostIn(snap, ids, ready)
    decreases |ids|
  {
    if ids != [] {
      TallyWithin(snap, ids[..|ids| - 1], ready, c);
    }
  }

  lemma {:induction false} RoundWithin(snap: Snapshot, r: Run, ready: set<string>, steps: seq<Step>, c: Round, n: nat)
    requires WellBuilt(snap) && ready <= snap.nodes.Keys
    requires Play(snap, StartRound(r, ready), steps) == Some(c) && RoundSpends(snap, StartRound(r, ready), steps, n)
    ensures n <= Tally(snap, snap.order, ready, c)
    decreases snap, 1, |steps|
  {
    if steps != [] {
      var front, s := steps[..|steps| - 1], steps[|steps| - 1];
      var before := Play(snap, StartRound(r, ready), front).value;
      var k: nat :| LastStepSpends(snap, before, steps, k) && k <= n
          && RoundSpends(snap, StartRound(r, ready), front, n - k);
      RoundWithin(snap, r, ready, front, before, n - k);
      RoundKeepsInv(snap, r, ready, front, before);
      StepWithin(snap, ready, before, s, k);
      assert s.id in Elements(snap.order);
      TallyChanges(snap, snap.order, ready, before, c, s.id);
    }
  }

  /** A nested run spends no more than its own budget. */
  lemma {:induction false} NestedWithin(sub: Snapshot, maxIter: nat, copy: State, e: Effect, k: nat)
    requires WellBuilt(sub) && NestedSpends(sub, maxIter, copy, e, k)
    ensures k <= Budget(sub, maxIter)
    decreases sub, 5, 0
  {
    var cs, r, err :|
      NestedRun(false, sub, maxIter, copy, cs, r, err) && e == NestedEffect(r, err)
          && RunSpends(sub, maxIter, copy, cs, k);
    RunWithinBudget(sub, maxIter, copy, cs, k);
  }

  lemma {:induction false} CommitWithin(snap: Snapshot, c: Round, id: string, e: Effect, k: nat)
    requires WellBuilt(snap) && id in snap.nodes && id in c.copies && StepSpends(snap, c, Commit(id, e), k)
    ensures k + 1 <= Cost(snap, id)
    decreases snap, 0, 0
  {
    if snap.nodes[id].SubNode? {
      var sub, bound := snap.nodes[id].sub, OrDefault(snap.nodes[id].maxIterations);
      NestedWithin(sub, bound, c.copies[id], e, k);
      assert Inner(snap, id) == Budget(sub, bound);
    }
  }

  /** A step spends no more than it adds to its node's part. */
  lemma {:induction false} StepWithin(snap: Snapshot, ready: set<string>, c: Round, s: Step, k: nat)
    requires WellBuilt(snap) && ready <= snap.nodes.Keys
    requires Accounted(ready, c) && CanStep(snap, c, s) && StepSpends(snap, c, s, k)
    ensures s.id in snap.nodes
    ensures k + Part(snap, ready, c, s.id) <= Part(snap, ready, DoStep(snap, c, s), s.id)
    ensures forall j :: j != s.id ==> Part(snap, ready, DoStep(snap, c, s), j) == Part(snap, ready, c, j)
    decreases snap, 0, 1
  {
    if s.Commit? {
      CommitWithin(snap, c, s.id, s.effect, k);
    }
  }

  // ---- one run -----------------------------------------------------------------------------------

  /** What the remaining executions may still cost. */
  function Left(snap: Snapshot, ids: seq<string>, r: Run, maxIter: nat): int {
    if ids == [] then 0
    else Left(snap, ids[..|ids| - 1], r, maxIter) + (maxIter - IterOf(r, ids[|ids| - 1])) * Cost(snap, ids[|ids| - 1])
  }

  lemma {:induction false} LeftDrops(snap: Snapshot, ids: seq<string>, r: Run, r': Run, maxIter: nat,
                                     launch: set<string>)
    requires forall id :: IterOf(r', id) == IterOf(r, id) + if id in launch then 1 else 0
    ensures Left(snap, ids, r', maxIter) + CostIn(snap, ids, launch) == Left(snap, ids, r, maxIter)
    decreases |ids|
  {
    if ids != [] {
      var last := ids[|ids| - 1];
      LeftDrops(snap, ids[..|ids| - 1], r, r', maxIter, launch);
      OneLess(maxIter - IterOf(r, last), Cost(snap, last));
    }
  }

  lemma OneLess(a: int, b: int)
    ensures (a - 1) * b == a * b - b
  {
  }

  lemma {:induction false} LeftBounds(snap: Snapshot, ids: seq<string>, r: Run, maxIter: nat)
    requires forall id :: IterOf(r, id) <= maxIter
    ensures 0 <= Left(snap, ids, r, maxIter)
    decreases |ids|
  {
    if ids != [] {
      LeftBounds(snap, ids[..|ids| - 1], r, maxIter);
    }
  }

  lemma {:induction false} LeftFresh(snap: Snapshot, ids: seq<string>, state: State, maxIter: nat)
    ensures Left(snap, ids, FreshRun(state), maxIter) == maxIter * CostOf(snap, ids)
    decreases |ids|
  {
    if ids != [] {
      LeftFresh(snap, ids[..|ids| - 1], state, maxIter);
    }
  }

  lemma {:induction false} TurnWithin(snap: Snapshot, maxIter: nat, h: Head, c: Choice, k: nat)
    requires WellBuilt(snap) && Turn(snap, maxIter, h, c).Some? && TurnSpendsAll(snap, maxIter, h, c, k)
    ensures c.cancelled ==> k == 0
    ensures k <= CostIn(snap, snap.order, Elements(Launch(snap, maxIter, h, c)))
    decreases snap, 2, 0
  {
    var launch := Launch(snap, maxIter, h, c);
    if !c.cancelled && launch != [] {
      LaunchRule(snap, maxIter, h, c);
      var r := Cleared(snap, SettleSkips(snap, h.run));
      var end := Play(snap, StartRound(r, Elements(launch)), c.steps).value;
      RoundWithin(snap, r, Elements(launch), c.steps, end, k);
      TallyWithin(snap, snap.order, Elements(launch), end);
    }
  }

  /** The last choice's share of the count. */
  lemma LastShare(snap: Snapshot, maxIter: nat, state: State, cs: seq<Choice>, h: Head, n: nat) returns (k: nat)
    requires cs != [] && Reaches(snap, maxIter, state, cs[..|cs| - 1], h) && RunSpends(snap, maxIter, state, cs, n)
    ensures k <= n && TurnSpendsAll(snap, maxIter, h, cs[|cs| - 1], k)
    ensures RunSpends(snap, maxIter, state, cs[..|cs| - 1], n - k)
  {
    var front := cs[..|cs| - 1];
    k :| LastTurnSpends(snap, maxIter, h, cs, k) && k <= n && RunSpends(snap, maxIter, state, front, n - k);
  }

  /** A turn that continues pays for its launches out of what is left. */
  lemma {:induction false} TurnPays(snap: Snapshot, maxIter: nat, h: Head, c: Choice, h': Head, k: nat)
    requires WellBuilt(snap) && Turn(snap, maxIter, h, c) == Some(Again(h')) && TurnSpendsAll(snap, maxIter, h, c, k)
    ensures k + Left(snap, snap.order, h'.run, maxIter) <= Left(snap, snap.order, h.run, maxIter)
    decreases snap, 2, 1
  {
    TurnWithin(snap, maxIter, h, c, k);
    TurnCounts(snap, maxIter, h, c, h');
    LeftDrops(snap, snap.order, h.run, h'.run, maxIter, Elements(Launch(snap, maxIter, h, c)));
  }

  /** A turn that returns can pay, too. */
  lemma {:induction false} LastTurnPays(snap: Snapshot, maxIter: nat, h: Head, c: Choice, k: nat)
    requires WellBuilt(snap) && RunInv(snap, maxIter, h.run)
    requires Turn(snap, maxIter, h, c).Some? && TurnSpendsAll(snap, maxIter, h, c, k)
    ensures k <= Left(snap, snap.order, h.run, maxIter)
    decreases snap, 2, 1
  {
    TurnWithin(snap, maxIter, h, c, k);
    LaunchAffordable(snap, maxIter, h, c);
  }

  lemma LaunchAffordable(snap: Snapshot, maxIter: nat, h: Head, c: Choice)
    requires WellBuilt(snap) && RunInv(snap, maxIter, h.run)
    ensures CostIn(snap, snap.order, Elements(Launch(snap, maxIter, h, c))) <= Left(snap, snap.order, h.run, maxIter)
  {
    var launch := Launch(snap, maxIter, h, c);
    LaunchRule(snap, maxIter, h, c);
    assert forall id :: id in Elements(launch) <==> id in launch;
    var counted := CountAll(h.run, Elements(launch));
    LeftDrops(snap, snap.order, h.run, counted, maxIter, Elements(launch));
    LeftBounds(snap, snap.order, counted, maxIter);
  }

  lemma {:induction false} ReachWithin(snap: Snapshot, maxIter: nat, state: State, cs: seq<Choice>, h: Head, n: nat)
    requires WellBuilt(snap) && Reaches(snap, maxIter, state, cs, h) && RunSpends(snap, maxIter, state, cs, n)
    ensures n + Left(snap, snap.order, h.run, maxIter) <= Budget(snap, maxIter)
    decreases snap, 3, |cs|
  {
    if cs == [] {
      LeftFresh(snap, snap.order, state, maxIter);
    } else {
      var front, before, c, m, k := LastSplit(snap, maxIter, state, cs, n);
      ReachWithin(snap, maxIter, state, front, before, m);
      TurnPays(snap, maxIter, before, c, h, k);
    }
  }

  lemma {:induction false} OneMoreTurnWithin(snap: Snapshot, maxIter: nat, state: State, front: seq<Choice>, h: Head,
                                             c: Choice, m: nat, k: nat)
    requires WellBuilt(snap) && Reaches(snap, maxIter, state, front, h) && RunSpends(snap, maxIter, state, front, m)
    requires Turn(snap, maxIter, h, c).Some? && TurnSpendsAll(snap, maxIter, h, c, k)
    ensures m + k <= Budget(snap, maxIter)
    decreases snap, 3, |front| + 1
  {
    ReachableInv(snap, maxIter, state, front, h);
    ReachWithin(snap, maxIter, state, front, h, m);
    LastTurnPays(snap, maxIter, h, c, k);
  }

  /** A run that took a turn, and the count, split at the last one. */
  lemma LastSplit(snap: Snapshot, maxIter: nat, state: State, cs: seq<Choice>, n: nat)
    returns (front: seq<Choice>, h: Head, c: Choice, m: nat, k: nat)
    requires cs != []
    requires Exec(snap, maxIter, FreshRun(state), cs).Some? && RunSpends(snap, maxIter, state, cs, n)
    ensures Reaches(snap, maxIter, state, front, h)
    ensures Turn(snap, maxIter, h, c) == Exec(snap, maxIter, FreshRun(state), cs)
    ensures RunSpends(snap, maxIter, state, front, m) && TurnSpendsAll(snap, maxIter, h, c, k) && n == m + k
    ensures |front| < |cs|
  {
    front, c := cs[..|cs| - 1], cs[|cs| - 1];
    h := Exec(snap, maxIter, FreshRun(state), front).value.head;
    k := LastShare(snap, maxIter, state, cs, h, n);
    m := n - k;
  }

  /** However deep graphs are nested, and whatever routers, schedules and nodes do, the node
      executions of a run and of all runs nested in it are at most the budget fixed by the
      graph's shape and caps. */
  lemma {:induction false} RunWithinBudget(snap: Snapshot, maxIter: nat, state: State, cs: seq<Choice>, n: nat)
    requires WellBuilt(snap) && Exec(snap, maxIter, FreshRun(state), cs).Some? && RunSpends(snap, maxIter, state, cs, n)
    ensures n <= Budget(snap, maxIter)
    decreases snap, 4, 0
  {
    if cs == [] {
      assert n == 0;
    } else {
      var front, h, c, m, k := LastSplit(snap, maxIter, state, cs, n);
      OneMoreTurnWithin(snap, maxIter, state, front, h, c, m, k);
    }
  }

  // ---- every genuine run has a count -----------------------------------------------------------------

  lemma SharesAdd(snap: Snapshot, maxIter: nat, state: State, cs: seq<Choice>, h: Head, m: nat, k: nat)
    requires cs != [] && Reaches(snap, maxIter, state, cs[..|cs| - 1], h)
    requires RunSpends(snap, maxIter, state, cs[..|cs| - 1], m) && TurnSpendsAll(snap, maxIter, h, cs[|cs| - 1], k)
    ensures RunSpends(snap, maxIter, state, cs, m + k)
  {
    assert LastTurnSpends(snap, maxIter, h, cs, k) && (m + k) - k == m;
  }

  lemma {:induction false} GenuineRoundSpends(snap: Snapshot, start: Round, steps: seq<Step>) returns (n: nat)
    requires GenuineRound(false, snap, start, steps) && Play(snap, start, steps).Some?
    ensures RoundSpends(snap, start, steps, n)
    decreases snap, 1, |steps|
  {
    n := 0;
    if steps != [] {
      var front, s := steps[..|steps| - 1], steps[|steps| - 1];
      var c := Play(snap, start, front).value;
      var m := GenuineRoundSpends(snap, start, front);
      var k := GenuineStepSpends(snap, c, s);
      n := m + k;
      assert n - k == m && LastStepSpends(snap, c, steps, k);
    }
  }

  lemma {:induction false} GenuineStepSpends(snap: Snapshot, c: Round, s: Step) returns (k: nat)
    requires GenuineStep(false, snap, c, s) && CanStep(snap, c, s)
    ensures StepSpends(snap, c, s, k)
    decreases snap, 0, 0
  {
    k := if s.Begin? then 1 else 0;
    if s.Commit? && s.id in snap.nodes && snap.nodes[s.id].SubNode? {
      var sub, bound := snap.nodes[s.id].sub, OrDefault(snap.nodes[s.id].maxIterations);
      assert NestedOutcome(false, sub, bound, c.copies[s.id], s.effect);
      var cs, r, err :| NestedRun(false, sub, bound, c.copies[s.id], cs, r, err) && s.effect == NestedEffect(r, err);
      k := GenuineSpends(sub, bound, c.copies[s.id], cs);
    }
  }

  /** Every genuine run has a count, so the budget bounds something. */
  lemma {:induction false} GenuineSpends(snap: Snapshot, maxIter: nat, state: State, cs: seq<Choice>) returns (n: nat)
    requires Genuine(false, snap, maxIter, state, cs) && Exec(snap, maxIter, FreshRun(state), cs).Some?
    ensures RunSpends(snap, maxIter, state, cs, n)
    decreases snap, 3, |cs|
  {
    n := 0;
    if cs != [] {
      var front, c := cs[..|cs| - 1], cs[|cs| - 1];
      var h := Exec(snap, maxIter, FreshRun(state), front).value.head;
      var m := GenuineSpends(snap, maxIter, state, front);
      var k := GenuineTurnSpends(snap, maxIter, h, c);
      n := m + k;
      SharesAdd(snap, maxIter, state, cs, h, m, k);
    }
  }

  lemma {:induction false} GenuineTurnSpends(snap: Snapshot, maxIter: nat, h: Head, c: Choice) returns (k: nat)
    requires GenuineChoice(false, snap, maxIter, h, c) && Turn(snap, maxIter, h, c).Some?
    ensures TurnSpendsAll(snap, maxIter, h, c, k)
    decreases snap, 2, 0
  {
    k := 0;
    if !c.cancelled && Launch(snap, maxIter, h, c) != [] {
      k := GenuineRoundSpends(snap,
          StartRound(Cleared(snap, SettleSkips(snap, h.run)), Elements(Launch(snap, maxIter, h, c))), c.steps);
    }
  }

  /** Both together: whatever the engine does has a total, and the budget covers it. */
  lemma EveryRunIsPaidFor(snap: Snapshot, maxIter: nat, state: State, cs: seq<Choice>) returns (n: nat)
    requires WellBuilt(snap) && Genuine(false, snap, maxIter, state, cs)
    requires Exec(snap, maxIter, FreshRun(state), cs).Some?
    ensures RunSpends(snap, maxIter, state, cs, n) && n <= Budget(snap, maxIter)
  {
    n := GenuineSpends(snap, maxIter, state, cs);
    RunWithinBudget(snap, maxIter, state, cs, n);
  }
}
