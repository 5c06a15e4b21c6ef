/** The documentation promises that a failing node ends its branch but cancels no sibling branch.
    The code ends the run after the round. Here is exactly which graphs never notice as long as
    there is no router; GraphRoutedFailures says which ones never notice with any router. */
module GraphFailures {
  import opened Basics
  import opened Digraph
  import opened GraphModel
  import opened GraphRound
  import opened GraphRuns
  import opened GraphSkips
  import opened GraphTiming

  /** Launched, but not completed; a router may have launched a node that was done before. */
  predicate Stopped(r: Run, id: string) {
    IterOf(r, id) > 0 && (id !in r.done || id in r.failed)
  }

  ghost predicate WaitsForStopped(snap: Snapshot, r: Run, id: string) {
    exists f :: Stopped(r, f) && DependsOn(snap.ins, id, f)
  }

  /** The documented promise for a failing run: whatever it leaves pending depends on a node that
      did not complete. */
  ghost predicate Confined(snap: Snapshot, r: Run) {
    forall id :: Pending(snap, r, id) ==> WaitsForStopped(snap, r, id)
  }

  /** The nodes a run can get to: those behind no unknown id and no cycle. */
  ghost function Free(snap: Snapshot): set<string> {
    set u | u in snap.nodes && !Stuck(snap, u)
  }

  /** In a closed acyclic graph every node is free. */
  lemma AllFree(snap: Snapshot)
    requires WellBuilt(snap) && Closed(snap) && Acyclic(snap.ins)
    ensures Free(snap) == snap.nodes.Keys
  {
    forall u | u in snap.nodes
      ensures u in Free(snap)
    {
      NeverStuck(snap, u);
    }
  }

  /** A schedule of the graph: of the nodes it can get to those in `skips` are skipped and the
      others run, each in the first turn its sources allow. */
  ghost predicate Timetable(snap: Snapshot, skips: set<string>, lev: Levels) {
    && lev.Keys == Free(snap) && skips <= lev.Keys && SkipSet(snap, skips)
    && forall u :: u in lev ==> OnTime(snap, skips, lev, u)
  }

  /** `w` comes after turn `t`, or never. */
  ghost predicate After(lev: Levels, w: string, t: nat) {
    w in lev ==> lev[w] > t
  }

  /** Whatever comes after a node that runs depends on it. */
  ghost predicate InStep(snap: Snapshot, skips: set<string>, lev: Levels) {
    forall v, w :: v in lev && v !in skips && w in snap.nodes && After(lev, w, lev[v]) ==> DependsOn(snap.ins, w, v)
  }

  /** Checkable before the run: so it is in every schedule of the shape. */
  ghost predicate ConfinedShape(shape: Snapshot) {
    forall skips, lev :: Timetable(shape, skips, lev) ==> InStep(shape, skips, lev)
  }

  lemma SameShapeTable(a: Snapshot, b: Snapshot, skips: set<string>, lev: Levels)
    requires SameShape(a, b)
    ensures Timetable(a, skips, lev) <==> Timetable(b, skips, lev)
    ensures InStep(a, skips, lev) <==> InStep(b, skips, lev)
  {
    assert forall u :: Ins(a, u) == Ins(b, u);
    assert forall u :: u in a.nodes <==> u in a.nodes.Keys;
    assert forall u :: u in b.nodes <==> u in b.nodes.Keys;
    assert forall u :: Stuck(a, u) <==> Stuck(b, u);
    assert Free(a) == Free(b);
    assert forall u :: Guarded(a, u) <==> Guarded(b, u);
    assert forall u :: u in lev ==> (OnTime(a, skips, lev, u) <==> OnTime(b, skips, lev, u)) by {
      assert forall u, t :: Pushed(a, skips, lev, u, t) <==> Pushed(b, skips, lev, u, t);
    }
  }

  // ---- completing a schedule ---------------------------------------------------------------------

  function LastAvail(skips: set<string>, lev: Levels, ids: seq<string>): (t: nat)
    requires forall p :: p in ids ==> p in lev
    ensures forall p :: p in ids ==> Avail(skips, lev, p) <= t
    ensures t == 0 || exists p :: p in ids && p in lev && Avail(skips, lev, p) == t
  {
    if ids == [] then 0
    else
      var front, last := ids[..|ids| - 1], ids[|ids| - 1];
      assert ids == front + [last];
      var rest := LastAvail(skips, lev, front);
      if Avail(skips, lev, last) > rest then Avail(skips, lev, last) else rest
  }

  /** Some source that is not skipped comes no earlier than turn `t`, if it has a level at all;
      before the first turn nothing is asked. */
  ghost predicate Late(snap: Snapshot, skips: set<string>, lev: Levels, u: string, t: int) {
    t < 0 || exists p :: p in Ins(snap, u) && p !in skips && (p in lev ==> lev[p] >= t)
  }

  /** The beginning of a schedule of the nodes `free`. */
  ghost predicate Begun(snap: Snapshot, free: set<string>, skips: set<string>, lev: Levels, t: int) {
    && lev.Keys <= free && skips <= lev.Keys && SkipSet(snap, skips)
    && (forall u :: u in lev ==> OnTime(snap, skips, lev, u))
    && (forall u :: u in free && u !in lev ==> Late(snap, skips, lev, u, t))
  }

  ghost predicate PartialTable(snap: Snapshot, skips: set<string>, lev: Levels, t: int) {
    Begun(snap, Free(snap), skips, lev, t)
  }

  /** Settling `u` as soon as its sources allow keeps everyone on time. */
  lemma AllOnTime(snap: Snapshot, skips: set<string>, lev: Levels, u: string, lev': Levels)
    requires u !in lev && (forall p :: p in Ins(snap, u) ==> p in lev)
    requires lev' == lev[u := LastAvail(skips, lev, Ins(snap, u))]
    requires forall v :: v in lev ==> OnTime(snap, skips, lev, v)
    ensures forall v :: v in lev' ==> OnTime(snap, skips, lev', v)
  {
    SettledNow(snap, skips, skips, lev, lev', u, lev'[u]);
    forall v | v in lev
      ensures OnTime(snap, skips, lev', v)
    {
      StaysOnTime(snap, skips, skips, lev, lev', v);
    }
  }

  lemma AddLevel(snap: Snapshot, free: set<string>, skips: set<string>, lev: Levels, t: int, u: string)
    returns (lev': Levels)
    requires Begun(snap, free, skips, lev, t) && u in free && u !in lev
    requires forall p :: p in Ins(snap, u) ==> p in lev
    ensures lev'.Keys == lev.Keys + {u} && lev'[u] > t && forall v :: v in lev ==> lev'[v] == lev[v]
    ensures Begun(snap, free, skips, lev', t)
  {
    lev' := lev[u := LastAvail(skips, lev, Ins(snap, u))];
    assert Late(snap, skips, lev, u, t);
    if t >= 0 {
      var late :| late in Ins(snap, u) && late !in skips && lev[late] >= t;
      assert Avail(skips, lev, late) > t;
    }
    AllOnTime(snap, skips, lev, u, lev');
    forall v | v in free && v !in lev'
      ensures Late(snap, skips, lev', v, t)
    {
      StaysLate(snap, skips, lev, lev', u, v, t);
    }
  }

  lemma StaysLate(snap: Snapshot, skips: set<string>, lev: Levels, lev': Levels, u: string, v: string, t: int)
    requires Late(snap, skips, lev, v, t) && lev'.Keys == lev.Keys + {u} && lev'[u] >= t
    requires forall p :: p in lev ==> lev'[p] == lev[p] || p == u
    ensures Late(snap, skips, lev', v, t)
  {
    if t >= 0 {
      var p :| p in Ins(snap, v) && p !in skips && (p in lev ==> lev[p] >= t);
      assert p in lev' ==> lev'[p] >= t;
    }
  }

  /** Some node of every set of free nodes has no source in the set. */
  lemma FreeHasSource(snap: Snapshot, s: set<string>)
    requires s <= Free(snap) && s != {}
    ensures exists v :: v in s && !FedFrom(snap.ins, v, s)
  {
    if SelfFeeding(snap.ins, s) {
      var v :| v in s;
      SelfFeedingTouchesCycle(snap.ins, s, v);
      assert Stuck(snap, v);
    }
  }

  /** A node behind one that is stuck is stuck, and so is a node with an unknown source; no other is. */
  lemma StuckThrough(snap: Snapshot, u: string)
    requires u in snap.nodes
    ensures Stuck(snap, u) <==> exists p :: p in Ins(snap, u) && (p !in snap.nodes || Stuck(snap, p))
  {
    if p :| p in Ins(snap, u) && (p !in snap.nodes || Stuck(snap, p)) {
      UnknownThrough(snap, u, p);
      if TouchesCycle(snap.ins, p) {
        TouchesThrough(snap.ins, u, p);
      }
    }
    if ReachesUnknown(snap, u) {
      var x :| x !in snap.nodes && DependsOn(snap.ins, u, x);
      var w :| WalksTo(snap.ins, w, u, x);
      StepBack(snap.ins, w);
      assert WalksTo(snap.ins, w[1..], w[1], x);
      assert ReachesUnknown(snap, w[1]);
    } else if TouchesCycle(snap.ins, u) {
      var p := BeforeCycle(snap.ins, u);
      assert Stuck(snap, p);
    }
  }

  /** In a graph any schedule that has begun goes on: some free node has levels for all its sources. */
  lemma NextNode(snap: Snapshot, lev: Levels) returns (u: string)
    requires lev.Keys < Free(snap)
    ensures u in Free(snap) && u !in lev && forall p :: p in Ins(snap, u) ==> p in lev
  {
    var rest := Free(snap) - lev.Keys;
    assert Free(snap) == lev.Keys + rest;
    FreeHasSource(snap, rest);
    u :| u in rest && !FedFrom(snap.ins, u, rest);
    StuckThrough(snap, u);
    forall p | p in Ins(snap, u)
      ensures p in lev
    {
      assert p in Free(snap);
    }
  }

  /** A schedule that has begun can be completed; what is added comes later. */
  lemma {:induction false} CompleteTable(snap: Snapshot, skips: set<string>, lev: Levels, t: int) returns (full: Levels)
    requires PartialTable(snap, skips, lev, t)
    ensures Timetable(snap, skips, full)
    ensures forall u :: u in lev ==> full[u] == lev[u]
    ensures forall u :: u in full && u !in lev ==> full[u] > t
    decreases Free(snap) - lev.Keys
  {
    if lev.Keys == Free(snap) {
      full := lev;
    } else {
      var u := NextNode(snap, lev);
      var next := AddLevel(snap, Free(snap), skips, lev, t, u);
      full := CompleteTable(snap, skips, next, t);
      forall v | v in lev
        ensures full[v] == lev[v]
      {
        assert v in next;
      }
    }
  }

  /** Every graph has depths: the schedule in which nothing is skipped. */
  lemma Depth(snap: Snapshot) returns (depth: Levels)
    ensures Timetable(snap, {}, depth)
  {
    depth := CompleteTable(snap, {}, map[], -1);
  }

  // ---- from a failing run to a schedule --------------------------------------------------------------

  /** Everything that was launched counted as settled. */
  ghost function Everyone(snap: Snapshot, maxIter: nat, r: Run): Run {
    var r1 := SettleSkips(snap, r);
    r1.(done := r1.done + Elements(ReadySet(snap, r1, maxIter)))
  }

  lemma EveryoneTimed(snap: Snapshot, maxIter: nat, r: Run, lev: Levels, t: nat) returns (lev': Levels)
    requires WellBuilt(snap) && RunInv(snap, maxIter, r) && maxIter >= 1 && Timed(snap, r, lev, t)
    requires Waiting(snap, r, lev, t)
    ensures var r2 := Everyone(snap, maxIter, r);
            Timed(snap, r2, lev', t + 1) && Waiting(snap, r2, lev', t + 1) && lev'.Keys <= snap.nodes.Keys
    ensures forall u :: u in ReadySet(snap, SettleSkips(snap, r), maxIter) ==>
              u in lev' && lev'[u] == t && u !in SettleSkips(snap, r).skipped
  {
    var launch := Elements(ReadySet(snap, SettleSkips(snap, r), maxIter));
    lev' := Marked(AfterSkips(snap, r, lev, t), launch, t);
    LaunchedFresh(snap, maxIter, r, lev, t);
    RoundTimed(snap, maxIter, r, lev, t, launch, Everyone(snap, maxIter, r));
    RoundWaiting(snap, maxIter, r, lev, t, Everyone(snap, maxIter, r));
  }

  /** The levels when a round fails: all that was launched counts as settled in this turn. */
  lemma RoundTable(snap: Snapshot, maxIter: nat, r: Run, lev: Levels, t: nat) returns (lev': Levels)
    requires WellBuilt(snap) && RunInv(snap, maxIter, r) && maxIter >= 1 && Timed(snap, r, lev, t)
    requires Waiting(snap, r, lev, t)
    ensures PartialTable(snap, SettleSkips(snap, r).skipped, lev', t)
    ensures lev'.Keys == r.done + SettleSkips(snap, r).skipped + Elements(ReadySet(snap, SettleSkips(snap, r), maxIter))
    ensures forall u :: u in ReadySet(snap, SettleSkips(snap, r), maxIter) ==>
              lev'[u] == t && u !in SettleSkips(snap, r).skipped
  {
    lev' := EveryoneTimed(snap, maxIter, r, lev, t);
    HeldIsLate(snap, Everyone(snap, maxIter, r), lev', t);
    TimedIsFree(snap, Everyone(snap, maxIter, r), lev', t + 1);
  }

  lemma TimedIsFree(snap: Snapshot, r: Run, lev: Levels, t: nat)
    requires Timed(snap, r, lev, t) && lev.Keys <= snap.nodes.Keys
    ensures lev.Keys <= Free(snap)
  {
    forall u | u in lev
      ensures u in Free(snap)
    {
      SettledIsNotStuck(snap, r, lev, t, u);
    }
  }

  lemma LaunchedFresh(snap: Snapshot, maxIter: nat, r: Run, lev: Levels, t: nat)
    requires WellBuilt(snap) && RunInv(snap, maxIter, r) && Timed(snap, r, lev, t) && Waiting(snap, r, lev, t)
    ensures Elements(ReadySet(snap, SettleSkips(snap, r), maxIter)) <= snap.nodes.Keys
    ensures SettleSkips(snap, r).skipped <= snap.nodes.Keys
    ensures SettleSkips(snap, r).skipped !! Elements(ReadySet(snap, SettleSkips(snap, r), maxIter))
  {
    forall u | u in ReadySet(snap, SettleSkips(snap, r), maxIter)
      ensures u in snap.nodes && u !in SettleSkips(snap, r).skipped
    {
      LaunchedNow(snap, maxIter, r, lev, t, u);
    }
    forall u | u in ToSkip(snap, r)
      ensures u in snap.nodes
    {
      assert u in Elements(snap.order);
    }
  }

  lemma HeldIsLate(snap: Snapshot, r: Run, lev: Levels, t: nat)
    requires Timed(snap, r, lev, t + 1) && Waiting(snap, r, lev, t + 1)
    ensures forall u :: u in snap.nodes && u !in lev ==> Late(snap, r.skipped, lev, u, t)
  {
    forall u | u in snap.nodes && u !in lev
      ensures Late(snap, r.skipped, lev, u, t)
    {
      assert Held(snap, r.skipped, lev, u, t + 1);
      var p :| p in Ins(snap, u) && (p in lev ==> Avail(r.skipped, lev, p) == t + 1);
      assert p in r.skipped ==> p in lev;
    }
  }

  /** What a round with a failure leaves behind, for nodes that had not run before. */
  lemma FailingRound(snap: Snapshot, start: Run, launch: set<string>, steps: seq<Step>, end: Round, id: string)
    requires Completes(snap, start, launch, steps, end) && end.firstErr == Some(id)
    requires start.failed == {} && launch !! start.done && forall u :: IterOf(start, u) == 0 <==> u !in start.done
    ensures var r := EvaluateAll(snap, end.run, end.completions);
            && r.skipped == start.skipped && start.done <= r.done <= start.done + launch && id in launch
                  && id !in r.done
            && forall u :: Stopped(r, u) <==> u in launch && u !in r.done
  {
    var r := EvaluateAll(snap, end.run, end.completions);
    RoundResult(snap, start, launch, steps, end);
    FoldOutgoingExact(snap, end.run, end.completions);
    assert r == end.run.(dead := r.dead, lastDone := r.lastDone);
    assert r.failed == end.run.failed - start.failed;
    forall u
      ensures Stopped(r, u) <==> u in launch && u !in r.done
    {
      assert IterOf(r, u) == IterOf(end.run, u);
    }
  }

  /** The settled sets when a run returns a node's failure. */
  lemma FailingTurnSettles(snap: Snapshot, maxIter: nat, h: Head, c: Choice, r: Run, id: string)
    requires WellBuilt(snap) && RunInv(snap, maxIter, h.run) && snap.router.None?
    requires Turn(snap, maxIter, h, c) == Some(Return(r, Some(NodeFailed(id))))
    ensures var launch := ReadySet(snap, SettleSkips(snap, h.run), maxIter);
            && r.skipped == SettleSkips(snap, h.run).skipped && h.run.done <= r.done <= h.run.done + Elements(launch)
            && id in launch && id !in r.done
            && forall u :: Stopped(r, u) <==> u in launch && u !in r.done
  {
    var start, launch := SettleSkips(snap, h.run), Launch(snap, maxIter, h, c);
    UnroutedTurn(snap, maxIter, h, c);
    var end := Play(snap, StartRound(start, Elements(launch)), c.steps).value;
    assert forall u :: u in launch <==> u in Elements(launch);
    assert forall u :: u in launch ==> Runnable(snap, start, maxIter, u);
    assert forall u :: IterOf(start, u) == IterOf(h.run, u);
    FailingRound(snap, start, Elements(launch), c.steps, end, id);
  }

  /** A failing run begins a schedule: what it leaves pending comes after the failing round. */
  lemma FailingRunTable(snap: Snapshot, maxIter: nat, state: State, cs: seq<Choice>, r: Run, id: string)
    returns (lev: Levels)
    requires WellBuilt(snap) && snap.router.None? && maxIter >= 1
    requires Returns(snap, maxIter, state, cs, r, Some(NodeFailed(id)))
    ensures Timetable(snap, r.skipped, lev) && Stopped(r, id)
    ensures id in lev && id !in r.skipped
    ensures forall u :: Pending(snap, r, u) && !Stopped(r, u) ==> After(lev, u, lev[id])
  {
    var front, c := cs[..|cs| - 1], cs[|cs| - 1];
    var h := LastHead(snap, maxIter, state, cs, r, Some(NodeFailed(id)));
    var begun := ReachTimed(snap, maxIter, state, front, h);
    FailsFromBusyHead(snap, maxIter, state, cs, r, id, h);
    FailingTurnSettles(snap, maxIter, h, c, r, id);
    lev := FailingTable(snap, maxIter, h.run, begun, |front|, r, id);
  }

  lemma FailingTable(snap: Snapshot, maxIter: nat, before: Run, begun: Levels, t: nat, r: Run, id: string)
    returns (lev: Levels)
    requires WellBuilt(snap) && maxIter >= 1
    requires RunInv(snap, maxIter, before) && Timed(snap, before, begun, t) && Waiting(snap, before, begun, t)
    requires var launch := ReadySet(snap, SettleSkips(snap, before), maxIter);
             && r.skipped == SettleSkips(snap, before).skipped && before.done <= r.done
             && id in launch && forall u :: Stopped(r, u) <==> u in launch && u !in r.done
    ensures Timetable(snap, r.skipped, lev) && id in lev && id !in r.skipped
    ensures forall u :: Pending(snap, r, u) && !Stopped(r, u) ==> After(lev, u, lev[id])
  {
    var table := RoundTable(snap, maxIter, before, begun, t);
    lev := CompleteTable(snap, r.skipped, table, t);
    forall u | Pending(snap, r, u) && !Stopped(r, u)
      ensures After(lev, u, lev[id])
    {
      assert u !in table;
    }
  }

  lemma FailsFromBusyHead(snap: Snapshot, maxIter: nat, state: State, cs: seq<Choice>, r: Run, id: string, h: Head)
    requires WellBuilt(snap) && cs != [] && Reaches(snap, maxIter, state, cs[..|cs| - 1], h)
    requires Turn(snap, maxIter, h, cs[|cs| - 1]) == Some(Return(r, Some(NodeFailed(id))))
    ensures h.idle == 0
  {
    if h.idle > 0 {
      IdleHeadReturns(snap, maxIter, state, cs[..|cs| - 1], h, cs[|cs| - 1]);
    }
  }

  /** A confined shape keeps the promise in every failing run. */
  lemma ShapeConfines(snap: Snapshot, maxIter: nat, state: State, cs: seq<Choice>, r: Run, id: string)
    requires WellBuilt(snap) && snap.router.None? && maxIter >= 1
    requires ConfinedShape(snap) && Returns(snap, maxIter, state, cs, r, Some(NodeFailed(id)))
    ensures Confined(snap, r)
  {
    var lev := FailingRunTable(snap, maxIter, state, cs, r, id);
    assert InStep(snap, r.skipped, lev);
    forall u | Pending(snap, r, u)
      ensures WaitsForStopped(snap, r, u)
    {
      assert u in Elements(snap.order);
      if Stopped(r, u) {
        DependsOnItself(snap.ins, u);
      }
    }
  }

  // ---- from a schedule to a failing run ----------------------------------------------------------------

  /** `v` fails, every other node succeeds without writing, and exactly the conditions on edges
      into `skips` fail. */
  function Failing(shape: Snapshot, skips: set<string>, v: string, router: Option<Router>): Snapshot {
    shape.(
      nodes := map id | id in shape.nodes ::
          FnNode(if id == v then (s: State, w: int) => FnErr else (s: State, w: int) => FnOk(s)),
      conds := map e | e in shape.conds ::
                 if shape.conds[e].None? then None else Some((s: State) => e.1 !in skips),
      router := router)
  }

  /** What the construction relies on. */
  ghost predicate FailsAt(snap: Snapshot, skips: set<string>, v: string) {
    && WellBuilt(snap) && v in snap.nodes && v !in skips
    && (forall e, s: State :: CondFails(snap, s, e) <==> CondOf(snap, e).Some? && e.1 in skips)
    && (forall u :: u in snap.nodes && u != v ==> CanSucceed(snap, u))
    && forall copy {:trigger Answers(snap, v, copy, Fails)} :: Answers(snap, v, copy, Fails)
  }

  lemma FailingShape(shape: Snapshot, skips: set<string>, v: string, router: Option<Router>)
    requires WellBuilt(shape) && v in shape.nodes && v !in skips
    ensures FailsAt(Failing(shape, skips, v, router), skips, v) && SameShape(Failing(shape, skips, v, router), shape)
  {
    var snap := Failing(shape, skips, v, router);
    assert snap.nodes.Keys == shape.nodes.Keys;
    assert forall e :: CondOf(snap, e).Some? <==> CondOf(shape, e).Some?;
    assert forall b :: Ins(snap, b) == Ins(shape, b);
    forall u | u in snap.nodes && u != v
      ensures CanSucceed(snap, u)
    {
      IdleSucceeds(snap, u);
    }
    forall copy: State
      ensures Answers(snap, v, copy, Fails)
    {
      assert Fails == FnEffect(snap.nodes[v].fn(copy, 0));
    }
  }

  /** The run is on schedule after `t` turns. */
  ghost predicate Follows(snap: Snapshot, skips: set<string>, lev: Levels, r: Run, t: nat) {
    && r.failed == {}
    && (forall u :: u in r.done <==> u in lev && lev[u] < t && u !in skips)
    && (forall u :: u in r.skipped <==> u in lev && lev[u] < t && u in skips)
    && (forall e :: e in r.dead <==> e.1 in Outs(snap, e.0) && e.0 in r.done && e.1 in skips)
  }

  /** On schedule, the nodes to be skipped in turn `t` are the scheduled ones. */
  lemma SkipsOnSchedule(snap: Snapshot, skips: set<string>, lev: Levels, r: Run, t: nat, u: string)
    requires WellBuilt(snap) && Timetable(snap, skips, lev) && Follows(snap, skips, lev, r, t)
    ensures u in SettleSkips(snap, r).skipped <==> u in lev && lev[u] <= t && u in skips
  {
    if u in ToSkip(snap, r) {
      assert u in Elements(snap.order);
      assert (Ins(snap, u)[0], u) in r.dead;
      assert OnTime(snap, skips, lev, u);
    }
    if u in lev && lev[u] == t && u in skips {
      assert u in Elements(snap.order) && OnTime(snap, skips, lev, u);
      forall p | p in Ins(snap, u)
        ensures (p, u) in r.dead
      {
        assert p !in skips && Avail(skips, lev, p) <= t && u in Outs(snap, p);
      }
    }
  }

  lemma AllSkipsOnSchedule(snap: Snapshot, skips: set<string>, lev: Levels, r: Run, t: nat)
    requires WellBuilt(snap) && Timetable(snap, skips, lev) && Follows(snap, skips, lev, r, t)
    ensures forall u :: u in SettleSkips(snap, r).skipped <==> u in lev && lev[u] <= t && u in skips
  {
    forall u
      ensures u in SettleSkips(snap, r).skipped <==> u in lev && lev[u] <= t && u in skips
    {
      SkipsOnSchedule(snap, skips, lev, r, t, u);
    }
  }

  lemma SettledOnSchedule(snap: Snapshot, skips: set<string>, lev: Levels, r: Run, t: nat, p: string)
    requires WellBuilt(snap) && Timetable(snap, skips, lev) && Follows(snap, skips, lev, r, t)
    ensures Settled(SettleSkips(snap, r), p) <==> p in lev && Avail(skips, lev, p) <= t
  {
    SkipsOnSchedule(snap, skips, lev, r, t, p);
  }

  /** A node that is not free waits for a source for ever. */
  lemma StuckNotReady(snap: Snapshot, skips: set<string>, lev: Levels, r: Run, t: nat, u: string)
    requires WellBuilt(snap) && Timetable(snap, skips, lev) && Follows(snap, skips, lev, r, t)
    requires u in snap.nodes && u !in lev
    ensures Blocked(snap, SettleSkips(snap, r), u)
  {
    assert u !in Free(snap);
    StuckThrough(snap, u);
    var p :| p in Ins(snap, u) && (p !in snap.nodes || Stuck(snap, p));
    assert p !in Free(snap);
    SettledOnSchedule(snap, skips, lev, r, t, p);
  }

  /** On schedule, the nodes launched in turn `t` are the scheduled ones. */
  lemma LaunchOnSchedule(snap: Snapshot, maxIter: nat, skips: set<string>, lev: Levels, r: Run, t: nat, u: string)
    requires WellBuilt(snap) && Timetable(snap, skips, lev) && Follows(snap, skips, lev, r, t)
    requires RunInv(snap, maxIter, r) && maxIter >= 1
    ensures u in ReadySet(snap, SettleSkips(snap, r), maxIter) <==> u in lev && lev[u] == t && u !in skips
  {
    var r1 := SettleSkips(snap, r);
    assert u in snap.nodes <==> u in Elements(snap.order);
    if u in snap.nodes && u !in lev {
      StuckNotReady(snap, skips, lev, r, t, u);
    } else if u in lev {
      SettledOnSchedule(snap, skips, lev, r, t, u);
      assert OnTime(snap, skips, lev, u);
      if lev[u] > t {
        var p :| p in Ins(snap, u) && p in lev && Avail(skips, lev, p) == lev[u];
        SettledOnSchedule(snap, skips, lev, r, t, p);
        assert Blocked(snap, r1, u);
      } else if lev[u] == t && u !in skips {
        DueIsReady(snap, maxIter, skips, lev, r, t, u);
      }
    }
  }

  lemma DueIsReady(snap: Snapshot, maxIter: nat, skips: set<string>, lev: Levels, r: Run, t: nat, u: string)
    requires WellBuilt(snap) && Timetable(snap, skips, lev) && Follows(snap, skips, lev, r, t)
    requires RunInv(snap, maxIter, r) && maxIter >= 1 && u in lev && lev[u] == t && u !in skips
    ensures Runnable(snap, SettleSkips(snap, r), maxIter, u)
  {
    var r1 := SettleSkips(snap, r);
    SettledOnSchedule(snap, skips, lev, r, t, u);
    assert OnTime(snap, skips, lev, u);
    forall p | p in Ins(snap, u)
      ensures Settled(r1, p) && (p, u) !in r1.dead
    {
      SettledOnSchedule(snap, skips, lev, r, t, p);
    }
    assert IterOf(r1, u) == IterOf(r, u) == 0;
    RunnableNow(snap, maxIter, r1, u);
  }

  lemma RunnableNow(snap: Snapshot, maxIter: nat, r: Run, u: string)
    requires maxIter >= 1 && !Settled(r, u) && IterOf(r, u) == 0
    requires forall p :: p in Ins(snap, u) ==> Settled(r, p) && (p, u) !in r.dead
    ensures Runnable(snap, r, maxIter, u)
  {
    assert Ins(snap, u) != [] ==> Ins(snap, u)[0] in Ins(snap, u);
  }

  /** Up to any node that runs, some node runs in every turn. */
  lemma {:induction false} EveryTurnRuns(snap: Snapshot, skips: set<string>, lev: Levels, v: string, t: nat)
    returns (u: string)
    requires Timetable(snap, skips, lev) && v in lev && v !in skips && t <= lev[v]
    ensures u in lev && u !in skips && lev[u] == t
    decreases lev[v]
  {
    if t == lev[v] {
      u := v;
    } else {
      assert OnTime(snap, skips, lev, v);
      var p :| p in Ins(snap, v) && p in lev && Avail(skips, lev, p) == lev[v];
      if p in skips {
        assert OnTime(snap, skips, lev, p);
        var q :| q in Ins(snap, p) && q in lev && Avail(skips, lev, q) == lev[p];
        u := EveryTurnRuns(snap, skips, lev, q, t);
      } else {
        u := EveryTurnRuns(snap, skips, lev, p, t);
      }
    }
  }

  /** The scheduled nodes of turn `t`. */
  function Due(skips: set<string>, lev: Levels, t: nat): set<string> {
    set u | u in lev && lev[u] == t && u !in skips
  }

  /** What the conditions kill on schedule: the completed nodes' edges into `skips`. */
  lemma KilledOnSchedule(snap: Snapshot, skips: set<string>, lev: Levels, r: Run, e: Edge)
    requires WellBuilt(snap) && Timetable(snap, skips, lev)
    requires forall f, s: State :: CondFails(snap, s, f) <==> CondOf(snap, f).Some? && f.1 in skips
    requires e.0 !in r.failed && e.0 !in r.skipped
    ensures Killed(snap, r, e) <==> e.1 in Outs(snap, e.0) && e.1 in skips
  {
    if e.1 in Outs(snap, e.0) && e.1 in skips {
      assert e.0 in Ins(snap, e.1) && Guarded(snap, e.1);
      assert e == (e.0, e.1);
    }
  }

  /** The edges dead after a round on schedule. */
  lemma DeadOnSchedule(snap: Snapshot, skips: set<string>, lev: Levels, v: string, r: Run, t: nat, end: Run,
                       completions: seq<string>)
    requires FailsAt(snap, skips, v) && Timetable(snap, skips, lev) && Follows(snap, skips, lev, r, t)
    requires end.dead == r.dead && end.skipped == SettleSkips(snap, r).skipped
    requires end.done == r.done + Elements(completions)
    requires Elements(completions) <= Due(skips, lev, t) && Elements(completions) !! end.failed
    ensures forall e :: e in EvaluateAll(snap, end, completions).dead <==>
              e.1 in Outs(snap, e.0) && e.0 in end.done && e.1 in skips
  {
    FoldOutgoingExact(snap, end, completions);
    assert forall u :: u in completions <==> u in Elements(completions);
    forall e: Edge | e.0 in completions
      ensures Killed(snap, end, e) <==> e.1 in Outs(snap, e.0) && e.1 in skips
    {
      CompletedKills(snap, skips, lev, v, r, t, end, e);
    }
  }

  /** Where a round on schedule leaves the run, in terms of the nodes that completed. */
  lemma RoundOnSchedule(snap: Snapshot, skips: set<string>, lev: Levels, v: string, r: Run, t: nat, steps: seq<Step>,
                        end: Round)
    requires FailsAt(snap, skips, v) && Timetable(snap, skips, lev) && Follows(snap, skips, lev, r, t)
    requires Completes(snap, SettleSkips(snap, r), Due(skips, lev, t), steps, end)
    ensures var r' := EvaluateAll(snap, end.run, end.completions);
            && r'.done == r.done + Elements(end.completions) && r'.skipped == SettleSkips(snap, r).skipped
                  && r'.failed == end.run.failed
            && (forall u :: IterOf(r', u) == IterOf(r, u) + if u in Due(skips, lev, t) then 1 else 0)
            && (forall e :: e in r'.dead <==> e.1 in Outs(snap, e.0) && e.0 in r'.done && e.1 in skips)
  {
    ConditionsAfter(snap, SettleSkips(snap, r), Due(skips, lev, t), steps, end);
    DeadOnSchedule(snap, skips, lev, v, r, t, end.run, end.completions);
    assert forall u :: IterOf(SettleSkips(snap, r), u) == IterOf(r, u);
  }

  /** What the evaluation of conditions leaves alone after a round. */
  lemma ConditionsAfter(snap: Snapshot, r: Run, ready: set<string>, steps: seq<Step>, end: Round)
    requires Completes(snap, r, ready, steps, end)
    ensures var r' := EvaluateAll(snap, end.run, end.completions);
            && r'.done == end.run.done == r.done + Elements(end.completions) && Elements(end.completions) <= ready
            && r'.skipped == end.run.skipped == r.skipped && r'.failed == end.run.failed && end.run.dead == r.dead
            && (r.failed == {} ==> Elements(end.completions) !! end.run.failed)
            && (forall u :: IterOf(r', u) == IterOf(r, u) + if u in ready then 1 else 0)
  {
    var r' := EvaluateAll(snap, end.run, end.completions);
    RoundResult(snap, r, ready, steps, end);
    FoldOutgoingExact(snap, end.run, end.completions);
    assert forall u :: IterOf(r', u) == IterOf(end.run, u);
    assert r.failed == {} ==> end.run.failed == end.run.failed - r.failed;
  }

  lemma CompletedKills(snap: Snapshot, skips: set<string>, lev: Levels, v: string, r: Run, t: nat, end: Run, e: Edge)
    requires FailsAt(snap, skips, v) && Timetable(snap, skips, lev) && Follows(snap, skips, lev, r, t)
    requires end.skipped == SettleSkips(snap, r).skipped && e.0 !in end.failed && e.0 in Due(skips, lev, t)
    ensures Killed(snap, end, e) <==> e.1 in Outs(snap, e.0) && e.1 in skips
  {
    SkipsOnSchedule(snap, skips, lev, r, t, e.0);
    KilledOnSchedule(snap, skips, lev, end, e);
  }

  /** The launched set of a turn on schedule. */
  lemma TurnLaunchesDue(snap: Snapshot, maxIter: nat, skips: set<string>, lev: Levels, h: Head, t: nat, v: string,
                        c: Choice)
    requires FailsAt(snap, skips, v) && Timetable(snap, skips, lev) && Follows(snap, skips, lev, h.run, t)
    requires RunInv(snap, maxIter, h.run) && maxIter >= 1 && snap.router.None? && v in lev && t <= lev[v]
    ensures Elements(Launch(snap, maxIter, h, c)) == Due(skips, lev, t) && Launch(snap, maxIter, h, c) != []
    ensures Cleared(snap, SettleSkips(snap, h.run)) == SettleSkips(snap, h.run)
  {
    UnroutedTurn(snap, maxIter, h, c);
    forall u
      ensures u in Launch(snap, maxIter, h, c) <==> u in Due(skips, lev, t)
    {
      LaunchOnSchedule(snap, maxIter, skips, lev, h.run, t, u);
    }
    var u := EveryTurnRuns(snap, skips, lev, v, t);
    assert u in Due(skips, lev, t);
  }

  /** Before `v` is due a round can succeed and stay on schedule. */
  lemma GoodRound(snap: Snapshot, skips: set<string>, lev: Levels, v: string, r: Run, t: nat)
    returns (steps: seq<Step>, end: Round)
    requires FailsAt(snap, skips, v) && Timetable(snap, skips, lev) && Follows(snap, skips, lev, r, t)
    requires v in lev && t < lev[v]
    ensures Completes(snap, SettleSkips(snap, r), Due(skips, lev, t), steps, end) && end.firstErr.None?
    ensures Follows(snap, skips, lev, EvaluateAll(snap, end.run, end.completions), t + 1)
  {
    var start := StartRound(SettleSkips(snap, r), Due(skips, lev, t));
    steps, end := RunAll(snap, start, [], start);
    RoundOnSchedule(snap, skips, lev, v, r, t, steps, end);
    AllSkipsOnSchedule(snap, skips, lev, r, t);
    assert Elements(end.completions) == Due(skips, lev, t);
  }

  lemma GoodTurn(snap: Snapshot, maxIter: nat, skips: set<string>, lev: Levels, v: string, h: Head, t: nat)
    returns (c: Choice, h': Head)
    requires FailsAt(snap, skips, v) && Timetable(snap, skips, lev) && Follows(snap, skips, lev, h.run, t)
    requires RunInv(snap, maxIter, h.run) && maxIter >= 1 && snap.router.None? && v in lev && t < lev[v]
    ensures Turn(snap, maxIter, h, c) == Some(Again(h')) && Follows(snap, skips, lev, h'.run, t + 1)
  {
    var steps, end := GoodRound(snap, skips, lev, v, h.run, t);
    c := Choice(false, "", steps);
    TurnLaunchesDue(snap, maxIter, skips, lev, h, t, v, c);
    h' := Head(EvaluateAll(snap, end.run, end.completions), 0);
  }

  lemma OneTurnFurther(snap: Snapshot, maxIter: nat, state: State, front: seq<Choice>, before: Head, c: Choice, h: Head)
    returns (cs: seq<Choice>)
    requires WellBuilt(snap) && Reaches(snap, maxIter, state, front, before)
    requires Turn(snap, maxIter, before, c) == Some(Again(h))
    ensures Reaches(snap, maxIter, state, cs, h) && RunInv(snap, maxIter, h.run)
  {
    cs := front + [c];
    assert cs[..|cs| - 1] == front;
    ReachableInv(snap, maxIter, state, cs, h);
  }

  lemma EndingTurn(snap: Snapshot, maxIter: nat, state: State, front: seq<Choice>, h: Head, c: Choice, r: Run,
                   err: Option<Error>)
    returns (cs: seq<Choice>)
    requires Reaches(snap, maxIter, state, front, h) && Turn(snap, maxIter, h, c) == Some(Return(r, err))
    ensures Returns(snap, maxIter, state, cs, r, err)
  {
    cs := front + [c];
    assert cs[..|cs| - 1] == front;
  }

  lemma {:induction false} DriveTo(snap: Snapshot, maxIter: nat, state: State, skips: set<string>, lev: Levels,
                                   v: string, t: nat)
    returns (cs: seq<Choice>, h: Head)
    requires FailsAt(snap, skips, v) && Timetable(snap, skips, lev) && maxIter >= 1
    requires snap.router.None? && v in lev && t <= lev[v]
    ensures Reaches(snap, maxIter, state, cs, h) && Follows(snap, skips, lev, h.run, t) && RunInv(snap, maxIter, h.run)
    decreases t
  {
    if t == 0 {
      cs, h := [], Head(FreshRun(state), 0);
    } else {
      var front, before := DriveTo(snap, maxIter, state, skips, lev, v, t - 1);
      var c: Choice;
      c, h := GoodTurn(snap, maxIter, skips, lev, v, before, t - 1);
      cs := OneTurnFurther(snap, maxIter, state, front, before, c, h);
    }
  }

  /** The round in which `v` fails first and its siblings succeed. */
  lemma BadRound(snap: Snapshot, skips: set<string>, v: string, r: Run, ready: set<string>)
    returns (steps: seq<Step>, end: Round)
    requires FailsAt(snap, skips, v) && v in ready && ready <= snap.nodes.Keys
    ensures Completes(snap, r, ready, steps, end) && end.firstErr == Some(v)
    ensures Elements(end.completions) == ready - {v} && end.run.failed == r.failed + {v}
  {
    var start := StartRound(r, ready);
    assert Answers(snap, v, r.state, Fails);
    var c: Round;
    steps, c := Extend(snap, start, [], start, Begin(v));
    steps, c := Extend(snap, start, steps, c, Commit(v, Fails));
    steps, c := Extend(snap, start, steps, c, Report(v));
    assert c.copies == map[] && c.landed == map[];
    assert Elements(c.completions) == {};
    steps, end := RunAll(snap, start, steps, c);
  }

  /** A run on schedule until `v` fails: everything else due by then is settled, nothing later is. */
  ghost predicate FailedOnSchedule(snap: Snapshot, skips: set<string>, lev: Levels, v: string, r: Run)
    requires v in lev
  {
    && (forall u :: u in r.done <==> u in lev && lev[u] <= lev[v] && u !in skips && u != v)
    && (forall u :: u in r.skipped <==> u in lev && lev[u] <= lev[v] && u in skips)
    && r.failed == {v} && (forall u :: Stopped(r, u) <==> u == v)
    && (forall e :: e in r.dead ==> e.1 in skips)
  }

  lemma BadTurn(snap: Snapshot, maxIter: nat, skips: set<string>, lev: Levels, v: string, h: Head)
    returns (c: Choice, r: Run)
    requires FailsAt(snap, skips, v) && snap.router.None? && Timetable(snap, skips, lev) && v in lev
    requires Follows(snap, skips, lev, h.run, lev[v]) && RunInv(snap, maxIter, h.run) && maxIter >= 1
    ensures Turn(snap, maxIter, h, c) == Some(Return(r, Some(NodeFailed(v))))
    ensures FailedOnSchedule(snap, skips, lev, v, r)
  {
    var r1, due := SettleSkips(snap, h.run), Due(skips, lev, lev[v]);
    var steps, end := BadRound(snap, skips, v, r1, due);
    c := Choice(false, "", steps);
    TurnLaunchesDue(snap, maxIter, skips, lev, h, lev[v], v, c);
    r := EvaluateAll(snap, end.run, end.completions);
    BadEnd(snap, maxIter, skips, lev, v, h.run, steps, end);
  }

  lemma BadEnd(snap: Snapshot, maxIter: nat, skips: set<string>, lev: Levels, v: string, before: Run, steps: seq<Step>,
               end: Round)
    requires FailsAt(snap, skips, v) && Timetable(snap, skips, lev) && v in lev
    requires Follows(snap, skips, lev, before, lev[v])
    requires RunInv(snap, maxIter, before)
    requires Completes(snap, SettleSkips(snap, before), Due(skips, lev, lev[v]), steps, end)
    requires Elements(end.completions) == Due(skips, lev, lev[v]) - {v} && end.run.failed == before.failed + {v}
    ensures FailedOnSchedule(snap, skips, lev, v, EvaluateAll(snap, end.run, end.completions))
  {
    var r := EvaluateAll(snap, end.run, end.completions);
    RoundOnSchedule(snap, skips, lev, v, before, lev[v], steps, end);
    AllSkipsOnSchedule(snap, skips, lev, before, lev[v]);
    forall u
      ensures u in r.done <==> u in lev && lev[u] <= lev[v] && u !in skips && u != v
      ensures Stopped(r, u) <==> u == v
    {
      assert u in before.done <==> IterOf(before, u) != 0;
    }
  }

  /** Whatever is scheduled to run can fail: the run stays on schedule until then and no further. */
  lemma FailsAlong(shape: Snapshot, maxIter: nat, state: State, skips: set<string>, lev: Levels, v: string)
    returns (snap: Snapshot, cs: seq<Choice>, r: Run)
    requires WellBuilt(shape) && Timetable(shape, skips, lev) && v in lev && v !in skips && maxIter >= 1
    ensures WellBuilt(snap) && SameShape(snap, shape) && snap.router.None?
    ensures Returns(snap, maxIter, state, cs, r, Some(NodeFailed(v))) && FailedOnSchedule(snap, skips, lev, v, r)
  {
    snap := Failing(shape, skips, v, None);
    FailingShape(shape, skips, v, None);
    SameShapeTable(snap, shape, skips, lev);
    cs, r := FailsOnSchedule(snap, maxIter, state, skips, lev, v);
  }

  lemma FailsOnSchedule(snap: Snapshot, maxIter: nat, state: State, skips: set<string>, lev: Levels, v: string)
    returns (cs: seq<Choice>, r: Run)
    requires FailsAt(snap, skips, v) && snap.router.None? && Timetable(snap, skips, lev) && v in lev && maxIter >= 1
    ensures Returns(snap, maxIter, state, cs, r, Some(NodeFailed(v))) && FailedOnSchedule(snap, skips, lev, v, r)
  {
    var front, h := DriveTo(snap, maxIter, state, skips, lev, v, lev[v]);
    var c: Choice;
    c, r := BadTurn(snap, maxIter, skips, lev, v, h);
    cs := EndingTurn(snap, maxIter, state, front, h, c, r, Some(NodeFailed(v)));
  }

  // ---- the exact condition ------------------------------------------------------------------------------

  /** In every failing run, whatever the nodes and conditions do, the promise holds. */
  ghost predicate AlwaysConfined(shape: Snapshot, maxIter: nat, state: State) {
    forall snap, cs, r, id ::
      WellBuilt(snap) && SameShape(snap, shape) && snap.router.None?
          && Returns(snap, maxIter, state, cs, r, Some(NodeFailed(id)))
      ==> Confined(snap, r)
  }

  /** A node out of step is left pending by a failure it does not depend on. */
  lemma OutOfStepIsCutOff(snap: Snapshot, skips: set<string>, lev: Levels, v: string, r: Run, w: string)
    requires WellBuilt(snap) && Timetable(snap, skips, lev) && v in lev && FailedOnSchedule(snap, skips, lev, v, r)
    requires w in snap.nodes && After(lev, w, lev[v]) && !DependsOn(snap.ins, w, v)
    ensures Pending(snap, r, w) && !Confined(snap, r)
  {
    assert w in Elements(snap.order);
    assert !WaitsForStopped(snap, r, w);
  }

  /** For graphs without a router: the promise holds in every failing run exactly when, in every
      schedule of the shape, whatever comes after a node that runs, or never, depends on it. */
  lemma FailureConfinedExactly(shape: Snapshot, maxIter: nat, state: State)
    requires WellBuilt(shape) && maxIter >= 1
    ensures ConfinedShape(shape) <==> AlwaysConfined(shape, maxIter, state)
  {
    if ConfinedShape(shape) {
      forall snap, cs, r, id | WellBuilt(snap) && SameShape(snap, shape) && snap.router.None?
                               && Returns(snap, maxIter, state, cs, r, Some(NodeFailed(id)))
        ensures Confined(snap, r)
      {
        SameShapeConfined(snap, shape);
        ShapeConfines(snap, maxIter, state, cs, r, id);
      }
    } else {
      var skips, lev :| Timetable(shape, skips, lev) && !InStep(shape, skips, lev);
      var v, w :| v in lev && v !in skips && w in shape.nodes && After(lev, w, lev[v]) && !DependsOn(shape.ins, w, v);
      var snap, cs, r := FailsAlong(shape, maxIter, state, skips, lev, v);
      SameShapeTable(snap, shape, skips, lev);
      assert w in snap.nodes.Keys;
      OutOfStepIsCutOff(snap, skips, lev, v, r, w);
    }
  }

  lemma SameShapeConfined(a: Snapshot, b: Snapshot)
    requires SameShape(a, b)
    ensures ConfinedShape(a) <==> ConfinedShape(b)
  {
    forall skips, lev
      ensures Timetable(a, skips, lev) <==> Timetable(b, skips, lev)
      ensures InStep(a, skips, lev) <==> InStep(b, skips, lev)
    {
      SameShapeTable(a, b, skips, lev);
    }
  }

  // ---- without skippable nodes --------------------------------------------------------------------------

  predicate Differs(a: Levels, b: Levels, u: string) {
    u in a && u in b && a[u] != b[u]
  }

  lemma SameLevel(snap: Snapshot, skips: set<string>, a: Levels, b: Levels, u: string)
    requires Timetable(snap, skips, a) && Timetable(snap, skips, b)
    requires forall p :: p in Ins(snap, u) ==> !Differs(a, b, p)
    ensures !Differs(a, b, u)
  {
    if u in a {
      assert OnTime(snap, skips, a, u) && OnTime(snap, skips, b, u);
      forall p | p in Ins(snap, u)
        ensures p in a && p in b && Avail(skips, a, p) == Avail(skips, b, p)
      {
        assert p in a.Keys && p in b.Keys && !Differs(a, b, p);
      }
    }
  }

  /** Two schedules with the same skips are the same. */
  lemma OneTable(snap: Snapshot, skips: set<string>, a: Levels, b: Levels)
    requires Timetable(snap, skips, a) && Timetable(snap, skips, b)
    ensures a == b
  {
    var differ := set u | u in Free(snap) && Differs(a, b, u);
    if differ != {} {
      FreeHasSource(snap, differ);
      var u :| u in differ && !FedFrom(snap.ins, u, differ);
      forall p | p in Ins(snap, u)
        ensures !Differs(a, b, p)
      {
        assert p in differ ==> FedFrom(snap.ins, u, differ);
        assert Differs(a, b, p) ==> p in a.Keys;
      }
      SameLevel(snap, skips, a, b, u);
    }
    forall u | u in a
      ensures a[u] == b[u]
    {
      assert u in a.Keys && u !in differ;
    }
  }

  lemma OnlyTable(shape: Snapshot, depth: Levels, skips: set<string>, lev: Levels)
    requires forall u :: u in shape.nodes ==> !Guarded(shape, u)
    requires Timetable(shape, {}, depth) && Timetable(shape, skips, lev)
    ensures skips == {} && lev == depth
  {
    assert forall u :: u in skips ==> Guarded(shape, u) && u in Free(shape);
    OneTable(shape, {}, lev, depth);
  }

  /** Every node of greater depth, or of none, depends on every one of less. */
  ghost predicate Layered(shape: Snapshot, depth: Levels) {
    forall v, w :: v in depth && w in shape.nodes && After(depth, w, depth[v]) ==> DependsOn(shape.ins, w, v)
  }

  /** When no node can be skipped there is one schedule, by depth: the longest path from a root.
      The promise then holds exactly when every deeper node depends on every less deep one. */
  lemma ConfinedByDepth(shape: Snapshot, maxIter: nat, state: State, depth: Levels)
    requires WellBuilt(shape) && maxIter >= 1
    requires (forall u :: u in shape.nodes ==> !Guarded(shape, u)) && Timetable(shape, {}, depth)
    ensures AlwaysConfined(shape, maxIter, state) <==> Layered(shape, depth)
  {
    assert ConfinedShape(shape) <==> AlwaysConfined(shape, maxIter, state) by {
      FailureConfinedExactly(shape, maxIter, state);
    }
    assert ConfinedShape(shape) <==> InStep(shape, {}, depth) by {
      forall skips, lev | Timetable(shape, skips, lev)
        ensures skips == {} && lev == depth
      {
        OnlyTable(shape, depth, skips, lev);
      }
    }
  }

  // ---- a sibling branch cut off --------------------------------------------------------------------------

  /** Roots "a" and "b", and "c" after "b" only. */
  function Forked(): Snapshot {
    Snapshot(
      map["a" := NoKind, "b" := NoKind, "c" := NoKind], ["a", "b", "c"],
      map["b" := ["c"]], map["c" := ["b"]], map[("b", "c") := None], None)
  }

  lemma ForkedEdges(a: string, b: string)
    ensures a in Ins(Forked(), b) <==> a == "b" && b == "c"
    ensures b in Outs(Forked(), a) <==> a == "b" && b == "c"
  {
  }

  lemma ForkedShape()
    ensures WellBuilt(Forked()) && Closed(Forked())
  {
    var snap := Forked();
    assert snap.nodes.Keys == {"a", "b", "c"};
    forall a, b {:trigger a in Ins(snap, b)} {:trigger b in Outs(snap, a)}
      ensures a in Ins(snap, b) <==> b in Outs(snap, a)
      ensures b in Outs(snap, a) ==> a in snap.nodes && b in snap.nodes
    {
      ForkedEdges(a, b);
    }
  }

  lemma ForkedFree()
    ensures Free(Forked()) == {"a", "b", "c"}
  {
    var snap, rank := Forked(), map["b" := 0, "c" := 1];
    forall v, p {:trigger p in PredsOf(snap.ins, v)} | p in PredsOf(snap.ins, v)
      ensures p in rank && v in rank && rank[p] < rank[v]
    {
      ForkedEdges(p, v);
    }
    ForkedShape();
    RankedIsAcyclic(snap.ins, rank);
    AllFree(snap);
    assert snap.nodes.Keys == {"a", "b", "c"};
  }

  lemma ForkedTable()
    ensures Timetable(Forked(), {}, map["a" := 0, "b" := 0, "c" := 1])
  {
    var snap, lev := Forked(), map["a" := 0, "b" := 0, "c" := 1];
    ForkedFree();
    forall u | u in lev
      ensures OnTime(snap, {}, lev, u)
    {
      forall p | p in Ins(snap, u)
        ensures p in lev && Avail({}, lev, p) <= lev[u]
      {
        ForkedEdges(p, u);
      }
      ForkedEdges("b", u);
    }
  }

  /** The concrete failure: "a" fails beside "b", and "c", which depends on "b" alone and could
      run at once, never does. */
  lemma SiblingCutOff(state: State) returns (snap: Snapshot, cs: seq<Choice>, r: Run)
    ensures WellBuilt(snap) && SameShape(snap, Forked()) && snap.router.None?
    ensures Returns(snap, DEFAULT_MAX_ITERATIONS, state, cs, r, Some(NodeFailed("a")))
    ensures Ins(snap, "c") == ["b"] && "b" in r.done
    ensures Pending(snap, r, "c") && Runnable(snap, r, DEFAULT_MAX_ITERATIONS, "c") && !WaitsForStopped(snap, r, "c")
  {
    var lev := map["a" := 0, "b" := 0, "c" := 1];
    ForkedShape();
    ForkedTable();
    snap, cs, r := FailsAlong(Forked(), DEFAULT_MAX_ITERATIONS, state, {}, lev, "a");
    assert Ins(snap, "c") == ["b"];
    assert "c" in snap.order;
    assert !Stopped(r, "c");
    NotBehind(snap);
  }

  lemma NotBehind(snap: Snapshot)
    requires SameShape(snap, Forked())
    ensures !DependsOn(snap.ins, "c", "a")
  {
    if DependsOn(snap.ins, "c", "a") {
      var w :| WalksTo(snap.ins, w, "c", "a");
      forall v, p {:trigger p in PredsOf(snap.ins, v)} | v in {"b", "c"} && p in PredsOf(snap.ins, v)
        ensures p in {"b", "c"}
      {
        ForkedEdges(p, v);
      }
      WalkStays(snap.ins, {"b", "c"}, w, |w| - 1);
    }
  }
}
