/** Whole runs of the round loop: one turn of the loop as a function of everything the
    environment decides (cancellation, the router's answer, the schedule of the round), a
    run as a sequence of such decisions, and what holds of every run. */
module GraphRuns {
  import opened Basics
  import opened Digraph
  import opened GraphModel
  import opened GraphRound

  datatype Error = Cancelled | NodeFailed(id: string)

  /** What the environment decides in one turn of the loop. */
  datatype Choice = Choice(cancelled: bool, routed: string, steps: seq<Step>)

  /** The loop head: the bookkeeping and the count of consecutive empty rounds. */
  datatype Head = Head(run: Run, idle: nat)

  datatype Outcome = Again(head: Head) | Return(run: Run, err: Option<Error>)

  /** The bookkeeping that a turn leaves. */
  function RunOf(o: Outcome): Run {
    match o
    case Again(h) => h.run
    case Return(r, _) => r
  }

  // ---- one turn ----------------------------------------------------------------------

  predicate Consulted(snap: Snapshot, r: Run) {
    snap.router.Some? && r.lastDone != ""
  }

  ghost predicate RouterAnswers(snap: Snapshot, r: Run, routed: string) {
    Consulted(snap, r) ==> exists w: int :: routed == snap.router.value(r.lastDone, r.state, w)
  }

  predicate Forces(snap: Snapshot, maxIter: nat, r: Run, routed: string) {
    Consulted(snap, r) && routed != "" && CanRun(snap, r, maxIter, routed)
  }

  function Cleared(snap: Snapshot, r: Run): Run {
    if Consulted(snap, r) then r.(lastDone := "") else r
  }

  /** The nodes a turn launches: the forced one alone, or the ready set. */
  function Launch(snap: Snapshot, maxIter: nat, h: Head, c: Choice): seq<string> {
    var r := SettleSkips(snap, h.run);
    if Forces(snap, maxIter, r, c.routed) then [c.routed] else ReadySet(snap, r, maxIter)
  }

  /** One turn, or None when the choice is not one the environment can make. */
  ghost function Turn(snap: Snapshot, maxIter: nat, h: Head, c: Choice): Option<Outcome> {
    var r := SettleSkips(snap, h.run);
    var launch := Launch(snap, maxIter, h, c);
    if c.cancelled then Some(Return(h.run, Some(Cancelled)))
    else if !RouterAnswers(snap, r, c.routed) then None
    else if launch == [] then Some(IdleTurn(snap, Cleared(snap, r), h.idle))
    else
      match Play(snap, StartRound(Cleared(snap, r), Elements(launch)), c.steps)
      case None => None
      case Some(end) => if Finished(end) then Some(AfterRound(snap, end)) else None
  }

  ghost function IdleTurn(snap: Snapshot, r: Run, idle: nat): Outcome {
    if (forall id :: !Pending(snap, r, id)) || idle + 1 >= 2 then Return(r, None) else Again(Head(r, idle + 1))
  }

  function AfterRound(snap: Snapshot, end: Round): Outcome {
    var r := EvaluateAll(snap, end.run, end.completions);
    match end.firstErr
    case Some(id) => Return(r, Some(NodeFailed(id)))
    case None => Again(Head(r, 0))
  }

  // ---- runs --------------------------------------------------------------------------

  ghost function Exec(snap: Snapshot, maxIter: nat, start: Run, cs: seq<Choice>): Option<Outcome> {
    if cs == [] then Some(Again(Head(start, 0)))
    else
      match Exec(snap, maxIter, start, cs[..|cs| - 1])
      case Some(Again(h)) => Turn(snap, maxIter, h, cs[|cs| - 1])
      case _ => None
  }

  /** The choices `cs` lead from a fresh run over `state` to the loop head `h`. */
  ghost predicate Reaches(snap: Snapshot, maxIter: nat, state: State, cs: seq<Choice>, h: Head) {
    Exec(snap, maxIter, FreshRun(state), cs) == Some(Again(h))
  }

  ghost predicate Returns(snap: Snapshot, maxIter: nat, state: State, cs: seq<Choice>, r: Run, err: Option<Error>) {
    Exec(snap, maxIter, FreshRun(state), cs) == Some(Return(r, err))
  }

  /** What holds at every loop head. */
  ghost predicate RunInv(snap: Snapshot, maxIter: nat, r: Run) {
    && r.failed == {}
    && r.done !! r.skipped
    && r.done <= snap.nodes.Keys
    && (forall e :: e in r.dead ==> e.0 in r.done && CondOf(snap, e).Some?)
    && (forall id :: id in r.skipped ==> id in snap.nodes && AllDead(snap, r.dead, id))
    && (forall id :: IterOf(r, id) <= maxIter && (IterOf(r, id) == 0 <==> id !in r.done))
    && (snap.router.None? ==> forall id :: IterOf(r, id) <= 1)
  }

  /** Nothing is ever forgotten. */
  ghost predicate Grows(r: Run, r': Run) {
    r.done <= r'.done && r.skipped <= r'.skipped && r.dead <= r'.dead && r.state.Keys <= r'.state.Keys
  }

  lemma SettleSkipsKeepsInv(snap: Snapshot, maxIter: nat, r: Run)
    requires WellBuilt(snap) && RunInv(snap, maxIter, r)
    ensures RunInv(snap, maxIter, SettleSkips(snap, r))
    ensures ToSkip(snap, SettleSkips(snap, r)) == {}
  {
    assert Elements(snap.order) == snap.nodes.Keys;
    var r' := SettleSkips(snap, r);
    assert forall id :: IterOf(r', id) == IterOf(r, id);
    assert forall id :: id in r'.skipped ==> id in r.skipped || id in ToSkip(snap, r);
  }

  /** Who may be launched: the node the router forces, alone, or nodes that satisfy the JoinAll
      rule. */
  lemma LaunchRule(snap: Snapshot, maxIter: nat, h: Head, c: Choice)
    requires WellBuilt(snap)
    ensures NoDup(Launch(snap, maxIter, h, c)) && Elements(Launch(snap, maxIter, h, c)) <= snap.nodes.Keys
    ensures forall id :: id in Launch(snap, maxIter, h, c) ==>
              IterOf(h.run, id) < maxIter && id !in SettleSkips(snap, h.run).skipped && id !in h.run.failed
    ensures (Forces(snap, maxIter, SettleSkips(snap, h.run), c.routed) && Launch(snap, maxIter, h, c) == [c.routed])
            || forall id :: id in Launch(snap, maxIter, h, c) ==> Runnable(snap, SettleSkips(snap, h.run), maxIter, id)
  {
    assert Elements(snap.order) == snap.nodes.Keys;
  }

  /** What a round leaves behind, in terms of the launched set. */
  lemma RoundKeepsRunInv(snap: Snapshot, maxIter: nat, r: Run, launch: set<string>, steps: seq<Step>, end: Round)
    requires RunInv(snap, maxIter, r) && launch <= snap.nodes.Keys
    requires forall id :: id in launch ==> IterOf(r, id) < maxIter && id !in r.skipped
    requires snap.router.None? ==> launch !! r.done
    requires Completes(snap, r, launch, steps, end)
    ensures Grows(r, end.run) && end.run.skipped == r.skipped && end.run.dead == r.dead
    ensures forall id :: IterOf(end.run, id) <= maxIter
    ensures end.firstErr.None? ==> RunInv(snap, maxIter, end.run) && end.run.done == r.done + launch
    ensures Elements(end.completions) <= end.run.done
  {
    RoundResult(snap, r, launch, steps, end);
  }

  lemma EvaluateAllKeepsInv(snap: Snapshot, maxIter: nat, r: Run, completions: seq<string>)
    requires RunInv(snap, maxIter, r) && Elements(completions) <= r.done
    ensures RunInv(snap, maxIter, EvaluateAll(snap, r, completions))
  {
    var r' := EvaluateAll(snap, r, completions);
    FoldOutgoingExact(snap, r, completions);
    assert forall id :: id in completions ==> id in Elements(completions);
    assert forall id :: IterOf(r', id) == IterOf(r, id);
  }

  ghost predicate Kept(snap: Snapshot, maxIter: nat, r: Run, launch: set<string>, o: Outcome) {
    match o
    case Again(h') => RunInv(snap, maxIter, h'.run) && h'.idle <= 1 && Grows(r, h'.run)
        && h'.run.done == r.done + launch
    case Return(r', err) =>
      Grows(r, r') && (forall id :: IterOf(r', id) <= maxIter) && (err.None? ==> RunInv(snap, maxIter, r'))
  }

  lemma RoundTurnKept(snap: Snapshot, maxIter: nat, r: Run, launch: set<string>, steps: seq<Step>, end: Round)
    requires RunInv(snap, maxIter, r) && launch <= snap.nodes.Keys
    requires forall id :: id in launch ==> IterOf(r, id) < maxIter && id !in r.skipped
    requires snap.router.None? ==> launch !! r.done
    requires Completes(snap, r, launch, steps, end)
    ensures Kept(snap, maxIter, r, launch, AfterRound(snap, end))
  {
    RoundKeepsRunInv(snap, maxIter, r, launch, steps, end);
    FoldOutgoingExact(snap, end.run, end.completions);
    assert forall id :: IterOf(EvaluateAll(snap, end.run, end.completions), id) == IterOf(end.run, id);
    if end.firstErr.None? {
      EvaluateAllKeepsInv(snap, maxIter, end.run, end.completions);
    }
  }

  /** Settling skips and clearing the router's seed keep the invariant too. */
  lemma ReadyKeepsInv(snap: Snapshot, maxIter: nat, r: Run)
    requires WellBuilt(snap) && RunInv(snap, maxIter, r)
    ensures RunInv(snap, maxIter, Cleared(snap, SettleSkips(snap, r)))
    ensures Grows(r, Cleared(snap, SettleSkips(snap, r)))
    ensures Cleared(snap, SettleSkips(snap, r)).done == r.done
  {
    SettleSkipsKeepsInv(snap, maxIter, r);
    assert forall id :: IterOf(Cleared(snap, SettleSkips(snap, r)), id) == IterOf(r, id);
  }

  /** Every turn keeps the invariant and forgets nothing, and ends with the launched nodes
      done unless it returns an error. */
  lemma TurnKeepsInv(snap: Snapshot, maxIter: nat, h: Head, c: Choice)
    requires WellBuilt(snap) && RunInv(snap, maxIter, h.run) && h.idle <= 1
    requires Turn(snap, maxIter, h, c).Some?
    ensures Kept(snap, maxIter, h.run, Elements(Launch(snap, maxIter, h, c)), Turn(snap, maxIter, h, c).value)
  {
    if !c.cancelled {
      ReadyKeepsInv(snap, maxIter, h.run);
      LaunchRule(snap, maxIter, h, c);
      var r, launch := Cleared(snap, SettleSkips(snap, h.run)), Launch(snap, maxIter, h, c);
      if launch != [] {
        assert forall id :: id in Elements(launch) <==> id in launch;
        assert forall id :: IterOf(r, id) == IterOf(h.run, id);
        var end := Play(snap, StartRound(r, Elements(launch)), c.steps).value;
        RoundTurnKept(snap, maxIter, r, Elements(launch), c.steps, end);
      }
    }
  }

  /** The invariant of a whole run, at every loop head the environment can drive it to. */
  lemma {:induction false} ReachableInv(snap: Snapshot, maxIter: nat, state: State, cs: seq<Choice>, h: Head)
    requires WellBuilt(snap) && Reaches(snap, maxIter, state, cs, h)
    ensures RunInv(snap, maxIter, h.run) && h.idle <= 1
    ensures state.Keys <= h.run.state.Keys
    decreases |cs|
  {
    if cs != [] {
      var before := Exec(snap, maxIter, FreshRun(state), cs[..|cs| - 1]).value.head;
      ReachableInv(snap, maxIter, state, cs[..|cs| - 1], before);
      TurnKeepsInv(snap, maxIter, before, cs[|cs| - 1]);
    }
  }

  /** The loop head from which the last turn of a run returns. */
  ghost function LastHead(snap: Snapshot, maxIter: nat, state: State, cs: seq<Choice>, r: Run,
                          err: Option<Error>): (h: Head)
    requires WellBuilt(snap) && Returns(snap, maxIter, state, cs, r, err)
    ensures cs != [] && Reaches(snap, maxIter, state, cs[..|cs| - 1], h)
    ensures Turn(snap, maxIter, h, cs[|cs| - 1]) == Some(Return(r, err))
    ensures RunInv(snap, maxIter, h.run) && h.idle <= 1 && state.Keys <= h.run.state.Keys
  {
    var h := Exec(snap, maxIter, FreshRun(state), cs[..|cs| - 1]).value.head;
    ReachableInv(snap, maxIter, state, cs[..|cs| - 1], h);
    h
  }

  /** Whatever happens, and however it ends, a run never loses a key of the shared state and
      never takes a node past the cap. */
  lemma RunKeepsKeys(snap: Snapshot, maxIter: nat, state: State, cs: seq<Choice>, r: Run, err: Option<Error>)
    requires WellBuilt(snap) && Returns(snap, maxIter, state, cs, r, err)
    ensures state.Keys <= r.state.Keys && forall id :: IterOf(r, id) <= maxIter
    ensures err.None? ==> RunInv(snap, maxIter, r)
  {
    var h := LastHead(snap, maxIter, state, cs, r, err);
    TurnKeepsInv(snap, maxIter, h, cs[|cs| - 1]);
  }

  // ---- quiescence --------------------------------------------------------------------

  /** An idle turn means: every pending node waits for an unsettled source. */
  lemma IdleMeansBlocked(snap: Snapshot, maxIter: nat, h: Head, c: Choice)
    requires WellBuilt(snap) && RunInv(snap, maxIter, h.run) && maxIter >= 1
    requires Launch(snap, maxIter, h, c) == []
    ensures forall id :: Pending(snap, SettleSkips(snap, h.run), id) ==> Blocked(snap, SettleSkips(snap, h.run), id)
  {
    SettleSkipsKeepsInv(snap, maxIter, h.run);
    var r := SettleSkips(snap, h.run);
    forall id | Pending(snap, r, id)
      ensures Blocked(snap, r, id)
    {
      assert id !in ToSkip(snap, r);
      assert !Runnable(snap, r, maxIter, id) by {
        assert id !in ReadySet(snap, r, maxIter);
      }
    }
  }

  /** A nil return is complete: every pending node still waits for an unsettled source. */
  lemma QuiescentReturn(snap: Snapshot, maxIter: nat, state: State, cs: seq<Choice>, r: Run)
    requires WellBuilt(snap) && maxIter >= 1
    requires Returns(snap, maxIter, state, cs, r, None)
    ensures forall id :: Pending(snap, r, id) ==> Blocked(snap, r, id)
  {
    var h := LastHead(snap, maxIter, state, cs, r, None);
    var r1 := SettleSkips(snap, h.run);
    IdleMeansBlocked(snap, maxIter, h, cs[|cs| - 1]);
    assert r == Cleared(snap, r1);
    forall id | Pending(snap, r, id)
      ensures Blocked(snap, r, id)
    {
      assert Pending(snap, r1, id);
      var from :| from in Ins(snap, id) && !Settled(r1, from);
      assert !Settled(r, from);
    }
  }

  /** A node that can never be settled without a router: going backwards from it one reaches an
      unknown id or a cycle. */
  ghost predicate Stuck(snap: Snapshot, id: string) {
    ReachesUnknown(snap, id) || TouchesCycle(snap.ins, id)
  }

  ghost predicate ReachesUnknown(snap: Snapshot, id: string) {
    exists x :: x !in snap.nodes && DependsOn(snap.ins, id, x)
  }

  /** Whoever is pending while all pending nodes wait for a source is stuck. */
  lemma PendingIsStuck(snap: Snapshot, r: Run, id: string)
    requires Lists(snap.order, snap.nodes.Keys) && Pending(snap, r, id)
    requires forall j :: Pending(snap, r, j) ==> Blocked(snap, r, j)
    ensures Stuck(snap, id)
  {
    assert Elements(snap.order) == snap.nodes.Keys;
    var waiting := set j | j in snap.order && !Settled(r, j) && !ReachesUnknown(snap, j);
    forall v | v in waiting
      ensures FedFrom(snap.ins, v, waiting)
    {
      assert Pending(snap, r, v);
      var from :| from in Ins(snap, v) && !Settled(r, from);
      UnknownThrough(snap, v, from);
      assert from in Elements(snap.order);
    }
    if !ReachesUnknown(snap, id) {
      SelfFeedingTouchesCycle(snap.ins, waiting, id);
    }
  }

  lemma UnknownThrough(snap: Snapshot, id: string, from: string)
    requires from in Ins(snap, id)
    ensures from !in snap.nodes || ReachesUnknown(snap, from) ==> ReachesUnknown(snap, id)
  {
    if from !in snap.nodes {
      DependsOnItself(snap.ins, from);
      DependsOnThrough(snap.ins, id, from, from);
    } else if ReachesUnknown(snap, from) {
      var x :| x !in snap.nodes && DependsOn(snap.ins, from, x);
      DependsOnThrough(snap.ins, id, from, x);
    }
  }

  /** In a validated acyclic graph no node is stuck. */
  lemma NeverStuck(snap: Snapshot, id: string)
    requires WellBuilt(snap) && Closed(snap) && Acyclic(snap.ins) && id in snap.nodes
    ensures !Stuck(snap, id)
  {
    if ReachesUnknown(snap, id) {
      var x :| x !in snap.nodes && DependsOn(snap.ins, id, x);
      var w :| WalksTo(snap.ins, w, id, x);
      forall v, p {:trigger p in PredsOf(snap.ins, v)} | v in snap.nodes.Keys && p in PredsOf(snap.ins, v)
        ensures p in snap.nodes.Keys
      {
        assert p in Ins(snap, v) && v in Outs(snap, p);
      }
      WalkStays(snap.ins, snap.nodes.Keys, w, |w| - 1);
    }
    if TouchesCycle(snap.ins, id) {
      TouchesCycleRefutes(snap.ins, id);
    }
  }

  /** Whatever is pending at a nil return is stuck, for any router. */
  lemma PendingReturnsStuck(snap: Snapshot, maxIter: nat, state: State, cs: seq<Choice>, r: Run, id: string)
    requires WellBuilt(snap) && maxIter >= 1
    requires Returns(snap, maxIter, state, cs, r, None) && Pending(snap, r, id)
    ensures Stuck(snap, id)
  {
    QuiescentReturn(snap, maxIter, state, cs, r);
    PendingIsStuck(snap, r, id);
  }

  /** On a validated acyclic graph a nil return means every node is done or skipped. */
  lemma AcyclicRunCompletes(snap: Snapshot, maxIter: nat, state: State, cs: seq<Choice>, r: Run)
    requires WellBuilt(snap) && Closed(snap) && Acyclic(snap.ins) && maxIter >= 1
    requires Returns(snap, maxIter, state, cs, r, None)
    ensures r.failed == {} && r.done + r.skipped == snap.nodes.Keys && r.done !! r.skipped
  {
    RunKeepsKeys(snap, maxIter, state, cs, r, None);
    assert Elements(snap.order) == snap.nodes.Keys;
    forall id | id in snap.nodes
      ensures id in r.done + r.skipped
    {
      assert id in Elements(snap.order);
      if Pending(snap, r, id) {
        PendingReturnsStuck(snap, maxIter, state, cs, r, id);
        NeverStuck(snap, id);
        assert false;
      }
    }
  }

  lemma {:induction false} SelectIgnoresLastDone(snap: Snapshot, r: Run, maxIter: nat, ids: seq<string>)
    ensures Select(snap, r.(lastDone := ""), maxIter, ids) == Select(snap, r, maxIter, ids)
    decreases |ids|
  {
    if ids != [] {
      SelectIgnoresLastDone(snap, r, maxIter, ids[..|ids| - 1]);
      var id, q := ids[|ids| - 1], r.(lastDone := "");
      assert forall j :: Settled(q, j) <==> Settled(r, j);
      assert IterOf(q, id) == IterOf(r, id);
      assert Runnable(snap, q, maxIter, id) <==> Runnable(snap, r, maxIter, id);
    }
  }

  /** The two-idle-rounds guard never stops a run early: after one empty round the loop is at
      a fixed point, so the next turn can only be cancelled or return with nothing changed. */
  lemma IdleIsFixpoint(snap: Snapshot, maxIter: nat, h: Head, c: Choice, h': Head, c': Choice)
    requires WellBuilt(snap) && RunInv(snap, maxIter, h.run)
    requires Turn(snap, maxIter, h, c) == Some(Again(h')) && h'.idle > 0
    requires Turn(snap, maxIter, h', c').Some? && !c'.cancelled
    ensures Turn(snap, maxIter, h', c') == Some(Return(h'.run, None))
    ensures Launch(snap, maxIter, h', c') == []
  {
    SettleSkipsKeepsInv(snap, maxIter, h.run);
    var r := SettleSkips(snap, h.run);
    assert h'.run == Cleared(snap, r);
    SelectIgnoresLastDone(snap, r, maxIter, snap.order);
    assert !Consulted(snap, h'.run);
    assert ToSkip(snap, h'.run) == ToSkip(snap, r) == {};
    assert SettleSkips(snap, h'.run) == h'.run;
    assert ReadySet(snap, h'.run, maxIter) == [];
  }

  // ---- failure -----------------------------------------------------------------------

  /** One failure ends the run, but only at the barrier: every sibling still runs to its end,
      and what did not complete is the reason named or failed beside it. No edge out of a node
      that did not complete dies: nothing ever evaluates them. */
  lemma FailureEndsRun(snap: Snapshot, maxIter: nat, h: Head, c: Choice, r: Run, id: string)
    requires WellBuilt(snap) && RunInv(snap, maxIter, h.run)
    requires Turn(snap, maxIter, h, c) == Some(Return(r, Some(NodeFailed(id))))
    ensures id in Launch(snap, maxIter, h, c)
    ensures forall j :: j in Launch(snap, maxIter, h, c) ==> IterOf(r, j) == IterOf(h.run, j) + 1
    ensures r.failed <= Elements(Launch(snap, maxIter, h, c)) && h.run.done <= r.done
    ensures forall j, to :: j !in r.done && (j, to) in r.dead ==> (j, to) in h.run.dead
    ensures forall to :: (id, to) in r.dead ==> (id, to) in h.run.dead
  {
    var start, launch := Cleared(snap, SettleSkips(snap, h.run)), Launch(snap, maxIter, h, c);
    var end := Play(snap, StartRound(start, Elements(launch)), c.steps).value;
    assert forall j :: j in launch <==> j in Elements(launch);
    RoundFails(snap, start, Elements(launch), c.steps, end, id);
    assert r == EvaluateAll(snap, end.run, end.completions);
    assert forall j :: IterOf(start, j) == IterOf(h.run, j);
  }

  lemma RoundFails(snap: Snapshot, start: Run, launch: set<string>, steps: seq<Step>, end: Round, id: string)
    requires start.failed == {} && Completes(snap, start, launch, steps, end) && end.firstErr == Some(id)
    ensures var r := EvaluateAll(snap, end.run, end.completions);
            && id in launch && r.failed <= launch && start.done <= r.done
            && (forall j :: j in launch ==> IterOf(r, j) == IterOf(start, j) + 1)
            && (forall e :: e in r.dead && (e.0 !in r.done || e.0 == id) ==> e in start.dead)
  {
    var r := EvaluateAll(snap, end.run, end.completions);
    RoundResult(snap, start, launch, steps, end);
    FoldOutgoingExact(snap, end.run, end.completions);
    assert r == end.run.(dead := r.dead, lastDone := r.lastDone);
    assert end.run.failed == end.run.failed - start.failed;
    assert forall j :: IterOf(r, j) == IterOf(end.run, j);
    forall e | e in r.dead && (e.0 !in r.done || e.0 == id)
      ensures e in start.dead
    {
      assert e.0 in end.completions ==> e.0 in Elements(end.completions);
    }
  }

  // ---- termination -------------------------------------------------------------------

  function Remaining(ids: seq<string>, r: Run, maxIter: nat): int {
    if ids == [] then 0 else Remaining(ids[..|ids| - 1], r, maxIter) + maxIter - IterOf(r, ids[|ids| - 1])
  }

  lemma {:induction false} RemainingDrops(ids: seq<string>, r: Run, r': Run, maxIter: nat, launch: set<string>)
    requires NoDup(ids)
    requires forall id :: IterOf(r', id) == IterOf(r, id) + if id in launch then 1 else 0
    ensures Remaining(ids, r', maxIter) + |launch * Elements(ids)| == Remaining(ids, r, maxIter)
    decreases |ids|
  {
    if ids == [] {
      assert launch * Elements(ids) == {};
    } else {
      var front, last := ids[..|ids| - 1], ids[|ids| - 1];
      RemainingDrops(front, r, r', maxIter, launch);
      OneMore(front, last, ids, launch);
      assert IterOf(r', last) == IterOf(r, last) + if last in launch then 1 else 0;
    }
  }

  lemma OneMore(front: seq<string>, last: string, ids: seq<string>, launch: set<string>)
    requires ids == front + [last] && NoDup(ids)
    ensures |launch * Elements(ids)| == |launch * Elements(front)| + if last in launch then 1 else 0
  {
    forall i | 0 <= i < |front|
      ensures front[i] != last
    {
      assert ids[i] == front[i] && ids[|front|] == last;
    }
    assert launch * Elements(ids) == (launch * Elements(front)) + if last in launch then {last} else {};
  }

  lemma {:induction false} RemainingBounds(ids: seq<string>, r: Run, maxIter: nat)
    requires forall id :: IterOf(r, id) <= maxIter
    ensures 0 <= Remaining(ids, r, maxIter)
    decreases |ids|
  {
    if ids != [] {
      RemainingBounds(ids[..|ids| - 1], r, maxIter);
    }
  }

  lemma {:induction false} RemainingFresh(ids: seq<string>, state: State, maxIter: nat)
    ensures Remaining(ids, FreshRun(state), maxIter) == |ids| * maxIter
    decreases |ids|
  {
    if ids != [] {
      RemainingFresh(ids[..|ids| - 1], state, maxIter);
    }
  }

  /** The loop's variant: executions left, then empty rounds left. */
  function Variant(snap: Snapshot, maxIter: nat, h: Head): int {
    2 * Remaining(snap.order, h.run, maxIter) + 2 - h.idle
  }

  /** A turn that continues counts one execution for each launched node. */
  lemma TurnCounts(snap: Snapshot, maxIter: nat, h: Head, c: Choice, h': Head)
    requires Turn(snap, maxIter, h, c) == Some(Again(h'))
    ensures forall id :: IterOf(h'.run, id) ==
              IterOf(h.run, id) + if id in Elements(Launch(snap, maxIter, h, c)) then 1 else 0
    ensures Launch(snap, maxIter, h, c) != [] ==> h'.idle == 0
    ensures Launch(snap, maxIter, h, c) == [] ==> h'.idle == h.idle + 1
  {
    var launch := Launch(snap, maxIter, h, c);
    var r := Cleared(snap, SettleSkips(snap, h.run));
    assert forall id :: IterOf(r, id) == IterOf(h.run, id);
    if launch != [] {
      var end := Play(snap, StartRound(r, Elements(launch)), c.steps).value;
      RoundResult(snap, r, Elements(launch), c.steps, end);
      FoldOutgoingExact(snap, end.run, end.completions);
      assert forall id :: IterOf(h'.run, id) == IterOf(end.run, id);
    }
  }

  /** Every turn that continues spends exactly its launches, and the variant falls. */
  lemma TurnSpends(snap: Snapshot, maxIter: nat, h: Head, c: Choice, h': Head)
    requires WellBuilt(snap) && h.idle <= 1
    requires Turn(snap, maxIter, h, c) == Some(Again(h'))
    ensures Remaining(snap.order, h'.run, maxIter) + |Launch(snap, maxIter, h, c)| ==
              Remaining(snap.order, h.run, maxIter)
    ensures Variant(snap, maxIter, h') < Variant(snap, maxIter, h)
  {
    var launch := Launch(snap, maxIter, h, c);
    LaunchRule(snap, maxIter, h, c);
    ListSize(launch, Elements(launch));
    TurnCounts(snap, maxIter, h, c, h');
    RemainingDrops(snap.order, h.run, h'.run, maxIter, Elements(launch));
    assert Elements(launch) * Elements(snap.order) == Elements(launch);
  }

  /** How many node executions the choices `cs` started. */
  ghost function Executions(snap: Snapshot, maxIter: nat, start: Run, cs: seq<Choice>): nat
    requires Exec(snap, maxIter, start, cs).Some?
  {
    if cs == [] then 0
    else
      var front := cs[..|cs| - 1];
      Executions(snap, maxIter, start, front)
      + if cs[|cs| - 1].cancelled then 0
          else |Launch(snap, maxIter, Exec(snap, maxIter, start, front).value.head, cs[|cs| - 1])|
  }

  lemma {:induction false} ReachBudget(snap: Snapshot, maxIter: nat, state: State, cs: seq<Choice>, h: Head)
    requires WellBuilt(snap) && Reaches(snap, maxIter, state, cs, h)
    ensures Executions(snap, maxIter, FreshRun(state), cs) + Remaining(snap.order, h.run, maxIter) ==
              |snap.order| * maxIter
    ensures |cs| + Variant(snap, maxIter, h) <= 2 * (|snap.order| * maxIter) + 2
    decreases |cs|
  {
    if cs == [] {
      RemainingFresh(snap.order, state, maxIter);
    } else {
      var front := cs[..|cs| - 1];
      var before := Exec(snap, maxIter, FreshRun(state), front).value.head;
      ReachableInv(snap, maxIter, state, front, before);
      ReachBudget(snap, maxIter, state, front, before);
      TurnSpends(snap, maxIter, before, cs[|cs| - 1], h);
      assert !cs[|cs| - 1].cancelled;
    }
  }

  /** Termination for every router, schedule and node outcome: a run takes at most
      2 * nodes * maxIter + 3 turns and starts at most nodes * maxIter executions. */
  lemma RunsAreBounded(snap: Snapshot, maxIter: nat, state: State, cs: seq<Choice>)
    requires WellBuilt(snap) && Exec(snap, maxIter, FreshRun(state), cs).Some?
    ensures |cs| <= 2 * (|snap.nodes| * maxIter) + 3
    ensures Executions(snap, maxIter, FreshRun(state), cs) <= |snap.nodes| * maxIter
  {
    ListSize(snap.order, snap.nodes.Keys);
    assert |snap.order| == |snap.nodes|;
    match Exec(snap, maxIter, FreshRun(state), cs).value
    case Again(h) =>
      ReachableInv(snap, maxIter, state, cs, h);
      ReachBudget(snap, maxIter, state, cs, h);
      RemainingBounds(snap.order, h.run, maxIter);
    case Return(r, err) =>
      var h := LastHead(snap, maxIter, state, cs, r, err);
      ReachBudget(snap, maxIter, state, cs[..|cs| - 1], h);
      RemainingBounds(snap.order, h.run, maxIter);
      LaunchWithinBudget(snap, maxIter, h, cs[|cs| - 1]);
  }

  /** The run with one more execution of every launched node counted. */
  function CountAll(r: Run, launch: set<string>): (r': Run)
    ensures forall id :: IterOf(r', id) == IterOf(r, id) + if id in launch then 1 else 0
  {
    r.(iter := map id | id in r.iter.Keys + launch :: IterOf(r, id) + if id in launch then 1 else 0)
  }

  /** A turn never launches more than the remaining budget. */
  lemma LaunchWithinBudget(snap: Snapshot, maxIter: nat, h: Head, c: Choice)
    requires WellBuilt(snap) && RunInv(snap, maxIter, h.run)
    ensures |Launch(snap, maxIter, h, c)| <= Remaining(snap.order, h.run, maxIter)
  {
    var launch := Launch(snap, maxIter, h, c);
    LaunchRule(snap, maxIter, h, c);
    ListSize(launch, Elements(launch));
    var counted := CountAll(h.run, Elements(launch));
    RemainingDrops(snap.order, h.run, counted, maxIter, Elements(launch));
    assert Elements(launch) * Elements(snap.order) == Elements(launch);
    RemainingBounds(snap.order, counted, maxIter);
  }

  // ---- JoinAll over whole runs ---------------------------------------------------------

  /** The nodes launched by turn `i` of a run. */
  ghost function LaunchedAt(snap: Snapshot, maxIter: nat, start: Run, cs: seq<Choice>, i: nat): set<string>
    requires i < |cs|
  {
    match Exec(snap, maxIter, start, cs[..i])
    case Some(Again(h)) => if cs[i].cancelled then {} else Elements(Launch(snap, maxIter, h, cs[i]))
    case _ => {}
  }

  lemma LaunchedAtPrefix(snap: Snapshot, maxIter: nat, start: Run, cs: seq<Choice>, n: nat, i: nat)
    requires i < n <= |cs|
    ensures LaunchedAt(snap, maxIter, start, cs[..n], i) == LaunchedAt(snap, maxIter, start, cs, i)
  {
    assert cs[..n][..i] == cs[..i];
  }

  /** One more turn: what is done afterwards was done before or launched by it. */
  lemma LastTurn(snap: Snapshot, maxIter: nat, state: State, cs: seq<Choice>, h: Head) returns (before: Head)
    requires WellBuilt(snap) && Reaches(snap, maxIter, state, cs, h) && cs != []
    ensures Reaches(snap, maxIter, state, cs[..|cs| - 1], before)
    ensures h.run.done == before.run.done + LaunchedAt(snap, maxIter, FreshRun(state), cs, |cs| - 1)
  {
    before := Exec(snap, maxIter, FreshRun(state), cs[..|cs| - 1]).value.head;
    ReachableInv(snap, maxIter, state, cs[..|cs| - 1], before);
    TurnKeepsInv(snap, maxIter, before, cs[|cs| - 1]);
  }

  /** Whatever is done was launched by an earlier turn. */
  lemma {:induction false} DoneWasLaunched(snap: Snapshot, maxIter: nat, state: State, cs: seq<Choice>, h: Head,
                                           id: string)
    returns (i: nat)
    requires WellBuilt(snap) && Reaches(snap, maxIter, state, cs, h) && id in h.run.done
    ensures i < |cs| && id in LaunchedAt(snap, maxIter, FreshRun(state), cs, i)
    decreases |cs|
  {
    var n := |cs| - 1;
    var before := LastTurn(snap, maxIter, state, cs, h);
    if id in before.run.done {
      var front := cs[..n];
      i := DoneWasLaunched(snap, maxIter, state, front, before, id);
      assert id in LaunchedAt(snap, maxIter, FreshRun(state), cs, i) by {
        LaunchedAtPrefix(snap, maxIter, FreshRun(state), cs, n, i);
      }
    } else {
      i := n;
    }
  }

  /** The router's own pick, launched alone. */
  predicate Forced(snap: Snapshot, maxIter: nat, h: Head, c: Choice, id: string) {
    Forces(snap, maxIter, SettleSkips(snap, h.run), c.routed) && c.routed == id && Launch(snap, maxIter, h, c) == [id]
  }

  /** When a turn launches `id`, either the router forces it alone, or `id` has never run,
      every source was launched in an earlier turn and is done or was skipped before this one,
      none runs beside it, and some incoming edge is alive unless `id` is a root. */
  lemma JoinAll(snap: Snapshot, maxIter: nat, state: State, cs: seq<Choice>, h: Head, c: Choice, id: string)
    requires WellBuilt(snap) && Reaches(snap, maxIter, state, cs, h)
    requires !c.cancelled && Turn(snap, maxIter, h, c).Some? && id in Launch(snap, maxIter, h, c)
    ensures Forced(snap, maxIter, h, c, id)
            || (&& IterOf(h.run, id) == 0
                && (forall from :: from in Ins(snap, id) ==> from !in Launch(snap, maxIter, h, c))
                && (forall from :: from in Ins(snap, id) ==>
                      from in SettleSkips(snap, h.run).skipped
                      || (from in h.run.done && exists i: nat ::
                            i < |cs| && from in LaunchedAt(snap, maxIter, FreshRun(state), cs, i)))
                && (Ins(snap, id) == [] || Live(snap, h.run, id)))
  {
    ReachableInv(snap, maxIter, state, cs, h);
    LaunchRule(snap, maxIter, h, c);
    var r := SettleSkips(snap, h.run);
    if !Forced(snap, maxIter, h, c, id) {
      assert Runnable(snap, r, maxIter, id);
      forall from | from in Ins(snap, id)
        ensures from in r.skipped
                || (from in h.run.done && exists i: nat ::
                      i < |cs| && from in LaunchedAt(snap, maxIter, FreshRun(state), cs, i))
        ensures from !in Launch(snap, maxIter, h, c)
      {
        assert Settled(r, from);
        if from in h.run.done {
          var i := DoneWasLaunched(snap, maxIter, state, cs, h, from);
        }
      }
    }
  }

  /** Without a router no node is ever executed twice. */
  lemma RunsOnceWithoutRouter(snap: Snapshot, maxIter: nat, state: State, cs: seq<Choice>, i: nat, j: nat, id: string)
    requires WellBuilt(snap) && snap.router.None?
    requires Exec(snap, maxIter, FreshRun(state), cs).Some? && i < j < |cs|
    requires id in LaunchedAt(snap, maxIter, FreshRun(state), cs, i)
    ensures id !in LaunchedAt(snap, maxIter, FreshRun(state), cs, j)
  {
    PrefixRuns(snap, maxIter, state, cs, j);
    var h := Exec(snap, maxIter, FreshRun(state), cs[..j]).value.head;
    LaunchedAtPrefix(snap, maxIter, FreshRun(state), cs, j, i);
    LaunchedStaysDone(snap, maxIter, state, cs[..j], h, i, id);
    DoneNotLaunched(snap, maxIter, h, cs[j], id);
  }

  lemma DoneNotLaunched(snap: Snapshot, maxIter: nat, h: Head, c: Choice, id: string)
    requires WellBuilt(snap) && snap.router.None? && id in h.run.done
    ensures id !in Elements(Launch(snap, maxIter, h, c))
  {
    LaunchRule(snap, maxIter, h, c);
  }

  lemma {:induction false} PrefixRuns(snap: Snapshot, maxIter: nat, state: State, cs: seq<Choice>, i: nat)
    requires Exec(snap, maxIter, FreshRun(state), cs).Some? && i < |cs|
    ensures Exec(snap, maxIter, FreshRun(state), cs[..i]).Some?
    ensures Exec(snap, maxIter, FreshRun(state), cs[..i]).value.Again?
    decreases |cs|
  {
    if i < |cs| - 1 {
      PrefixRuns(snap, maxIter, state, cs[..|cs| - 1], i);
      assert cs[..|cs| - 1][..i] == cs[..i];
    }
  }

  lemma {:induction false} LaunchedStaysDone(snap: Snapshot, maxIter: nat, state: State, cs: seq<Choice>, h: Head,
                                             i: nat, id: string)
    requires WellBuilt(snap) && Reaches(snap, maxIter, state, cs, h)
    requires i < |cs| && id in LaunchedAt(snap, maxIter, FreshRun(state), cs, i)
    ensures id in h.run.done
    decreases |cs|
  {
    var before := LastTurn(snap, maxIter, state, cs, h);
    if i < |cs| - 1 {
      LaunchedBefore(snap, maxIter, FreshRun(state), cs, i);
      LaunchedStaysDone(snap, maxIter, state, cs[..|cs| - 1], before, i, id);
    }
  }

  lemma LaunchedBefore(snap: Snapshot, maxIter: nat, start: Run, cs: seq<Choice>, i: nat)
    requires i < |cs| - 1
    ensures LaunchedAt(snap, maxIter, start, cs[..|cs| - 1], i) == LaunchedAt(snap, maxIter, start, cs, i)
  {
    LaunchedAtPrefix(snap, maxIter, start, cs, |cs| - 1, i);
  }
}
