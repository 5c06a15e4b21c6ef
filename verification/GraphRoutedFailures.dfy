/** Failures when a router is installed. It may force any node at any time, done ones again, so a
    failure can strike almost anywhere; here is exactly which graphs, cyclic ones included, still
    keep the promise that only what depends on the failing node is left behind. */
module GraphRoutedFailures {
  import opened Basics
  import opened Digraph
  import opened GraphModel
  import opened GraphRound
  import opened GraphRuns
  import opened GraphSkips
  import opened GraphFailures

  /** In every failing run, whatever the nodes, conditions and router do, the promise holds. */
  ghost predicate AlwaysConfinedRouted(shape: Snapshot, maxIter: nat, state: State) {
    forall snap, cs, r, id ::
      WellBuilt(snap) && SameShape(snap, shape) && Returns(snap, maxIter, state, cs, r, Some(NodeFailed(id)))
      ==> Confined(snap, r)
  }

  /** Checkable before the run: no run ever starts, or every node with a source depends on every node. */
  ghost predicate AllBehind(shape: Snapshot) {
    HasRoot(shape) ==>
      forall v, w :: v in shape.nodes && w in shape.nodes && Ins(shape, w) != [] ==> DependsOn(shape.ins, w, v)
  }

  // ---- a failing run of such a graph ---------------------------------------------------------

  /** Whoever is done has an executable kind. */
  lemma {:induction false} DoneIsExecutable(snap: Snapshot, maxIter: nat, state: State, cs: seq<Choice>, h: Head)
    requires Reaches(snap, maxIter, state, cs, h)
    ensures forall id :: id in h.run.done ==> Executable(snap, id)
    decreases |cs|
  {
    if cs != [] {
      var front, c := cs[..|cs| - 1], cs[|cs| - 1];
      var before := Exec(snap, maxIter, FreshRun(state), front).value.head;
      DoneIsExecutable(snap, maxIter, state, front, before);
      var launch := Launch(snap, maxIter, before, c);
      if launch != [] {
        var start := Cleared(snap, SettleSkips(snap, before.run));
        var end := Play(snap, StartRound(start, Elements(launch)), c.steps).value;
        CompletedIsExecutable(snap, start, Elements(launch), c.steps, end);
      }
    }
  }

  lemma CompletedIsExecutable(snap: Snapshot, start: Run, launch: set<string>, steps: seq<Step>, end: Round)
    requires Completes(snap, start, launch, steps, end)
    ensures var r := EvaluateAll(snap, end.run, end.completions);
            forall id :: id in r.done ==> id in start.done || Executable(snap, id)
    ensures forall id :: end.firstErr == Some(id) ==>
              id in launch && (id in start.done && Executable(snap, id) ==> id in end.run.failed)
    ensures forall id :: end.firstErr == Some(id) && id !in start.done ==> id !in end.run.done
  {
    RoundResult(snap, start, launch, steps, end);
    VerdictsRecorded(snap, start, launch, steps, end);
    ConditionsAfter(snap, start, launch, steps, end);
    assert forall id :: id in end.completions <==> id in Elements(end.completions);
    assert forall id :: id in launch - Elements(end.completions) ==> id in Gone(launch, end);
  }

  /** The node named by the error is one that was launched and did not complete. */
  lemma FailedIsStopped(snap: Snapshot, maxIter: nat, state: State, cs: seq<Choice>, h: Head, c: Choice, r: Run,
                        id: string)
    requires WellBuilt(snap) && Reaches(snap, maxIter, state, cs, h)
    requires Turn(snap, maxIter, h, c) == Some(Return(r, Some(NodeFailed(id))))
    ensures Stopped(r, id) && id in snap.nodes
    ensures forall j :: j in Launch(snap, maxIter, h, c) ==> IterOf(r, j) > 0
    ensures h.run.done <= r.done
  {
    ReachableInv(snap, maxIter, state, cs, h);
    DoneIsExecutable(snap, maxIter, state, cs, h);
    LaunchRule(snap, maxIter, h, c);
    FailureEndsRun(snap, maxIter, h, c, r, id);
    var start, launch := Cleared(snap, SettleSkips(snap, h.run)), Launch(snap, maxIter, h, c);
    var end := Play(snap, StartRound(start, Elements(launch)), c.steps).value;
    CompletedIsExecutable(snap, start, Elements(launch), c.steps, end);
    ConditionsAfter(snap, start, Elements(launch), c.steps, end);
    assert id in Elements(launch);
  }

  /** The first turn launches every root, whatever the router. */
  lemma RootsGoFirst(snap: Snapshot, maxIter: nat, state: State, c: Choice, id: string)
    requires WellBuilt(snap) && maxIter >= 1 && id in snap.nodes
    ensures id in Launch(snap, maxIter, Head(FreshRun(state), 0), c) <==> Ins(snap, id) == []
  {
    var r := SettleSkips(snap, FreshRun(state));
    assert id in Elements(snap.order);
    forall j
      ensures j !in ToSkip(snap, FreshRun(state))
    {
      assert Ins(snap, j) != [] ==> Ins(snap, j)[0] in Ins(snap, j) && (Ins(snap, j)[0], j) !in r.dead;
    }
    assert r.skipped == {};
    if Ins(snap, id) != [] {
      assert Ins(snap, id)[0] in Ins(snap, id) && !Settled(r, Ins(snap, id)[0]);
      assert Blocked(snap, r, id);
    }
  }

  /** After the first turn every root is done. */
  lemma {:induction false} RootsAreDone(snap: Snapshot, maxIter: nat, state: State, cs: seq<Choice>, h: Head,
                                        id: string)
    requires WellBuilt(snap) && maxIter >= 1 && cs != [] && Reaches(snap, maxIter, state, cs, h)
    requires id in snap.nodes && Ins(snap, id) == []
    ensures id in h.run.done
    decreases |cs|
  {
    var front, c := cs[..|cs| - 1], cs[|cs| - 1];
    var before := LastTurn(snap, maxIter, state, cs, h);
    if front == [] {
      RootsGoFirst(snap, maxIter, state, c, id);
      assert cs[..0] == [];
      assert id in LaunchedAt(snap, maxIter, FreshRun(state), cs, 0);
    } else {
      RootsAreDone(snap, maxIter, state, front, before, id);
    }
  }

  /** A root that a failing run leaves pending was launched by its first turn, which failed. */
  lemma PendingRoot(snap: Snapshot, maxIter: nat, state: State, front: seq<Choice>, h: Head, c: Choice, r: Run,
                    w: string)
    requires WellBuilt(snap) && maxIter >= 1 && Reaches(snap, maxIter, state, front, h)
    requires w in snap.nodes && Ins(snap, w) == [] && w !in r.done && h.run.done <= r.done
    requires forall j :: j in Launch(snap, maxIter, h, c) ==> IterOf(r, j) > 0
    ensures Stopped(r, w)
  {
    if front == [] {
      RootsGoFirst(snap, maxIter, state, c, w);
    } else {
      RootsAreDone(snap, maxIter, state, front, h, w);
    }
  }

  lemma FailuresNeedRoots(snap: Snapshot, maxIter: nat, state: State, front: seq<Choice>, h: Head, c: Choice, r: Run,
                          id: string)
    requires WellBuilt(snap) && Reaches(snap, maxIter, state, front, h)
    requires Turn(snap, maxIter, h, c) == Some(Return(r, Some(NodeFailed(id))))
    ensures HasRoot(snap)
  {
    if !HasRoot(snap) {
      RootlessStandsStill(snap, maxIter, state, front, h);
      RootlessIdles(snap, maxIter, state);
    }
  }

  lemma AllBehindConfines(snap: Snapshot, maxIter: nat, state: State, cs: seq<Choice>, r: Run, id: string)
    requires WellBuilt(snap) && maxIter >= 1 && AllBehind(snap)
    requires Returns(snap, maxIter, state, cs, r, Some(NodeFailed(id)))
    ensures Confined(snap, r)
  {
    var front, c := cs[..|cs| - 1], cs[|cs| - 1];
    var h := LastHead(snap, maxIter, state, cs, r, Some(NodeFailed(id)));
    FailedIsStopped(snap, maxIter, state, front, h, c, r, id);
    FailuresNeedRoots(snap, maxIter, state, front, h, c, r, id);
    forall w | Pending(snap, r, w)
      ensures WaitsForStopped(snap, r, w)
    {
      assert w in Elements(snap.order);
      if Ins(snap, w) != [] {
        assert DependsOn(snap.ins, w, id);
      } else {
        PendingRoot(snap, maxIter, state, front, h, c, r, w);
        DependsOnItself(snap.ins, w);
      }
    }
  }

  // ---- a node that is not behind another ------------------------------------------------------

  function Roots(snap: Snapshot): set<string> {
    set u | u in snap.nodes && Ins(snap, u) == []
  }

  /** No condition ever fails, every node but `v` can succeed, `v` always fails, and the router may
      name any node. */
  ghost predicate Detours(snap: Snapshot, v: string) {
    FailsAt(snap, {}, v) && snap.router == Wandering(snap.order)
  }

  /** Nothing has been skipped or killed so far. */
  predicate AllOpen(r: Run) {
    r.failed == {} && r.skipped == {} && r.dead == {}
  }

  lemma OpenSettlesNothing(snap: Snapshot, r: Run)
    requires AllOpen(r)
    ensures SettleSkips(snap, r) == r
  {
    forall j
      ensures j !in ToSkip(snap, r)
    {
      assert Ins(snap, j) != [] ==> Ins(snap, j)[0] in Ins(snap, j) && (Ins(snap, j)[0], j) !in r.dead;
    }
    assert ToSkip(snap, r) == {} && r.skipped + {} == r.skipped;
  }

  lemma TurnStaysOpen(snap: Snapshot, maxIter: nat, v: string, h: Head, c: Choice, h': Head)
    requires FailsAt(snap, {}, v) && AllOpen(h.run) && Turn(snap, maxIter, h, c) == Some(Again(h'))
    ensures AllOpen(h'.run)
  {
    OpenSettlesNothing(snap, h.run);
    var r, launch := Cleared(snap, h.run), Launch(snap, maxIter, h, c);
    if launch != [] {
      var end := Play(snap, StartRound(r, Elements(launch)), c.steps).value;
      RoundResult(snap, r, Elements(launch), c.steps, end);
      FoldOutgoingExact(snap, end.run, end.completions);
      forall e
        ensures !Killed(snap, end.run, e)
      {
        assert !CondFails(snap, end.run.state, e);
      }
      assert h'.run.dead == {};
    }
  }

  lemma FirstLaunch(snap: Snapshot, maxIter: nat, state: State, c: Choice)
    requires WellBuilt(snap) && maxIter >= 1
    ensures Elements(Launch(snap, maxIter, Head(FreshRun(state), 0), c)) == Roots(snap)
  {
    var launch := Launch(snap, maxIter, Head(FreshRun(state), 0), c);
    LaunchRule(snap, maxIter, Head(FreshRun(state), 0), c);
    forall u
      ensures u in Elements(launch) <==> u in Roots(snap)
    {
      if u in snap.nodes {
        RootsGoFirst(snap, maxIter, state, c, u);
      }
    }
  }

  /** A first turn in which every root succeeds. */
  lemma RootsSucceed(snap: Snapshot, maxIter: nat, state: State, v: string) returns (cs: seq<Choice>, h: Head)
    requires Detours(snap, v) && maxIter >= 1 && HasRoot(snap) && Ins(snap, v) != []
    ensures Reaches(snap, maxIter, state, cs, h) && RunInv(snap, maxIter, h.run)
    ensures AllOpen(h.run) && h.run.done == Roots(snap) && h.run.lastDone != ""
  {
    var first, c := Head(FreshRun(state), 0), Choice(false, "", []);
    FirstLaunch(snap, maxIter, state, c);
    var root :| root in snap.nodes && Ins(snap, root) == [];
    assert root in Roots(snap) && v !in Roots(snap);
    assert forall u :: u in Launch(snap, maxIter, first, c) ==> u in Roots(snap);
    c, h := SuccessfulTurn(snap, maxIter, first, "");
    cs := [c];
    assert cs[..0] == [];
    ReachableInv(snap, maxIter, state, cs, h);
    RootsSettled(snap, maxIter, state, v, c, h);
  }

  lemma RootsSettled(snap: Snapshot, maxIter: nat, state: State, v: string, c: Choice, h: Head)
    requires FailsAt(snap, {}, v) && maxIter >= 1 && Turn(snap, maxIter, Head(FreshRun(state), 0), c) == Some(Again(h))
    ensures AllOpen(h.run) && h.run.done == Roots(snap)
  {
    var first := Head(FreshRun(state), 0);
    FirstLaunch(snap, maxIter, state, c);
    TurnKeepsInv(snap, maxIter, first, c);
    TurnStaysOpen(snap, maxIter, v, first, c, h);
  }

  /** Where the failure of `v` leaves a run in which only roots completed. */
  ghost predicate StruckAt(snap: Snapshot, v: string, r: Run) {
    r.done <= Roots(snap) && r.skipped == {} && r.failed == {v} && forall u :: Stopped(r, u) ==> u == v
  }

  /** The round in which `v` fails beside the nodes of `launch`. */
  lemma StrikeRound(snap: Snapshot, v: string, r: Run, launch: set<string>) returns (steps: seq<Step>, end: Round)
    requires FailsAt(snap, {}, v) && AllOpen(r) && v in launch && launch <= snap.nodes.Keys
    requires r.done + launch - {v} <= Roots(snap) && v !in r.done
    requires forall u :: IterOf(r, u) == 0 <==> u !in r.done
    ensures Completes(snap, r, launch, steps, end) && end.firstErr == Some(v)
    ensures StruckAt(snap, v, EvaluateAll(snap, end.run, end.completions))
  {
    steps, end := BadRound(snap, {}, v, r, launch);
    ConditionsAfter(snap, r, launch, steps, end);
  }

  /** `v` is a root and fails in the first turn. */
  lemma RootStruck(snap: Snapshot, maxIter: nat, state: State, v: string) returns (cs: seq<Choice>, r: Run)
    requires Detours(snap, v) && maxIter >= 1 && Ins(snap, v) == []
    ensures Returns(snap, maxIter, state, cs, r, Some(NodeFailed(v))) && StruckAt(snap, v, r)
  {
    var first, c := Head(FreshRun(state), 0), Choice(false, "", []);
    var launch := Launch(snap, maxIter, first, c);
    FirstLaunch(snap, maxIter, state, c);
    OpenSettlesNothing(snap, first.run);
    assert v in Roots(snap);
    var steps, end := StrikeRound(snap, v, first.run, Elements(launch));
    c := Choice(false, "", steps);
    assert Launch(snap, maxIter, first, c) == launch;
    r := EvaluateAll(snap, end.run, end.completions);
    cs := EndingTurn(snap, maxIter, state, [], first, c, r, Some(NodeFailed(v)));
  }

  /** `v` is no root: the router forces it once the roots are done. */
  lemma ForcedStruck(snap: Snapshot, maxIter: nat, state: State, v: string) returns (cs: seq<Choice>, r: Run)
    requires Detours(snap, v) && maxIter >= 1 && HasRoot(snap) && Ins(snap, v) != []
    ensures Returns(snap, maxIter, state, cs, r, Some(NodeFailed(v))) && StruckAt(snap, v, r)
  {
    var h: Head;
    cs, h := RootsSucceed(snap, maxIter, state, v);
    OpenSettlesNothing(snap, h.run);
    CanForce(snap, maxIter, h.run, v);
    var start := Cleared(snap, h.run);
    assert forall u :: IterOf(start, u) == IterOf(h.run, u);
    assert Elements([v]) == {v};
    var steps, end := StrikeRound(snap, v, start, {v});
    r := EvaluateAll(snap, end.run, end.completions);
    cs := EndingTurn(snap, maxIter, state, cs, h, Choice(false, v, steps), r, Some(NodeFailed(v)));
  }

  lemma StruckIsNotConfined(snap: Snapshot, v: string, r: Run, w: string)
    requires WellBuilt(snap) && StruckAt(snap, v, r)
    requires w in snap.nodes && Ins(snap, w) != [] && !DependsOn(snap.ins, w, v)
    ensures !Confined(snap, r)
  {
    DependsOnItself(snap.ins, v);
    assert w in Elements(snap.order);
    assert w !in Roots(snap);
    assert Pending(snap, r, w) && !WaitsForStopped(snap, r, w);
  }

  /** For every graph with a root, and nodes `v` and `w` of which `w` has a source but does not
      depend on `v`, there are node bodies, conditions and a router, and a run, in which `v` fails
      and `w` is left behind. */
  lemma NotBehindFails(shape: Snapshot, maxIter: nat, state: State, v: string, w: string)
    returns (snap: Snapshot, cs: seq<Choice>, r: Run)
    requires WellBuilt(shape) && maxIter >= 1 && HasRoot(shape)
    requires v in shape.nodes && w in shape.nodes && Ins(shape, w) != [] && !DependsOn(shape.ins, w, v)
    ensures WellBuilt(snap) && SameShape(snap, shape)
    ensures Returns(snap, maxIter, state, cs, r, Some(NodeFailed(v))) && !Confined(snap, r)
  {
    var router := Wandering(shape.order);
    snap := Failing(shape, {}, v, router);
    FailingShape(shape, {}, v, router);
    SameRoots(snap, shape, w);
    assert Ins(snap, w) == Ins(shape, w) && w in snap.nodes.Keys;
    if Ins(snap, v) == [] {
      cs, r := RootStruck(snap, maxIter, state, v);
    } else {
      cs, r := ForcedStruck(snap, maxIter, state, v);
    }
    StruckIsNotConfined(snap, v, r, w);
  }

  // ---- the exact condition ----------------------------------------------------------------------

  lemma SameShapeBehind(a: Snapshot, b: Snapshot)
    requires SameShape(a, b)
    ensures AllBehind(a) <==> AllBehind(b)
  {
    SameRoots(a, b, "");
    assert forall u :: Ins(a, u) == Ins(b, u);
    assert forall u :: u in a.nodes <==> u in a.nodes.Keys;
    assert forall u :: u in b.nodes <==> u in b.nodes.Keys;
  }

  /** For all graphs and all routers: the promise holds in every failing run exactly when no run
      can start or every node with a source depends on every node. */
  lemma RoutedFailureConfinedExactly(shape: Snapshot, maxIter: nat, state: State)
    requires WellBuilt(shape) && maxIter >= 1
    ensures AllBehind(shape) <==> AlwaysConfinedRouted(shape, maxIter, state)
  {
    if AllBehind(shape) {
      forall snap, cs, r, id | WellBuilt(snap) && SameShape(snap, shape)
                               && Returns(snap, maxIter, state, cs, r, Some(NodeFailed(id)))
        ensures Confined(snap, r)
      {
        SameShapeBehind(snap, shape);
        AllBehindConfines(snap, maxIter, state, cs, r, id);
      }
    } else {
      var v, w :| v in shape.nodes && w in shape.nodes && Ins(shape, w) != [] && !DependsOn(shape.ins, w, v);
      var snap, cs, r := NotBehindFails(shape, maxIter, state, v, w);
    }
  }

  /** In an acyclic graph that leaves room for one node with sources at most, behind every other. */
  lemma AcyclicBehind(shape: Snapshot, v: string, w: string)
    requires AllBehind(shape) && HasRoot(shape) && Acyclic(shape.ins)
    requires v in shape.nodes && Ins(shape, v) != [] && w in shape.nodes && Ins(shape, w) != []
    ensures v == w
  {
    if v != w {
      var there :| WalksTo(shape.ins, there, v, w);
      var back :| WalksTo(shape.ins, back, w, v);
      RoundTripIsCycle(shape.ins, there, back);
    }
  }

  lemma RoundTripIsCycle(g: Preds, there: seq<string>, back: seq<string>)
    requires |there| >= 1 && |back| >= 2 && Walk(g, there) && Walk(g, back)
    requires there[|there| - 1] == back[0] && back[|back| - 1] == there[0]
    ensures !Acyclic(g)
  {
    var w := there + back[1..];
    forall i | 0 <= i < |w| - 1
      ensures Hop(g, w, i)
    {
      if i < |there| - 1 {
        assert Hop(g, there, i);
      } else {
        assert Hop(g, back, i - (|there| - 1));
      }
    }
    assert Cycle(g, w);
  }
}
