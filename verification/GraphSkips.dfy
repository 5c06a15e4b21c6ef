/** The documentation promises that a skip cascades: a skipped node's outgoing edges die too.
    The code never kills them. Here is exactly which graphs never notice. */
module GraphSkips {
  import opened Basics
  import opened Digraph
  import opened GraphModel
  import opened GraphRound
  import opened GraphRuns

  /** The documented promise, at one moment of a run. */
  ghost predicate Cascaded(snap: Snapshot, r: Run) {
    forall id, to :: id in r.skipped && to in Outs(snap, id) ==> (id, to) in r.dead
  }

  /** A node that can be skipped at all: it has incoming edges and each carries a condition. */
  ghost predicate Guarded(snap: Snapshot, id: string) {
    Ins(snap, id) != [] && forall from :: from in Ins(snap, id) ==> CondOf(snap, (from, id)).Some?
  }

  /** A node that some run skips, if any run starts at all: its conditions can fail one by one
      because each source can complete before it. */
  ghost predicate Starvable(snap: Snapshot, id: string) {
    && id in snap.nodes && Guarded(snap, id) && id !in Ins(snap, id)
    && forall from :: from in Ins(snap, id) ==> from in snap.nodes
  }

  ghost predicate HasRoot(snap: Snapshot) {
    exists id :: id in snap.nodes && Ins(snap, id) == []
  }

  /** Checkable before the run: no run ever starts, or no node that can be skipped has a successor. */
  ghost predicate SafeShape(snap: Snapshot) {
    !HasRoot(snap) || forall id :: Starvable(snap, id) ==> Outs(snap, id) == []
  }

  /** The same nodes, edges and conditional edges; node bodies and conditions may differ. */
  ghost predicate SameShape(a: Snapshot, b: Snapshot) {
    && a.nodes.Keys == b.nodes.Keys && a.order == b.order && a.ins == b.ins && a.outs == b.outs
    && forall e :: CondOf(a, e).Some? <==> CondOf(b, e).Some?
  }

  /** In every reachable run the skip of a node leaves all its outgoing edges alive, so none
      of its successors is ever skipped: the cascade never takes a second step. */
  lemma SkipNeverCascades(snap: Snapshot, maxIter: nat, r: Run, id: string, to: string)
    requires WellBuilt(snap) && RunInv(snap, maxIter, r)
    requires id in r.skipped && to in Outs(snap, id)
    ensures (id, to) !in r.dead && to !in r.skipped
  {
    assert id in Ins(snap, to);
  }

  /** Whoever is skipped could be: its sources ran, and it is not one of them. */
  lemma SkippedIsStarvable(snap: Snapshot, maxIter: nat, r: Run, id: string)
    requires RunInv(snap, maxIter, r) && id in r.skipped
    ensures Starvable(snap, id)
  {
    forall from | from in Ins(snap, id)
      ensures from in r.done && CondOf(snap, (from, id)).Some?
    {
      assert (from, id) in r.dead;
    }
  }

  /** Without a root nothing ever happens: every node waits, and the router is never asked. */
  lemma {:induction false} RootlessStandsStill(snap: Snapshot, maxIter: nat, state: State, cs: seq<Choice>, h: Head)
    requires WellBuilt(snap) && !HasRoot(snap) && Reaches(snap, maxIter, state, cs, h)
    ensures h.run == FreshRun(state)
    decreases |cs|
  {
    if cs != [] {
      var front := cs[..|cs| - 1];
      var before := Exec(snap, maxIter, FreshRun(state), front).value.head;
      RootlessStandsStill(snap, maxIter, state, front, before);
      RootlessIdles(snap, maxIter, state);
    }
  }

  lemma {:induction false} NoneSelected(snap: Snapshot, r: Run, maxIter: nat, ids: seq<string>)
    requires forall id :: id in ids ==> !Runnable(snap, r, maxIter, id)
    ensures Select(snap, r, maxIter, ids) == []
    decreases |ids|
  {
    if ids != [] {
      NoneSelected(snap, r, maxIter, ids[..|ids| - 1]);
    }
  }

  lemma RootlessIdles(snap: Snapshot, maxIter: nat, state: State)
    requires WellBuilt(snap) && !HasRoot(snap)
    ensures SettleSkips(snap, FreshRun(state)) == FreshRun(state) && ReadySet(snap, FreshRun(state), maxIter) == []
  {
    var r := FreshRun(state);
    forall id | id in snap.order
      ensures id !in ToSkip(snap, r) && !Runnable(snap, r, maxIter, id)
    {
      assert id in Elements(snap.order);
      assert Ins(snap, id)[0] in Ins(snap, id) && (Ins(snap, id)[0], id) !in r.dead;
      assert Blocked(snap, r, id);
    }
    assert ToSkip(snap, r) == {};
    NoneSelected(snap, r, maxIter, snap.order);
  }

  /** A safe shape keeps the promise in every run that returns nil. */
  lemma SafeShapeCascades(snap: Snapshot, maxIter: nat, state: State, cs: seq<Choice>, r: Run)
    requires WellBuilt(snap) && SafeShape(snap) && Returns(snap, maxIter, state, cs, r, None)
    ensures Cascaded(snap, r)
  {
    RunKeepsKeys(snap, maxIter, state, cs, r, None);
    if !HasRoot(snap) {
      var h := LastHead(snap, maxIter, state, cs, r, None);
      RootlessStandsStill(snap, maxIter, state, cs[..|cs| - 1], h);
      RootlessIdles(snap, maxIter, state);
      assert r == FreshRun(state);
    } else {
      forall id | id in r.skipped
        ensures Outs(snap, id) == []
      {
        SkippedIsStarvable(snap, maxIter, r, id);
      }
    }
  }

  // ---- an unsafe shape breaks the promise ----------------------------------------------

  type Router = (string, State, int) -> string

  /** A router that may name any node, or none. */
  function Wandering(order: seq<string>): Option<Router> {
    Some((last: string, s: State, w: int) => if 0 <= w < |order| then order[w] else "")
  }

  /** Every node succeeds without writing; exactly the conditions on edges into `x` fail. */
  function Starving(shape: Snapshot, x: string, router: Option<Router>): Snapshot {
    shape.(
      nodes := map id | id in shape.nodes :: FnNode((s: State, w: int) => FnOk(s)),
      conds := map e | e in shape.conds ::
                 if shape.conds[e].None? then None else Some((s: State) => e.1 != x),
      router := router)
  }

  /** Exactly the conditions on edges into `x` fail, and every node may succeed. */
  ghost predicate Starves(snap: Snapshot, x: string) {
    && WellBuilt(snap) && AllSucceed(snap) && Guarded(snap, x) && x !in Ins(snap, x)
    && forall e, s: State :: CondFails(snap, s, e) <==> CondOf(snap, e).Some? && e.1 == x
  }

  lemma StarvingShape(shape: Snapshot, x: string, router: Option<Router>)
    requires WellBuilt(shape) && Guarded(shape, x) && x !in Ins(shape, x)
    ensures Starves(Starving(shape, x, router), x) && SameShape(Starving(shape, x, router), shape)
  {
    var snap := Starving(shape, x, router);
    StarvingSucceeds(shape, x, router);
    assert forall e :: CondOf(snap, e).Some? <==> CondOf(shape, e).Some?;
    assert snap.nodes.Keys == shape.nodes.Keys;
    assert forall b :: Ins(snap, b) == Ins(shape, b);
  }

  lemma SameShapeClosed(a: Snapshot, b: Snapshot)
    requires SameShape(a, b) && Closed(b)
    ensures Closed(a)
  {
    forall v, w {:trigger w in Outs(a, v)} | w in Outs(a, v)
      ensures v in a.nodes && w in a.nodes
    {
      assert Outs(a, v) == Outs(b, v) && w in Outs(b, v);
      assert v in b.nodes.Keys && w in b.nodes.Keys;
      assert v in a.nodes.Keys && w in a.nodes.Keys;
    }
  }

  ghost predicate CanSucceed(snap: Snapshot, id: string) {
    forall copy {:trigger Answers(snap, id, copy, Merge(copy))} :: Answers(snap, id, copy, Merge(copy))
  }

  ghost predicate AllSucceed(snap: Snapshot) {
    forall id :: id in snap.nodes ==> CanSucceed(snap, id)
  }

  /** A function node that may leave its copy as it is. */
  lemma IdleSucceeds(snap: Snapshot, id: string)
    requires id in snap.nodes && snap.nodes[id].FnNode? && forall s :: snap.nodes[id].fn(s, 0) == FnOk(s)
    ensures CanSucceed(snap, id)
  {
    forall copy: State
      ensures Answers(snap, id, copy, Merge(copy))
    {
      assert snap.nodes[id].fn(copy, 0) == FnOk(copy);
      assert Merge(copy) == FnEffect(snap.nodes[id].fn(copy, 0));
    }
  }

  lemma StarvingSucceeds(shape: Snapshot, x: string, router: Option<Router>)
    ensures AllSucceed(Starving(shape, x, router))
  {
    var snap := Starving(shape, x, router);
    forall id | id in snap.nodes
      ensures CanSucceed(snap, id)
    {
      IdleSucceeds(snap, id);
    }
  }

  /** Running the waiting nodes one after the other completes the round, all of them succeeding. */
  lemma {:induction false} RunAll(snap: Snapshot, start: Round, steps: seq<Step>, c: Round)
    returns (steps': seq<Step>, c': Round)
    requires forall id :: id in c.waiting ==> CanSucceed(snap, id)
    requires Play(snap, start, steps) == Some(c)
    requires c.copies == map[] && c.landed == map[]
    ensures Play(snap, start, steps') == Some(c') && Finished(c') && c'.firstErr == c.firstErr
    ensures Elements(c'.completions) == Elements(c.completions) + c.waiting && c'.run.failed == c.run.failed
    decreases |c.waiting|
  {
    if c.waiting == {} {
      steps', c' := steps, c;
    } else {
      var id :| id in c.waiting;
      assert Answers(snap, id, c.run.state, Merge(c.run.state));
      var next: Round;
      steps', next := RunAlone(snap, start, steps, c, id, Merge(c.run.state));
      assert Elements(next.completions) == Elements(c.completions) + {id};
      steps', c' := RunAll(snap, start, steps', next);
    }
  }

  /** A turn that launches someone and in which everyone succeeds. */
  lemma SuccessfulTurn(snap: Snapshot, maxIter: nat, h: Head, routed: string) returns (c: Choice, h': Head)
    requires WellBuilt(snap) && RouterAnswers(snap, SettleSkips(snap, h.run), routed)
    requires Launch(snap, maxIter, h, Choice(false, routed, [])) != []
    requires forall id :: id in Launch(snap, maxIter, h, Choice(false, routed, [])) ==> CanSucceed(snap, id)
    ensures Turn(snap, maxIter, h, c) == Some(Again(h')) && !c.cancelled
    ensures Launch(snap, maxIter, h, c) == Launch(snap, maxIter, h, Choice(false, routed, []))
    ensures h'.run.lastDone in Launch(snap, maxIter, h, c)
  {
    var launch := Launch(snap, maxIter, h, Choice(false, routed, []));
    LaunchRule(snap, maxIter, h, Choice(false, routed, []));
    var start := StartRound(Cleared(snap, SettleSkips(snap, h.run)), Elements(launch));
    var steps, end := RunAll(snap, start, [], start);
    c := Choice(false, routed, steps);
    h' := Head(EvaluateAll(snap, end.run, end.completions), 0);
    assert Elements(end.completions) == Elements(launch);
    assert launch[0] in Elements(launch);
    assert end.completions[0] in Elements(end.completions);
  }

  /** What the router may answer when asked like this. */
  function SomeAnswer(snap: Snapshot, r: Run): string {
    if Consulted(snap, r) then snap.router.value(r.lastDone, r.state, -1) else ""
  }

  /** When every node can succeed, every turn can be taken without error. */
  lemma TurnExists(snap: Snapshot, maxIter: nat, h: Head) returns (c: Choice)
    requires WellBuilt(snap) && AllSucceed(snap)
    ensures Turn(snap, maxIter, h, c).Some? && !c.cancelled
    ensures Turn(snap, maxIter, h, c).value.Return? ==> Turn(snap, maxIter, h, c).value.err.None?
  {
    var routed := SomeAnswer(snap, SettleSkips(snap, h.run));
    c := Choice(false, routed, []);
    if Launch(snap, maxIter, h, c) != [] {
      LaunchRule(snap, maxIter, h, c);
      assert forall id :: id in Launch(snap, maxIter, h, c) ==> id in Elements(Launch(snap, maxIter, h, c));
      var h': Head;
      c, h' := SuccessfulTurn(snap, maxIter, h, routed);
    }
  }

  /** Skips are settled for good before anything else happens in a turn. */
  lemma TurnSkips(snap: Snapshot, maxIter: nat, h: Head, c: Choice)
    requires Turn(snap, maxIter, h, c).Some? && !c.cancelled
    ensures match Turn(snap, maxIter, h, c).value
            case Again(h') => h'.run.skipped == SettleSkips(snap, h.run).skipped
            case Return(r, _) => r.skipped == SettleSkips(snap, h.run).skipped
  {
    var r, launch := Cleared(snap, SettleSkips(snap, h.run)), Launch(snap, maxIter, h, c);
    if launch != [] {
      var end := Play(snap, StartRound(r, Elements(launch)), c.steps).value;
      RoundResult(snap, r, Elements(launch), c.steps, end);
      FoldOutgoingExact(snap, end.run, end.completions);
    }
  }

  /** One more turn: it ends the run without error, or brings the end nearer. */
  lemma DriveOn(snap: Snapshot, maxIter: nat, state: State, cs: seq<Choice>, h: Head)
    returns (cs': seq<Choice>, o: Outcome)
    requires WellBuilt(snap) && AllSucceed(snap) && Reaches(snap, maxIter, state, cs, h)
    ensures Exec(snap, maxIter, FreshRun(state), cs') == Some(o) && Variant(snap, maxIter, h) >= 0
    ensures match o
            case Return(r, err) => err.None? && SettleSkips(snap, h.run).skipped == r.skipped
            case Again(h') =>
              Variant(snap, maxIter, h') < Variant(snap, maxIter, h)
                  && SettleSkips(snap, h.run).skipped == h'.run.skipped
  {
    ReachableInv(snap, maxIter, state, cs, h);
    RemainingBounds(snap.order, h.run, maxIter);
    var c := TurnExists(snap, maxIter, h);
    TurnSkips(snap, maxIter, h, c);
    cs', o := cs + [c], Turn(snap, maxIter, h, c).value;
    assert cs'[..|cs'| - 1] == cs;
    if o.Again? {
      TurnSpends(snap, maxIter, h, c, o.head);
    }
  }

  /** ... and so the run can be driven to a nil return. */
  lemma {:induction false} DriveToReturn(snap: Snapshot, maxIter: nat, state: State, cs: seq<Choice>, h: Head)
    returns (cs': seq<Choice>, r: Run)
    requires WellBuilt(snap) && AllSucceed(snap) && Reaches(snap, maxIter, state, cs, h)
    ensures Returns(snap, maxIter, state, cs', r, None) && SettleSkips(snap, h.run).skipped <= r.skipped
    decreases Variant(snap, maxIter, h) + 1
  {
    var o: Outcome;
    cs', o := DriveOn(snap, maxIter, state, cs, h);
    match o
    case Return(r', _) => r := r';
    case Again(h') => cs', r := DriveToReturn(snap, maxIter, state, cs', h');
  }

  /** In the starving instance only edges into `x` die, and they die with their source. */
  ghost predicate Starved(snap: Snapshot, x: string, r: Run) {
    && (forall e :: e in r.dead ==> e.1 == x)
    && r.skipped <= {x}
    && x !in r.done
    && (forall from :: from in Ins(snap, x) && from in r.done ==> (from, x) in r.dead)
  }

  lemma SettleKeepsStarved(snap: Snapshot, x: string, r: Run)
    requires Starved(snap, x, r)
    ensures Starved(snap, x, SettleSkips(snap, r))
  {
    forall id | id in ToSkip(snap, r)
      ensures id == x
    {
      assert (Ins(snap, id)[0], id) in r.dead;
    }
  }

  lemma StarvedNotRunnable(snap: Snapshot, maxIter: nat, x: string, r: Run)
    requires Starved(snap, x, r) && Guarded(snap, x) && x !in Ins(snap, x) && r.failed == {}
    ensures !Runnable(snap, r, maxIter, x)
  {
  }

  lemma RoundKeepsStarved(snap: Snapshot, x: string, r: Run, r': Run, completions: seq<string>)
    requires Starved(snap, x, r) && Starves(snap, x)
    requires r'.dead == r.dead && r'.skipped == r.skipped && r'.failed == {}
    requires r'.done == r.done + Elements(completions)
    requires x !in completions && r'.skipped !! r'.done
    ensures Starved(snap, x, EvaluateAll(snap, r', completions))
  {
    FoldOutgoingExact(snap, r', completions);
    var end := EvaluateAll(snap, r', completions);
    assert forall id :: id in completions <==> id in Elements(completions);
    forall from | from in Ins(snap, x) && from in end.done
      ensures (from, x) in end.dead
    {
      assert x in Outs(snap, from);
      if from in completions {
        assert CondFails(snap, r'.state, (from, x));
        assert Killed(snap, r', (from, x));
      }
    }
  }

  /** `x` starves on as long as it is not launched. */
  lemma TurnKeepsStarved(snap: Snapshot, maxIter: nat, x: string, h: Head, c: Choice, h': Head)
    requires Starves(snap, x) && RunInv(snap, maxIter, h.run) && Starved(snap, x, h.run)
    requires Turn(snap, maxIter, h, c) == Some(Again(h')) && x !in Launch(snap, maxIter, h, c)
    ensures Starved(snap, x, h'.run)
  {
    var r := Cleared(snap, SettleSkips(snap, h.run));
    ReadyKeepsInv(snap, maxIter, h.run);
    SettleKeepsStarved(snap, x, h.run);
    var launch := Launch(snap, maxIter, h, c);
    if launch != [] {
      LaunchRule(snap, maxIter, h, c);
      var end := Play(snap, StartRound(r, Elements(launch)), c.steps).value;
      RoundResult(snap, r, Elements(launch), c.steps, end);
      assert x !in Elements(launch);
      assert end.run.skipped !! end.run.done;
      RoundKeepsStarved(snap, x, r, end.run, end.completions);
    }
  }

  /** Unless the router forces it, a starving node is not launched. */
  lemma StarvedNotLaunched(snap: Snapshot, maxIter: nat, x: string, h: Head, c: Choice)
    requires Starves(snap, x) && RunInv(snap, maxIter, h.run) && Starved(snap, x, h.run)
    requires Forces(snap, maxIter, SettleSkips(snap, h.run), c.routed) ==> c.routed != x
    ensures x !in Launch(snap, maxIter, h, c)
  {
    SettleKeepsStarved(snap, x, h.run);
    StarvedNotRunnable(snap, maxIter, x, SettleSkips(snap, h.run));
    LaunchRule(snap, maxIter, h, c);
  }

  lemma {:induction false} StaysStarved(snap: Snapshot, maxIter: nat, state: State, x: string, cs: seq<Choice>, h: Head)
    requires Starves(snap, x) && snap.router.None?
    requires Reaches(snap, maxIter, state, cs, h)
    ensures Starved(snap, x, h.run)
    decreases |cs|
  {
    if cs != [] {
      var before := Exec(snap, maxIter, FreshRun(state), cs[..|cs| - 1]).value.head;
      ReachableInv(snap, maxIter, state, cs[..|cs| - 1], before);
      StaysStarved(snap, maxIter, state, x, cs[..|cs| - 1], before);
      StarvedNotLaunched(snap, maxIter, x, before, cs[|cs| - 1]);
      TurnKeepsStarved(snap, maxIter, x, before, cs[|cs| - 1], h);
    }
  }

  /** For every acyclic graph with a skippable node `x` that has a successor there are node
      bodies and conditions, and a run without a router to a nil return, that skip `x` and break
      the promise. */
  lemma UnsafeShapeFails(shape: Snapshot, maxIter: nat, state: State, x: string)
    returns (snap: Snapshot, cs: seq<Choice>, r: Run)
    requires WellBuilt(shape) && Closed(shape) && Acyclic(shape.ins) && maxIter >= 1
    requires x in shape.nodes && Guarded(shape, x) && Outs(shape, x) != []
    ensures WellBuilt(snap) && SameShape(snap, shape) && snap.router.None?
    ensures Returns(snap, maxIter, state, cs, r, None) && RunInv(snap, maxIter, r)
    ensures x in r.skipped && !Cascaded(snap, r)
  {
    NoSelfLoop(shape.ins, x);
    snap := Starving(shape, x, None);
    StarvingShape(shape, x, None);
    SameShapeClosed(snap, shape);
    cs, r := DriveToReturn(snap, maxIter, state, [], Head(FreshRun(state), 0));
    RunKeepsKeys(snap, maxIter, state, cs, r, None);
    AcyclicRunCompletes(snap, maxIter, state, cs, r);
    StarvedNotDone(snap, maxIter, state, x, cs, r);
    SkipNeverCascades(snap, maxIter, r, x, Outs(snap, x)[0]);
  }

  lemma StarvedNotDone(snap: Snapshot, maxIter: nat, state: State, x: string, cs: seq<Choice>, r: Run)
    requires Starves(snap, x) && snap.router.None? && Returns(snap, maxIter, state, cs, r, None)
    ensures x !in r.done
  {
    var h := LastHead(snap, maxIter, state, cs, r, None);
    StaysStarved(snap, maxIter, state, x, cs[..|cs| - 1], h);
  }

  // ---- ... in graphs with cycles too ---------------------------------------------------

  /** The sources of `x` that have not run yet. */
  function Unrun(snap: Snapshot, x: string, r: Run): set<string> {
    set p | p in Ins(snap, x) && p !in r.done
  }

  /** A run under way in which `x` starves and the router is asked next. */
  ghost predicate Starting(snap: Snapshot, maxIter: nat, state: State, x: string, cs: seq<Choice>, h: Head) {
    Reaches(snap, maxIter, state, cs, h) && RunInv(snap, maxIter, h.run) && Starved(snap, x, h.run)
        && h.run.lastDone != ""
  }

  lemma NextStart(snap: Snapshot, maxIter: nat, state: State, x: string, cs: seq<Choice>, h: Head, routed: string)
    returns (cs': seq<Choice>, h': Head)
    requires Starves(snap, x) && Reaches(snap, maxIter, state, cs, h) && Starved(snap, x, h.run)
    requires RouterAnswers(snap, SettleSkips(snap, h.run), routed)
    requires Launch(snap, maxIter, h, Choice(false, routed, [])) != []
    requires Forces(snap, maxIter, SettleSkips(snap, h.run), routed) ==> routed != x
    ensures Starting(snap, maxIter, state, x, cs', h')
    ensures h'.run.done == h.run.done + Elements(Launch(snap, maxIter, h, Choice(false, routed, [])))
  {
    var c := Choice(false, routed, []);
    LaunchRule(snap, maxIter, h, c);
    assert forall id :: id in Launch(snap, maxIter, h, c) ==> id in Elements(Launch(snap, maxIter, h, c));
    c, h' := SuccessfulTurn(snap, maxIter, h, routed);
    cs' := cs + [c];
    assert cs'[..|cs'| - 1] == cs;
    ReachableInv(snap, maxIter, state, cs, h);
    ReachableInv(snap, maxIter, state, cs', h');
    StarvedNotLaunched(snap, maxIter, x, h, Choice(false, routed, []));
    TurnKeepsStarved(snap, maxIter, x, h, c, h');
    TurnKeepsInv(snap, maxIter, h, c);
    LaunchRule(snap, maxIter, h, c);
    assert h'.run.lastDone in Elements(Launch(snap, maxIter, h, c));
  }

  /** The first turn runs the roots. */
  lemma StartsAtRoots(snap: Snapshot, maxIter: nat, state: State, x: string) returns (cs: seq<Choice>, h: Head)
    requires Starves(snap, x) && HasRoot(snap) && maxIter >= 1
    ensures Starting(snap, maxIter, state, x, cs, h)
  {
    var first := Head(FreshRun(state), 0);
    var root :| root in snap.nodes && Ins(snap, root) == [];
    assert root in Elements(snap.order);
    var r := SettleSkips(snap, first.run);
    assert root !in ToSkip(snap, first.run);
    assert Runnable(snap, r, maxIter, root);
    assert root in Launch(snap, maxIter, first, Choice(false, "", []));
    cs, h := NextStart(snap, maxIter, state, x, [], first, "");
  }

  /** Then the router forces the sources of `x` one after the other. */
  lemma {:induction false} ForceSources(snap: Snapshot, maxIter: nat, state: State, x: string, cs: seq<Choice>, h: Head)
    returns (cs': seq<Choice>, h': Head)
    requires Starves(snap, x) && snap.router == Wandering(snap.order) && maxIter >= 1
    requires forall p :: p in Ins(snap, x) ==> p in snap.nodes
    requires Starting(snap, maxIter, state, x, cs, h)
    ensures Starting(snap, maxIter, state, x, cs', h') && Unrun(snap, x, h'.run) == {}
    decreases Unrun(snap, x, h.run)
  {
    if Unrun(snap, x, h.run) == {} {
      cs', h' := cs, h;
    } else {
      var p :| p in Unrun(snap, x, h.run);
      SettleKeepsStarved(snap, x, h.run);
      CanForce(snap, maxIter, h.run, p);
      var next: Head;
      cs', next := NextStart(snap, maxIter, state, x, cs, h, p);
      assert p in Elements(Launch(snap, maxIter, h, Choice(false, p, [])));
      cs', h' := ForceSources(snap, maxIter, state, x, cs', next);
    }
  }

  /** The wandering router may force any node that has neither run nor been skipped. */
  lemma CanForce(snap: Snapshot, maxIter: nat, r: Run, p: string)
    requires WellBuilt(snap) && snap.router == Wandering(snap.order) && maxIter >= 1
    requires RunInv(snap, maxIter, r) && r.lastDone != ""
    requires p in snap.nodes && p !in r.done && p !in SettleSkips(snap, r).skipped
    ensures RouterAnswers(snap, SettleSkips(snap, r), p) && Forces(snap, maxIter, SettleSkips(snap, r), p)
  {
    var s := SettleSkips(snap, r);
    assert p in Elements(snap.order);
    var w :| 0 <= w < |snap.order| && snap.order[w] == p;
    assert snap.router.value(s.lastDone, s.state, w) == p;
    assert IterOf(s, p) == IterOf(r, p);
  }

  /** For every graph in which some run can start, cyclic or not, and every node `x` with a
      successor that can be skipped, there are node bodies, conditions and a router, and a run to
      a nil return, that skip `x` and break the promise. */
  lemma UnsafeRouteFails(shape: Snapshot, maxIter: nat, state: State, x: string)
    returns (snap: Snapshot, cs: seq<Choice>, r: Run)
    requires WellBuilt(shape) && maxIter >= 1
    requires HasRoot(shape) && Starvable(shape, x) && Outs(shape, x) != []
    ensures WellBuilt(snap) && SameShape(snap, shape)
    ensures Returns(snap, maxIter, state, cs, r, None)
    ensures x in r.skipped && !Cascaded(snap, r)
  {
    snap := Starving(shape, x, Wandering(shape.order));
    StarvingShape(shape, x, Wandering(shape.order));
    SameRoots(snap, shape, x);
    var h: Head;
    cs, h := StartsAtRoots(snap, maxIter, state, x);
    cs, h := ForceSources(snap, maxIter, state, x, cs, h);
    assert x in SettleSkips(snap, h.run).skipped by {
      StarvedIsSkipped(snap, maxIter, x, h.run);
    }
    cs, r := DriveToReturn(snap, maxIter, state, cs, h);
    RunKeepsKeys(snap, maxIter, state, cs, r, None);
    SkipNeverCascades(snap, maxIter, r, x, Outs(snap, x)[0]);
  }

  lemma SameRoots(a: Snapshot, b: Snapshot, x: string)
    requires SameShape(a, b)
    ensures HasRoot(a) <==> HasRoot(b)
    ensures Starvable(a, x) <==> Starvable(b, x)
    ensures Outs(a, x) == Outs(b, x)
  {
    assert forall id :: Ins(a, id) == Ins(b, id);
    assert forall id :: id in a.nodes <==> id in a.nodes.Keys;
    assert forall id :: id in b.nodes <==> id in b.nodes.Keys;
  }

  /** Once all its sources have run, a starving node is skipped. */
  lemma StarvedIsSkipped(snap: Snapshot, maxIter: nat, x: string, r: Run)
    requires Starves(snap, x) && RunInv(snap, maxIter, r) && Starved(snap, x, r) && Unrun(snap, x, r) == {}
    requires x in snap.nodes
    ensures x in SettleSkips(snap, r).skipped
  {
    assert x in Elements(snap.order);
    forall from | from in Ins(snap, x)
      ensures (from, x) in r.dead
    {
      assert from !in Unrun(snap, x, r);
    }
  }

  lemma NoSelfLoop(g: Preds, x: string)
    requires Acyclic(g)
    ensures x !in PredsOf(g, x)
  {
    var w := [x, x];
    assert !Cycle(g, w);
    assert x in PredsOf(g, x) ==> Hop(g, w, 0);
  }

  ghost predicate AlwaysCascades(shape: Snapshot, maxIter: nat, state: State) {
    forall snap, cs, r :: WellBuilt(snap) && SameShape(snap, shape) && Returns(snap, maxIter, state, cs, r, None) ==>
        Cascaded(snap, r)
  }

  /** The promise holds for every choice of node bodies, conditions, router and schedule
      exactly when there is no root to start from, or no node with a successor has only
      conditional incoming edges, all from other nodes of the graph. */
  lemma CascadeExactlyOnSafeShapes(shape: Snapshot, maxIter: nat, state: State)
    requires WellBuilt(shape) && maxIter >= 1
    ensures SafeShape(shape) <==> AlwaysCascades(shape, maxIter, state)
  {
    if SafeShape(shape) {
      forall snap, cs, r | WellBuilt(snap) && SameShape(snap, shape) && Returns(snap, maxIter, state, cs, r, None)
        ensures Cascaded(snap, r)
      {
        forall x
          ensures HasRoot(snap) == HasRoot(shape) && Starvable(snap, x) == Starvable(shape, x)
          ensures Outs(snap, x) == Outs(shape, x)
        {
          SameRoots(snap, shape, x);
        }
        SafeShapeCascades(snap, maxIter, state, cs, r);
      }
    } else {
      var x :| Starvable(shape, x) && Outs(shape, x) != [];
      var snap, cs, r := UnsafeRouteFails(shape, maxIter, state, x);
    }
  }

  /** "a" opens "b" only on a condition, and "c" follows "b" unconditionally. */
  function Chain(): Snapshot {
    Snapshot(
      map["a" := NoKind, "b" := NoKind, "c" := NoKind], ["a", "b", "c"],
      map["a" := ["b"], "b" := ["c"]], map["b" := ["a"], "c" := ["b"]],
      map[("a", "b") := Some((s: State) => false), ("b", "c") := None], None)
  }

  lemma ChainEdges(a: string, b: string)
    ensures a in Ins(Chain(), b) <==> (a == "a" && b == "b") || (a == "b" && b == "c")
    ensures b in Outs(Chain(), a) <==> (a == "a" && b == "b") || (a == "b" && b == "c")
  {
  }

  lemma ChainLists()
    ensures Lists(Chain().order, Chain().nodes.Keys)
  {
    assert Chain().nodes.Keys == {"a", "b", "c"};
  }

  lemma ChainShape()
    ensures WellBuilt(Chain()) && Closed(Chain())
  {
    ChainLists();
    forall a, b {:trigger a in Ins(Chain(), b)} {:trigger b in Outs(Chain(), a)}
      ensures a in Ins(Chain(), b) <==> b in Outs(Chain(), a)
      ensures b in Outs(Chain(), a) ==> a in Chain().nodes && b in Chain().nodes
    {
      ChainEdges(a, b);
    }
  }

  lemma ChainGuarded()
    ensures Guarded(Chain(), "b") && Outs(Chain(), "b") == ["c"]
  {
    assert Chain().conds[("a", "b")].Some?;
    assert Ins(Chain(), "b") == ["a"];
  }

  lemma ChainAcyclic()
    ensures Acyclic(Chain().ins)
  {
    RankedIsAcyclic(Chain().ins, map["a" := 0, "b" := 1, "c" := 2]);
  }

  /** The concrete failure: on the three-node chain "b" is skipped, yet "c" runs. */
  lemma ChainRunsPastSkip(state: State) returns (snap: Snapshot, cs: seq<Choice>, r: Run)
    ensures SameShape(snap, Chain()) && Returns(snap, DEFAULT_MAX_ITERATIONS, state, cs, r, None)
    ensures "c" in Outs(snap, "b") && "b" in r.skipped && "c" in r.done
  {
    ChainShape();
    ChainAcyclic();
    ChainGuarded();
    snap, cs, r := UnsafeShapeFails(Chain(), DEFAULT_MAX_ITERATIONS, state, "b");
    SameShapeClosed(snap, Chain());
    AcyclicRunCompletes(snap, DEFAULT_MAX_ITERATIONS, state, cs, r);
    assert "c" in Outs(snap, "b");
    SkipNeverCascades(snap, DEFAULT_MAX_ITERATIONS, r, "b", "c");
  }
}
