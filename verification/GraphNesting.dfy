/** Nested graphs, exactly. A round lets a nested graph answer with any state that loses no key,
    so what is proved of all rounds and runs holds of more than the engine can do. In a genuine
    schedule the answer is that of a run of the nested graph, itself genuine, however deep; in a
    `calm` one no nested run is cancelled half way. */
module GraphNesting {
  import opened Basics
  import opened Digraph
  import opened GraphModel
  import opened GraphRound
  import opened GraphRuns
  import opened GraphTiming

  /** What a nested run's return means for the node: any error fails it, and its state is merged. */
  function NestedEffect(r: Run, err: Option<Error>): Effect {
    if err.Some? then Fails else Merge(r.state)
  }

  ghost predicate NestedRun(calm: bool, sub: Snapshot, maxIter: nat, copy: State, cs: seq<Choice>, r: Run,
                            err: Option<Error>)
    decreases sub, 3, |cs| + 1
  {
    Returns(sub, maxIter, copy, cs, r, err) && Genuine(calm, sub, maxIter, copy, cs)
  }

  ghost predicate NestedOutcome(calm: bool, sub: Snapshot, maxIter: nat, copy: State, e: Effect)
    decreases sub, 4, 0
  {
    exists cs, r, err :: NestedRun(calm, sub, maxIter, copy, cs, r, err) && e == NestedEffect(r, err)
  }

  /** What the node can really answer. */
  ghost predicate GenuineAnswer(calm: bool, snap: Snapshot, id: string, copy: State, e: Effect)
    decreases snap, 0, 0
  {
    && Answers(snap, id, copy, e)
    && (id in snap.nodes && snap.nodes[id].SubNode? ==>
          NestedOutcome(calm, snap.nodes[id].sub, OrDefault(snap.nodes[id].maxIterations), copy, e))
  }

  ghost predicate GenuineStep(calm: bool, snap: Snapshot, c: Round, s: Step)
    decreases snap, 1, 0
  {
    s.Commit? && s.id in c.copies ==> GenuineAnswer(calm, snap, s.id, c.copies[s.id], s.effect)
  }

  ghost predicate GenuineRound(calm: bool, snap: Snapshot, start: Round, steps: seq<Step>)
    decreases snap, 1, |steps| + 1
  {
    if steps == [] then true
    else
      && GenuineRound(calm, snap, start, steps[..|steps| - 1])
      && match Play(snap, start, steps[..|steps| - 1])
         case None => true
         case Some(c) => GenuineStep(calm, snap, c, steps[|steps| - 1])
  }

  ghost predicate GenuineChoice(calm: bool, snap: Snapshot, maxIter: nat, h: Head, c: Choice)
    decreases snap, 2, 0
  {
    if c.cancelled then !calm
    else GenuineRound(calm, snap,
        StartRound(Cleared(snap, SettleSkips(snap, h.run)), Elements(Launch(snap, maxIter, h, c))), c.steps)
  }

  ghost predicate Genuine(calm: bool, snap: Snapshot, maxIter: nat, state: State, cs: seq<Choice>)
    decreases snap, 3, |cs|
  {
    if cs == [] then true
    else
      && Genuine(calm, snap, maxIter, state, cs[..|cs| - 1])
      && match Exec(snap, maxIter, FreshRun(state), cs[..|cs| - 1])
         case Some(Again(h)) => GenuineChoice(calm, snap, maxIter, h, cs[|cs| - 1])
         case _ => true
  }

  lemma GenuineExtend(calm: bool, snap: Snapshot, start: Round, steps: seq<Step>, c: Round, s: Step)
    requires GenuineRound(calm, snap, start, steps) && Play(snap, start, steps) == Some(c)
    requires GenuineStep(calm, snap, c, s)
    ensures GenuineRound(calm, snap, start, steps + [s])
  {
    assert (steps + [s])[..|steps|] == steps;
  }

  lemma GenuineNext(calm: bool, snap: Snapshot, maxIter: nat, state: State, cs: seq<Choice>, h: Head, c: Choice)
    requires Genuine(calm, snap, maxIter, state, cs) && Reaches(snap, maxIter, state, cs, h)
    requires GenuineChoice(calm, snap, maxIter, h, c)
    ensures Genuine(calm, snap, maxIter, state, cs + [c])
  {
    assert (cs + [c])[..|cs|] == cs;
  }

  /** When a nested graph's state is merged, its run ended in quiescence: nothing failed, every
      node still pending is stuck, and no key of the copy was lost. Without a router in the
      nested graph exactly its stuck nodes are left; if it is acyclic and its edges join its own
      nodes, none is. */
  lemma MergedMeansQuiescent(calm: bool, snap: Snapshot, id: string, copy: State, writes: State)
    returns (cs: seq<Choice>, r: Run)
    requires WellBuilt(snap) && id in snap.nodes && snap.nodes[id].SubNode?
    requires GenuineAnswer(calm, snap, id, copy, Merge(writes))
    ensures var sub, bound := snap.nodes[id].sub, OrDefault(snap.nodes[id].maxIterations);
            && NestedRun(calm, sub, bound, copy, cs, r, None) && r.state == writes && copy.Keys <= writes.Keys
            && r.failed == {}
            && (forall j :: Pending(sub, r, j) ==> Stuck(sub, j))
            && (sub.router.None? ==> forall j :: Pending(sub, r, j) <==> j in sub.nodes && Stuck(sub, j))
            && (Closed(sub) && Acyclic(sub.ins) ==> r.done + r.skipped == sub.nodes.Keys)
  {
    var sub, bound := snap.nodes[id].sub, OrDefault(snap.nodes[id].maxIterations);
    var err: Option<Error>;
    assert NestedOutcome(calm, sub, bound, copy, Merge(writes));
    cs, r, err :| NestedRun(calm, sub, bound, copy, cs, r, err) && Merge(writes) == NestedEffect(r, err);
    assert WellBuilt(sub);
    RunKeepsKeys(sub, bound, copy, cs, r, None);
    ExactlyStuckPending(sub, bound, copy, cs, r);
    if Closed(sub) && Acyclic(sub.ins) {
      AcyclicRunCompletes(sub, bound, copy, cs, r);
    }
  }

  lemma ExactlyStuckPending(sub: Snapshot, bound: nat, copy: State, cs: seq<Choice>, r: Run)
    requires WellBuilt(sub) && bound >= 1 && Returns(sub, bound, copy, cs, r, None)
    ensures forall j :: Pending(sub, r, j) ==> Stuck(sub, j)
    ensures sub.router.None? ==> forall j :: Pending(sub, r, j) <==> j in sub.nodes && Stuck(sub, j)
  {
    forall j
      ensures Pending(sub, r, j) ==> Stuck(sub, j)
      ensures sub.router.None? ==> (Pending(sub, r, j) <==> j in sub.nodes && Stuck(sub, j))
    {
      if Pending(sub, r, j) {
        PendingReturnsStuck(sub, bound, copy, cs, r, j);
      }
      if sub.router.None? {
        NilReturnExact(sub, bound, copy, cs, r, j);
      }
    }
  }

  // ---- a nested graph that is never validated ----------------------------------------------------

  /** One node behind an edge from an id that does not exist. */
  function Dangling(): Snapshot {
    Snapshot(
      map["n" := FnNode((s: State, w: int) => FnOk(s))], ["n"],
      map["ghost" := ["n"]], map["n" := ["ghost"]], map[("ghost", "n") := None], None)
  }

  /** A graph whose only node is that graph. */
  function Around(): Snapshot {
    Snapshot(map["p" := SubNode(Dangling(), 0)], ["p"], map[], map[], map[], None)
  }

  lemma DanglingEdges(a: string, b: string)
    ensures a in Ins(Dangling(), b) <==> a == "ghost" && b == "n"
    ensures b in Outs(Dangling(), a) <==> a == "ghost" && b == "n"
  {
  }

  lemma DanglingShape()
    ensures WellBuilt(Dangling()) && Stuck(Dangling(), "n")
  {
    var sub := Dangling();
    assert sub.nodes.Keys == {"n"};
    forall a, b {:trigger a in Ins(sub, b)} {:trigger b in Outs(sub, a)}
      ensures a in Ins(sub, b) <==> b in Outs(sub, a)
    {
      DanglingEdges(a, b);
    }
    assert "ghost" in Ins(sub, "n");
    UnknownThrough(sub, "n", "ghost");
  }

  lemma AroundShape()
    ensures WellBuilt(Around()) && Closed(Around()) && Acyclic(Around().ins)
  {
    DanglingShape();
    var snap := Around();
    assert snap.nodes.Keys == {"p"};
    assert forall v :: Ins(snap, v) == [] && Outs(snap, v) == [];
    RankedIsAcyclic(snap.ins, map[]);
  }

  /** Nothing to launch and someone pending: two idle turns, then a nil return. */
  lemma IdleReturn(snap: Snapshot, maxIter: nat, state: State, id: string) returns (cs: seq<Choice>)
    requires snap.router.None? && ReadySet(snap, FreshRun(state), maxIter) == [] && Pending(snap, FreshRun(state), id)
    ensures Returns(snap, maxIter, state, cs, FreshRun(state), None) && Genuine(true, snap, maxIter, state, cs)
  {
    var r, c := FreshRun(state), Choice(false, "", []);
    forall j
      ensures j !in ToSkip(snap, r)
    {
      assert Ins(snap, j) != [] ==> (Ins(snap, j)[0], j) !in r.dead;
    }
    assert SettleSkips(snap, r) == r;
    var one := [c];
    assert one == [] + [c] && one[..0] == [];
    assert Turn(snap, maxIter, Head(r, 0), c) == Some(Again(Head(r, 1)));
    GenuineNext(true, snap, maxIter, state, [], Head(r, 0), c);
    cs := one + [c];
    assert cs[..1] == one;
    assert Turn(snap, maxIter, Head(r, 1), c) == Some(Return(r, None));
    GenuineNext(true, snap, maxIter, state, one, Head(r, 1), c);
  }

  /** The nested run that does nothing. */
  lemma DanglingRun(copy: State) returns (cs: seq<Choice>)
    ensures NestedRun(true, Dangling(), DEFAULT_MAX_ITERATIONS, copy, cs, FreshRun(copy), None)
    ensures Pending(Dangling(), FreshRun(copy), "n")
  {
    var sub, r := Dangling(), FreshRun(copy);
    assert "ghost" in Ins(sub, "n") && Blocked(sub, r, "n");
    var front := sub.order[..|sub.order| - 1];
    assert front == [] && Select(sub, r, DEFAULT_MAX_ITERATIONS, front) == [];
    assert !Runnable(sub, r, DEFAULT_MAX_ITERATIONS, sub.order[|sub.order| - 1]);
    assert ReadySet(sub, r, DEFAULT_MAX_ITERATIONS) == [];
    assert sub.order[0] == "n";
    cs := IdleReturn(sub, DEFAULT_MAX_ITERATIONS, copy, "n");
  }

  /** A nested run that returned nil answers with its final state. */
  lemma NestedAnswer(calm: bool, snap: Snapshot, id: string, copy: State, cs: seq<Choice>, r: Run)
    requires id in snap.nodes && snap.nodes[id].SubNode? && copy.Keys <= r.state.Keys
    requires NestedRun(calm, snap.nodes[id].sub, OrDefault(snap.nodes[id].maxIterations), copy, cs, r, None)
    ensures GenuineAnswer(calm, snap, id, copy, Merge(r.state))
  {
    assert Merge(r.state) == NestedEffect(r, None);
    assert NestedOutcome(calm, snap.nodes[id].sub, OrDefault(snap.nodes[id].maxIterations), copy, Merge(r.state));
  }

  lemma AroundAnswers(copy: State)
    ensures GenuineAnswer(true, Around(), "p", copy, Merge(copy))
  {
    var cs := DanglingRun(copy);
    NestedAnswer(true, Around(), "p", copy, cs, FreshRun(copy));
  }

  /** One round of the outer graph: its node runs and merges what the nested run left. */
  lemma AroundRound(r: Run) returns (steps: seq<Step>, end: Round)
    ensures Completes(Around(), r, {"p"}, steps, end) && GenuineRound(true, Around(), StartRound(r, {"p"}), steps)
    ensures end.run.done == r.done + {"p"} && end.run.skipped == r.skipped && end.completions == ["p"]
    ensures end.firstErr.None?
  {
    var snap, start := Around(), StartRound(r, {"p"});
    AroundAnswers(r.state);
    GenuineExtend(true, snap, start, [], start, Begin("p"));
    var c: Round;
    steps, c := Extend(snap, start, [], start, Begin("p"));
    GenuineExtend(true, snap, start, steps, c, Commit("p", Merge(r.state)));
    steps, c := Extend(snap, start, steps, c, Commit("p", Merge(r.state)));
    GenuineExtend(true, snap, start, steps, c, Report("p"));
    steps, end := Extend(snap, start, steps, c, Report("p"));
  }

  /** What goes wrong without validation: the graph is valid, its run returns nil with "p" done,
      and every nested run whose state "p" can merge has left "n" unfinished. */
  lemma NestedLeftUnfinished(state: State) returns (cs: seq<Choice>, r: Run)
    ensures WellBuilt(Around()) && Closed(Around()) && Acyclic(Around().ins)
    ensures Returns(Around(), DEFAULT_MAX_ITERATIONS, state, cs, r, None)
    ensures Genuine(true, Around(), DEFAULT_MAX_ITERATIONS, state, cs)
    ensures r.done == {"p"}
    ensures forall copy, inner, final ::
              NestedRun(true, Dangling(), DEFAULT_MAX_ITERATIONS, copy, inner, final, None) ==>
                  Pending(Dangling(), final, "n")
  {
    var snap := Around();
    AroundShape();
    DanglingShape();
    cs, r := AroundRun(state);
    forall copy, inner, final | NestedRun(true, Dangling(), DEFAULT_MAX_ITERATIONS, copy, inner, final, None)
      ensures Pending(Dangling(), final, "n")
    {
      NilReturnExact(Dangling(), DEFAULT_MAX_ITERATIONS, copy, inner, final, "n");
    }
  }

  lemma AroundSettles(r: Run)
    ensures SettleSkips(Around(), r) == r
    ensures ReadySet(Around(), r, DEFAULT_MAX_ITERATIONS) ==
              if Settled(r, "p") || IterOf(r, "p") >= DEFAULT_MAX_ITERATIONS then [] else ["p"]
  {
    var snap := Around();
    assert forall v :: Ins(snap, v) == [];
    assert ToSkip(snap, r) == {};
    assert r.skipped + {} == r.skipped;
    assert Ins(snap, "p") == [] && !Blocked(snap, r, "p");
    var front := snap.order[..|snap.order| - 1];
    assert front == [] && Select(snap, r, DEFAULT_MAX_ITERATIONS, front) == [];
    assert Runnable(snap, r, DEFAULT_MAX_ITERATIONS, "p") <==>
        !Settled(r, "p") && IterOf(r, "p") < DEFAULT_MAX_ITERATIONS;
    assert Select(snap, r, DEFAULT_MAX_ITERATIONS, snap.order) ==
           if Runnable(snap, r, DEFAULT_MAX_ITERATIONS, "p") then [] + ["p"] else [];
  }

  lemma AroundFirst(state: State) returns (c: Choice, r: Run)
    ensures Turn(Around(), DEFAULT_MAX_ITERATIONS, Head(FreshRun(state), 0), c) == Some(Again(Head(r, 0)))
    ensures GenuineChoice(true, Around(), DEFAULT_MAX_ITERATIONS, Head(FreshRun(state), 0), c)
    ensures r.done == {"p"}
  {
    var snap, start := Around(), FreshRun(state);
    var steps, end := AroundRound(start);
    c := Choice(false, "", steps);
    AroundTurn(start, steps, end);
    r := EvaluateAll(snap, end.run, end.completions);
    FoldOutgoingExact(snap, end.run, end.completions);
  }

  lemma AroundTurn(r: Run, steps: seq<Step>, end: Round)
    requires !Settled(r, "p") && IterOf(r, "p") == 0
    requires Completes(Around(), r, {"p"}, steps, end) && GenuineRound(true, Around(), StartRound(r, {"p"}), steps)
    ensures Turn(Around(), DEFAULT_MAX_ITERATIONS, Head(r, 0), Choice(false, "", steps)) ==
              Some(AfterRound(Around(), end))
    ensures GenuineChoice(true, Around(), DEFAULT_MAX_ITERATIONS, Head(r, 0), Choice(false, "", steps))
  {
    AroundSettles(r);
    assert Elements(["p"]) == {"p"};
    UnroutedTurn(Around(), DEFAULT_MAX_ITERATIONS, Head(r, 0), Choice(false, "", steps));
  }

  lemma AroundLast(r: Run) returns (c: Choice)
    requires r.done == {"p"}
    ensures Turn(Around(), DEFAULT_MAX_ITERATIONS, Head(r, 0), c) == Some(Return(r, None))
    ensures GenuineChoice(true, Around(), DEFAULT_MAX_ITERATIONS, Head(r, 0), c)
  {
    c := Choice(false, "", []);
    AroundSettles(r);
    forall id
      ensures !Pending(Around(), r, id)
    {
      assert id in Around().order ==> id == "p";
    }
  }

  lemma AroundRun(state: State) returns (cs: seq<Choice>, r: Run)
    ensures Returns(Around(), DEFAULT_MAX_ITERATIONS, state, cs, r, None)
    ensures Genuine(true, Around(), DEFAULT_MAX_ITERATIONS, state, cs)
    ensures r.done == {"p"}
  {
    var snap := Around();
    var c: Choice;
    c, r := AroundFirst(state);
    GenuineNext(true, snap, DEFAULT_MAX_ITERATIONS, state, [], Head(FreshRun(state), 0), c);
    var one := [] + [c];
    assert one[..0] == [];
    assert Reaches(snap, DEFAULT_MAX_ITERATIONS, state, one, Head(r, 0));
    var last := AroundLast(r);
    GenuineNext(true, snap, DEFAULT_MAX_ITERATIONS, state, one, Head(r, 0), last);
    cs := one + [last];
    assert cs[..1] == one;
  }

  /** Without nested graphs every schedule the engine can take is genuine. */
  lemma {:induction false} FlatRoundIsGenuine(calm: bool, snap: Snapshot, start: Round, steps: seq<Step>)
    requires forall id :: id in snap.nodes ==> !snap.nodes[id].SubNode?
    requires Play(snap, start, steps).Some?
    ensures GenuineRound(calm, snap, start, steps)
    decreases |steps|
  {
    if steps != [] {
      FlatRoundIsGenuine(calm, snap, start, steps[..|steps| - 1]);
    }
  }
}
