/** What decides an edge. Its condition is asked once for each execution of its source, at the
    barrier of that round, and about the shared state as it is then; over whole runs this decides
    which nodes are launched and which are skipped. */
module GraphConditions {
  import opened Basics
  import opened Digraph
  import opened GraphModel
  import opened GraphRound
  import opened GraphRuns
  import opened GraphTurns
  import opened GraphTiming
  import opened GraphDataflow

  /** The edge has a condition, and the condition rejects `s`. */
  predicate Rejects(snap: Snapshot, e: Edge, s: State) {
    e in snap.conds && snap.conds[e].Some? && !snap.conds[e].value(s)
  }

  /** After a round exactly those edges are newly dead that lead out of a completion and whose
      condition rejects the shared state at the barrier. */
  lemma BarrierDecides(snap: Snapshot, r: Run, launch: set<string>, steps: seq<Step>, end: Round, e: Edge)
    requires Completes(snap, r, launch, steps, end) && r.failed == {} && launch !! r.skipped
    ensures var r' := EvaluateAll(snap, end.run, end.completions);
            && r'.state == end.run.state
            && (e in r'.dead <==> e in r.dead
                                  || (e.0 in end.completions && e.1 in Outs(snap, e.0) && Rejects(snap, e, r'.state)))
  {
    RoundResult(snap, r, launch, steps, end);
    FoldOutgoingExact(snap, end.run, end.completions);
    assert end.run.failed == end.run.failed - r.failed;
    if e.0 in end.completions {
      assert e.0 in Elements(end.completions);
    }
  }

  /** The same for a turn, whether it goes on or returns an error: the nodes that reported a success
      decide their edges, no other edge dies. */
  lemma CompletionsDecide(snap: Snapshot, maxIter: nat, h: Head, c: Choice, e: Edge)
    requires WellBuilt(snap) && RunInv(snap, maxIter, h.run) && Turn(snap, maxIter, h, c).Some? && !c.cancelled
    ensures var r := RunOf(Turn(snap, maxIter, h, c).value);
            e in r.dead <==>
            e in h.run.dead
            || (Launch(snap, maxIter, h, c) != [] && e.0 in Reporting(c.steps, true) && e.1 in Outs(snap, e.0)
                && Rejects(snap, e, r.state))
  {
    var r, launch := Cleared(snap, SettleSkips(snap, h.run)), Launch(snap, maxIter, h, c);
    LaunchRule(snap, maxIter, h, c);
    if launch != [] {
      var end := Play(snap, StartRound(r, Elements(launch)), c.steps).value;
      RoundReports(snap, r, Elements(launch), c.steps, end);
      BarrierDecides(snap, r, Elements(launch), c.steps, end, e);
    }
  }

  lemma TurnDecides(snap: Snapshot, maxIter: nat, h: Head, c: Choice, h': Head, e: Edge)
    requires WellBuilt(snap) && RunInv(snap, maxIter, h.run) && Turn(snap, maxIter, h, c) == Some(Again(h'))
    ensures e in h'.run.dead <==>
              e in h.run.dead
              || (e.0 in Launch(snap, maxIter, h, c) && e.1 in Outs(snap, e.0) && Rejects(snap, e, h'.run.state))
  {
    var launch := Launch(snap, maxIter, h, c);
    CompletionsDecide(snap, maxIter, h, c, e);
    if launch != [] {
      TurnReports(snap, maxIter, h, c);
      assert e.0 in Reporting(c.steps, true) <==> e.0 in Elements(Reporting(c.steps, true));
      assert e.0 in launch <==> e.0 in Elements(launch);
    }
  }

  // ---- whole runs ------------------------------------------------------------------------------

  /** The shared state at the loop head after `i` turns. */
  ghost function StateAfter(snap: Snapshot, maxIter: nat, state: State, cs: seq<Choice>, i: nat): State
    requires i <= |cs|
  {
    match Exec(snap, maxIter, FreshRun(state), cs[..i])
    case Some(Again(h)) => h.run.state
    case _ => map[]
  }

  /** Some round executed the edge's source and ended in a state that the condition rejects. */
  ghost predicate Rejected(snap: Snapshot, maxIter: nat, state: State, cs: seq<Choice>, e: Edge) {
    exists i: nat :: i < |cs| && RejectedAt(snap, maxIter, state, cs, e, i)
  }

  ghost predicate RejectedAt(snap: Snapshot, maxIter: nat, state: State, cs: seq<Choice>, e: Edge, i: nat)
    requires i < |cs|
  {
    && e.0 in LaunchedAt(snap, maxIter, FreshRun(state), cs, i)
    && Rejects(snap, e, StateAfter(snap, maxIter, state, cs, i + 1))
  }

  /** One more turn of a run. */
  lemma TurnRejects(snap: Snapshot, maxIter: nat, state: State, cs: seq<Choice>, n: nat, before: Head, h: Head, e: Edge)
    requires WellBuilt(snap) && n < |cs| && Reaches(snap, maxIter, state, cs[..n], before)
    requires Reaches(snap, maxIter, state, cs[..n + 1], h)
    ensures e in h.run.dead <==>
              e in before.run.dead || (e.1 in Outs(snap, e.0) && RejectedAt(snap, maxIter, state, cs, e, n))
  {
    assert cs[..n + 1][..n] == cs[..n];
    ReachableInv(snap, maxIter, state, cs[..n], before);
    TurnDecides(snap, maxIter, before, cs[n], h, e);
  }

  /** The loop head one turn earlier. */
  lemma HeadBefore(snap: Snapshot, maxIter: nat, state: State, cs: seq<Choice>, n: nat, h: Head) returns (before: Head)
    requires n < |cs| && Reaches(snap, maxIter, state, cs[..n + 1], h)
    ensures Reaches(snap, maxIter, state, cs[..n], before)
  {
    assert cs[..n + 1][..n] == cs[..n];
    before := Exec(snap, maxIter, FreshRun(state), cs[..n]).value.head;
  }

  /** The turn in which a dead edge died. */
  lemma {:induction false} DiedAt(snap: Snapshot, maxIter: nat, state: State, cs: seq<Choice>, n: nat, h: Head, e: Edge)
    returns (i: nat, before: Head, after: Head)
    requires n <= |cs| && Reaches(snap, maxIter, state, cs[..n], h) && e in h.run.dead
    ensures i < n && Reaches(snap, maxIter, state, cs[..i], before) && Reaches(snap, maxIter, state, cs[..i + 1], after)
    ensures e !in before.run.dead && e in after.run.dead
    decreases n
  {
    i, after := n - 1, h;
    before := HeadBefore(snap, maxIter, state, cs, n - 1, h);
    if e in before.run.dead {
      i, before, after := DiedAt(snap, maxIter, state, cs, n - 1, before, e);
    }
  }

  lemma DeadWasRejected(snap: Snapshot, maxIter: nat, state: State, cs: seq<Choice>, h: Head, e: Edge) returns (i: nat)
    requires WellBuilt(snap) && Reaches(snap, maxIter, state, cs[..|cs|], h) && e in h.run.dead
    ensures i < |cs| && e.1 in Outs(snap, e.0) && RejectedAt(snap, maxIter, state, cs, e, i)
  {
    var before, after;
    i, before, after := DiedAt(snap, maxIter, state, cs, |cs|, h, e);
    TurnRejects(snap, maxIter, state, cs, i, before, after, e);
  }

  lemma {:induction false} DeadStays(snap: Snapshot, maxIter: nat, state: State, cs: seq<Choice>, n: nat, h: Head,
                                     e: Edge, m: nat) returns (mid: Head)
    requires WellBuilt(snap) && m <= n <= |cs| && Reaches(snap, maxIter, state, cs[..n], h)
    ensures Reaches(snap, maxIter, state, cs[..m], mid) && (e in mid.run.dead ==> e in h.run.dead)
    decreases n
  {
    mid := h;
    if m < n {
      var before := HeadBefore(snap, maxIter, state, cs, n - 1, h);
      mid := DeadStays(snap, maxIter, state, cs, n - 1, before, e, m);
      assert cs[..n][..n - 1] == cs[..n - 1];
      ReachableInv(snap, maxIter, state, cs[..n - 1], before);
      TurnKeepsInv(snap, maxIter, before, cs[n - 1]);
    }
  }

  lemma RejectedIsDead(snap: Snapshot, maxIter: nat, state: State, cs: seq<Choice>, h: Head, e: Edge, i: nat)
    requires WellBuilt(snap) && i < |cs| && Reaches(snap, maxIter, state, cs[..|cs|], h)
    requires e.1 in Outs(snap, e.0) && RejectedAt(snap, maxIter, state, cs, e, i)
    ensures e in h.run.dead
  {
    var mid := DeadStays(snap, maxIter, state, cs, |cs|, h, e, i + 1);
    var before := HeadBefore(snap, maxIter, state, cs, i, mid);
    TurnRejects(snap, maxIter, state, cs, i, before, mid, e);
  }

  /** The whole history of an edge, for every router: it is dead exactly when its condition rejected
      the shared state at the barrier of some round that executed its source. */
  lemma EdgeHistory(snap: Snapshot, maxIter: nat, state: State, cs: seq<Choice>, h: Head, e: Edge)
    requires WellBuilt(snap) && Reaches(snap, maxIter, state, cs, h)
    ensures e in h.run.dead <==> e.1 in Outs(snap, e.0) && Rejected(snap, maxIter, state, cs, e)
  {
    assert cs[..|cs|] == cs;
    if e in h.run.dead {
      var i := DeadWasRejected(snap, maxIter, state, cs, h, e);
    } else if e.1 in Outs(snap, e.0) && Rejected(snap, maxIter, state, cs, e) {
      var i: nat :| i < |cs| && RejectedAt(snap, maxIter, state, cs, e, i);
      RejectedIsDead(snap, maxIter, state, cs, h, e, i);
    }
  }

  /** Conditions decide, for every router that does not force a node this turn: a node that is not
      settled while all its sources are is launched exactly if one of its edges was not rejected,
      and skipped if all were. */
  lemma ConditionsDecide(snap: Snapshot, maxIter: nat, state: State, cs: seq<Choice>, h: Head, c: Choice, y: string)
    requires WellBuilt(snap) && maxIter >= 1 && Reaches(snap, maxIter, state, cs, h)
    requires !Forces(snap, maxIter, SettleSkips(snap, h.run), c.routed)
    requires y in snap.nodes && !Settled(h.run, y) && Ins(snap, y) != []
    requires forall p :: p in Ins(snap, y) ==> Settled(SettleSkips(snap, h.run), p)
    ensures y in Launch(snap, maxIter, h, c) <==>
              exists p :: p in Ins(snap, y) && !Rejected(snap, maxIter, state, cs, (p, y))
    ensures y in ToSkip(snap, h.run) <==>
              forall p :: p in Ins(snap, y) ==> Rejected(snap, maxIter, state, cs, (p, y))
  {
    ReachableInv(snap, maxIter, state, cs, h);
    var r := SettleSkips(snap, h.run);
    assert y in Elements(snap.order);
    forall p | p in Ins(snap, y)
      ensures (p, y) in h.run.dead <==> Rejected(snap, maxIter, state, cs, (p, y))
    {
      assert y in Outs(snap, p);
      EdgeHistory(snap, maxIter, state, cs, h, (p, y));
    }
    assert IterOf(r, y) == IterOf(h.run, y) == 0;
  }

  /** A node skipped in a turn is on record as such after it, however the turn ends. */
  lemma SkipsStay(snap: Snapshot, maxIter: nat, h: Head, c: Choice, y: string)
    requires Turn(snap, maxIter, h, c).Some? && !c.cancelled && y in ToSkip(snap, h.run)
    ensures y in RunOf(Turn(snap, maxIter, h, c).value).skipped
  {
    var r, launch := Cleared(snap, SettleSkips(snap, h.run)), Launch(snap, maxIter, h, c);
    if launch != [] {
      var end := Play(snap, StartRound(r, Elements(launch)), c.steps).value;
      RoundResult(snap, r, Elements(launch), c.steps, end);
      FoldOutgoingExact(snap, end.run, end.completions);
    }
  }

  /** Without a router, a node whose only source runs in this turn is unsettled after it. */
  lemma FollowerWaits(snap: Snapshot, maxIter: nat, state: State, cs: seq<Choice>, h: Head, c: Choice, h': Head,
                      x: string, y: string)
    requires WellBuilt(snap) && snap.router.None? && maxIter >= 1 && Reaches(snap, maxIter, state, cs, h)
    requires Turn(snap, maxIter, h, c) == Some(Again(h')) && x in Launch(snap, maxIter, h, c) && x in Ins(snap, y)
    ensures !Settled(h'.run, y) && x in h'.run.done
  {
    ReachableInv(snap, maxIter, state, cs, h);
    SettledBehind(snap, maxIter, state, cs, h);
    UnroutedTurn(snap, maxIter, h, c);
    TurnSettles(snap, maxIter, h, c, h');
    TurnKeepsInv(snap, maxIter, h, c);
    var r := SettleSkips(snap, h.run);
    assert !Settled(r, x) && x in PredsOf(snap.ins, y);
    assert y !in Launch(snap, maxIter, h, c);
  }

  lemma OnlyEdge(snap: Snapshot, maxIter: nat, h: Head, c: Choice, x: string, y: string)
    requires WellBuilt(snap) && snap.router.None? && maxIter >= 1 && RunInv(snap, maxIter, h.run)
    requires y in snap.nodes && Ins(snap, y) == [x] && x in h.run.done && !Settled(h.run, y)
    ensures if (x, y) in h.run.dead then y in ToSkip(snap, h.run) && y !in Launch(snap, maxIter, h, c)
            else y !in ToSkip(snap, h.run) && y in Launch(snap, maxIter, h, c)
  {
    var r := SettleSkips(snap, h.run);
    UnroutedTurn(snap, maxIter, h, c);
    assert y in Elements(snap.order) && x in Ins(snap, y);
    assert IterOf(r, y) == IterOf(h.run, y) == 0;
  }

  /** Without a router, a node whose only edge comes from `x` is launched in the turn after `x`'s
      round if the condition holds of the shared state at that barrier, and skipped if not. */
  lemma ConditionDecides(snap: Snapshot, maxIter: nat, state: State, cs: seq<Choice>, h: Head, c: Choice, h': Head,
                         c': Choice, x: string, y: string, k: Cond)
    requires WellBuilt(snap) && snap.router.None? && maxIter >= 1 && Reaches(snap, maxIter, state, cs, h)
    requires Turn(snap, maxIter, h, c) == Some(Again(h')) && x in Launch(snap, maxIter, h, c)
    requires y in snap.nodes && Ins(snap, y) == [x] && (x, y) in snap.conds && snap.conds[(x, y)] == Some(k)
    requires Turn(snap, maxIter, h', c').Some? && !c'.cancelled
    ensures k(h'.run.state) ==> y in Launch(snap, maxIter, h', c') && y !in ToSkip(snap, h'.run)
    ensures !k(h'.run.state) ==>
              y !in Launch(snap, maxIter, h', c') && y in RunOf(Turn(snap, maxIter, h', c').value).skipped
  {
    FollowerWaits(snap, maxIter, state, cs, h, c, h', x, y);
    ReachableInv(snap, maxIter, state, cs, h);
    TurnDecides(snap, maxIter, h, c, h', (x, y));
    TurnKeepsInv(snap, maxIter, h, c);
    assert x in Ins(snap, y) && y in Outs(snap, x);
    assert (x, y) !in h.run.dead by {
      assert x !in h.run.done;
    }
    OnlyEdge(snap, maxIter, h', c', x, y);
    if !k(h'.run.state) {
      SkipsStay(snap, maxIter, h', c', y);
    }
  }
}
