/** What a turn of the round loop reports: which nodes of a round count as completed and in which
    order, whose error is returned, which edges die, and when the loop stops. */
module GraphTurns {
  import opened Basics
  import opened GraphModel
  import opened GraphRound
  import opened GraphRuns

  /** The node has committed with success in this part of the schedule. */
  ghost predicate Succeeded(steps: seq<Step>, id: string) {
    exists k :: 0 <= k < |steps| && steps[k].Commit? && steps[k].id == id && steps[k].effect.Merge?
  }

  /** The nodes that report after a success, or else those that report without one, in order. */
  ghost function Reporting(steps: seq<Step>, ok: bool): seq<string> {
    if steps == [] then []
    else
      var front, s := steps[..|steps| - 1], steps[|steps| - 1];
      Reporting(front, ok) + if s.Report? && (ok <==> Succeeded(front, s.id)) then [s.id] else []
  }

  function First(ids: seq<string>): Option<string> {
    if ids == [] then None else Some(ids[0])
  }

  ghost predicate Remembered(steps: seq<Step>, c: Round) {
    && (forall id :: id in c.waiting || id in c.copies ==> !Succeeded(steps, id))
    && (forall id :: id in c.landed ==> (c.landed[id] <==> Succeeded(steps, id)))
  }

  lemma SucceededNext(steps: seq<Step>, s: Step, id: string)
    ensures Succeeded(steps + [s], id) <==> Succeeded(steps, id) || (s.Commit? && s.id == id && s.effect.Merge?)
  {
    var longer := steps + [s];
    assert longer[|steps|] == s;
    if Succeeded(steps, id) {
      var k :| 0 <= k < |steps| && steps[k].Commit? && steps[k].id == id && steps[k].effect.Merge?;
      assert longer[k] == steps[k];
    }
  }

  lemma RememberedStep(snap: Snapshot, ready: set<string>, steps: seq<Step>, c: Round, s: Step)
    requires Accounted(ready, c) && Remembered(steps, c) && CanStep(snap, c, s)
    ensures Remembered(steps + [s], DoStep(snap, c, s))
  {
    forall id
      ensures Succeeded(steps + [s], id) <==> Succeeded(steps, id) || (s.Commit? && s.id == id && s.effect.Merge?)
    {
      SucceededNext(steps, s, id);
    }
  }

  /** The round's lists are what has been reported so far. */
  ghost predicate Listed(steps: seq<Step>, c: Round) {
    c.completions == Reporting(steps, true) && c.firstErr == First(Reporting(steps, false))
  }

  lemma ListedStep(snap: Snapshot, steps: seq<Step>, c: Round, s: Step)
    requires Remembered(steps, c) && Listed(steps, c) && CanStep(snap, c, s)
    ensures Listed(steps + [s], DoStep(snap, c, s))
  {
    assert (steps + [s])[..|steps|] == steps;
    if s.Report? {
      assert c.landed[s.id] <==> Succeeded(steps, s.id);
    }
  }

  /** The completions are the nodes that reported a success, in the order of their reports; the error
      is that of the first node to report without one. */
  lemma {:induction false} RoundReports(snap: Snapshot, r: Run, ready: set<string>, steps: seq<Step>, c: Round)
    requires Play(snap, StartRound(r, ready), steps) == Some(c)
    ensures Remembered(steps, c)
    ensures Listed(steps, c)
    decreases |steps|
  {
    if steps == [] {
    } else {
      var front, s := steps[..|steps| - 1], steps[|steps| - 1];
      var before := Play(snap, StartRound(r, ready), front).value;
      RoundReports(snap, r, ready, front, before);
      RoundKeepsInv(snap, r, ready, front, before);
      RememberedStep(snap, ready, front, before, s);
      ListedStep(snap, front, before, s);
      assert steps == front + [s];
    }
  }

  // ---- one turn ----------------------------------------------------------------------------------

  /** A turn that runs a round goes on if every node reports a success, and otherwise returns the
      error of the first that does not. It keeps the round's state, and for the router the first
      node to report a success. */
  lemma TurnReports(snap: Snapshot, maxIter: nat, h: Head, c: Choice)
    requires Turn(snap, maxIter, h, c).Some? && !c.cancelled && Launch(snap, maxIter, h, c) != []
    ensures var o := Turn(snap, maxIter, h, c).value;
            && Elements(Reporting(c.steps, true)) <= Elements(Launch(snap, maxIter, h, c))
            && RunOf(o).done == h.run.done + Elements(Reporting(c.steps, true))
            && (Reporting(c.steps, true) != [] ==> RunOf(o).lastDone == Reporting(c.steps, true)[0])
            && if Reporting(c.steps, false) == [] then
                 o.Again? && Elements(Reporting(c.steps, true)) == Elements(Launch(snap, maxIter, h, c))
               else o == Return(RunOf(o), Some(NodeFailed(Reporting(c.steps, false)[0])))
  {
    var r, launch := Cleared(snap, SettleSkips(snap, h.run)), Elements(Launch(snap, maxIter, h, c));
    var end := Play(snap, StartRound(r, launch), c.steps).value;
    RoundReports(snap, r, launch, c.steps, end);
    RoundResult(snap, r, launch, c.steps, end);
    FoldOutgoingExact(snap, end.run, end.completions);
  }

  /** Cancellation returns at once, with nothing changed. */
  lemma CancelledReturns(snap: Snapshot, maxIter: nat, h: Head, c: Choice)
    requires c.cancelled
    ensures Turn(snap, maxIter, h, c) == Some(Return(h.run, Some(Cancelled)))
  {
  }

  lemma HasMember(ids: seq<string>)
    ensures ids != [] ==> exists id :: id in ids
  {
    if ids != [] {
      assert ids[0] in ids;
    }
  }

  /** Once every node is settled the next turn returns nil, unless the router forces one to run. */
  lemma SettledReturns(snap: Snapshot, maxIter: nat, h: Head, c: Choice)
    requires Lists(snap.order, snap.nodes.Keys) && Turn(snap, maxIter, h, c).Some? && !c.cancelled
    requires forall id :: id in snap.nodes ==> Settled(SettleSkips(snap, h.run), id)
    requires !Forces(snap, maxIter, SettleSkips(snap, h.run), c.routed)
    ensures Launch(snap, maxIter, h, c) == []
    ensures Turn(snap, maxIter, h, c).value.Return? && Turn(snap, maxIter, h, c).value.err.None?
  {
    var r := SettleSkips(snap, h.run);
    assert forall id :: id in snap.order ==> id in Elements(snap.order);
    assert Launch(snap, maxIter, h, c) == ReadySet(snap, r, maxIter);
    HasMember(ReadySet(snap, r, maxIter));
    assert forall id :: !Pending(snap, Cleared(snap, r), id);
  }
}
