/** What the router is asked, and what its answer does. After a round it is asked once, about the
    node that reported first and the shared state at the barrier; a runnable answer is launched
    alone, whatever the readiness rule says. */
module GraphRouter {
  import opened Basics
  import opened GraphModel
  import opened GraphRound
  import opened GraphRuns
  import opened GraphTurns

  /** Known, not skipped and not yet executed `maxIter` times; it may well be done. */
  predicate MayRunAgain(snap: Snapshot, maxIter: nat, r: Run, id: string) {
    && id != "" && id in snap.nodes && id !in r.skipped && id !in r.failed
    && (id in r.iter ==> r.iter[id] < maxIter) && 0 < maxIter
  }

  /** The turn after a round: the router has been asked about the first node to report and the
      state at the barrier. Its answer runs alone if it may, done or not; otherwise the ready set
      does. */
  lemma RouterIsHeard(snap: Snapshot, maxIter: nat, h: Head, c: Choice, h': Head, c': Choice) returns (w: int)
    requires WellBuilt(snap) && snap.router.Some?
    requires Turn(snap, maxIter, h, c) == Some(Again(h')) && Launch(snap, maxIter, h, c) != []
    requires Turn(snap, maxIter, h', c').Some? && !c'.cancelled
    ensures Reporting(c.steps, true) != [] && Reporting(c.steps, true)[0] in Launch(snap, maxIter, h, c)
    ensures c'.routed == snap.router.value(Reporting(c.steps, true)[0], h'.run.state, w)
    ensures var r := SettleSkips(snap, h'.run);
            Launch(snap, maxIter, h', c') ==
            if MayRunAgain(snap, maxIter, r, c'.routed) then [c'.routed] else ReadySet(snap, r, maxIter)
  {
    TurnReports(snap, maxIter, h, c);
    LaunchRule(snap, maxIter, h, c);
    assert Launch(snap, maxIter, h, c)[0] in Elements(Launch(snap, maxIter, h, c));
    var r, first := SettleSkips(snap, h'.run), Reporting(c.steps, true)[0];
    assert first in Elements(Reporting(c.steps, true));
    assert first in Elements(Launch(snap, maxIter, h, c));
    assert RouterAnswers(snap, r, c'.routed);
    w :| c'.routed == snap.router.value(r.lastDone, r.state, w);
  }

  /** Before the first round and after an empty one nobody asks the router. */
  lemma RouterIsSilent(snap: Snapshot, maxIter: nat, state: State, cs: seq<Choice>, h: Head, c: Choice)
    requires WellBuilt(snap) && Reaches(snap, maxIter, state, cs, h) && (cs == [] || h.idle > 0)
    ensures Launch(snap, maxIter, h, c) == ReadySet(snap, SettleSkips(snap, h.run), maxIter)
  {
    if cs != [] {
      var before := Exec(snap, maxIter, FreshRun(state), cs[..|cs| - 1]).value.head;
      assert h.run == Cleared(snap, SettleSkips(snap, before.run)) by {
        TurnCounts(snap, maxIter, before, cs[|cs| - 1], h);
      }
    }
  }
}
