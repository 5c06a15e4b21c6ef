/** When each node is settled in a run without a router: in the turn after its last source ran, or
    in the very turn its last source was skipped. From this follows which nodes a nil return
    leaves pending. */
module GraphTiming {
  import opened Basics
  import opened Digraph
  import opened GraphModel
  import opened GraphRound
  import opened GraphRuns
  import opened GraphSkips

  type Levels = map<string, nat>

  /** The turn from which a source's outcome lets its successors go on. */
  function Avail(skips: set<string>, lev: Levels, p: string): nat
    requires p in lev
  {
    lev[p] + if p in skips then 0 else 1
  }

  /** Some source of `u` comes available in turn `t` exactly. */
  ghost predicate Pushed(snap: Snapshot, skips: set<string>, lev: Levels, u: string, t: nat) {
    exists p :: p in Ins(snap, u) && p in lev && Avail(skips, lev, p) == t
  }

  /** `u` is settled as soon as all its sources allow, and no sooner. */
  ghost predicate OnTime(snap: Snapshot, skips: set<string>, lev: Levels, u: string)
    requires u in lev
  {
    && (forall p :: p in Ins(snap, u) ==> p in lev && Avail(skips, lev, p) <= lev[u])
    && (lev[u] == 0 || Pushed(snap, skips, lev, u, lev[u]))
  }

  /** Nodes that can be skipped together: all incoming edges are conditional, and no source is
      skipped itself. */
  ghost predicate SkipSet(snap: Snapshot, skips: set<string>) {
    forall u :: u in skips ==> Guarded(snap, u) && forall p :: p in Ins(snap, u) ==> p !in skips
  }

  /** `lev` records in which of the first `t` turns each settled node was settled. */
  ghost predicate Timed(snap: Snapshot, r: Run, lev: Levels, t: nat) {
    && lev.Keys == r.done + r.skipped
    && (forall u :: u in lev ==> lev[u] < t && OnTime(snap, r.skipped, lev, u))
    && SkipSet(snap, r.skipped)
  }

  /** Something still holds `u` back in turn `t - 1`. */
  ghost predicate Held(snap: Snapshot, skips: set<string>, lev: Levels, u: string, t: nat) {
    exists p :: p in Ins(snap, u) && (p in lev ==> Avail(skips, lev, p) == t)
  }

  ghost predicate Waiting(snap: Snapshot, r: Run, lev: Levels, t: nat) {
    t > 0 ==> forall u :: u in snap.nodes && u !in lev ==> Held(snap, r.skipped, lev, u, t)
  }

  /** The levels with every node of `now` settled in turn `t`. */
  function Marked(lev: Levels, now: set<string>, t: nat): (lev': Levels)
    ensures lev'.Keys == lev.Keys + now
    ensures forall u :: u in lev' ==> lev'[u] == if u in now then t else lev[u]
  {
    map u | u in lev.Keys + now :: if u in now then t else lev[u]
  }

  /** Nodes already on time stay so when others are settled or skipped later. */
  lemma StaysOnTime(snap: Snapshot, skips: set<string>, skips': set<string>, lev: Levels, lev': Levels, u: string)
    requires u in lev && OnTime(snap, skips, lev, u)
    requires forall p :: p in lev ==> p in lev' && lev'[p] == lev[p] && (p in skips' <==> p in skips)
    ensures OnTime(snap, skips', lev', u)
  {
    if lev[u] > 0 {
      var p :| p in Ins(snap, u) && p in lev && Avail(skips, lev, p) == lev[u];
      assert Avail(skips', lev', p) == lev'[u];
    }
  }

  // ---- settling skips ------------------------------------------------------------------------

  /** A node to be skipped has only sources that ran, one of them in the last turn. */
  lemma SkippedNow(snap: Snapshot, maxIter: nat, r: Run, lev: Levels, t: nat, u: string)
    requires WellBuilt(snap) && RunInv(snap, maxIter, r) && Timed(snap, r, lev, t) && Waiting(snap, r, lev, t)
    requires u in ToSkip(snap, r)
    ensures t > 0 && Guarded(snap, u) && u in snap.nodes && u !in lev
    ensures forall p :: p in Ins(snap, u) ==>
              p in r.done && p in lev && p !in r.skipped && Avail(r.skipped, lev, p) <= t
    ensures Pushed(snap, r.skipped, lev, u, t)
  {
    assert u in Elements(snap.order);
    forall p | p in Ins(snap, u)
      ensures p in r.done && p in lev && p !in r.skipped && CondOf(snap, (p, u)).Some?
    {
      assert (p, u) in r.dead;
    }
    assert Ins(snap, u)[0] in lev;
    assert Held(snap, r.skipped, lev, u, t);
  }

  /** A node settled in turn `t` is on time when its sources were available by then, one only just. */
  lemma SettledNow(snap: Snapshot, skips: set<string>, skips': set<string>, lev: Levels, lev': Levels, u: string,
                   t: nat)
    requires u in lev' && lev'[u] == t
    requires forall p :: p in Ins(snap, u) ==>
               p in lev && Avail(skips, lev, p) <= t && p in lev' && lev'[p] == lev[p] && (p in skips' <==> p in skips)
    requires t == 0 || Pushed(snap, skips, lev, u, t)
    ensures OnTime(snap, skips', lev', u)
  {
    if t > 0 {
      var p :| p in Ins(snap, u) && p in lev && Avail(skips, lev, p) == t;
      assert Avail(skips', lev', p) == t;
    }
  }

  lemma NewSkipOnTime(snap: Snapshot, maxIter: nat, r: Run, lev: Levels, t: nat, u: string)
    requires WellBuilt(snap) && RunInv(snap, maxIter, r) && Timed(snap, r, lev, t) && Waiting(snap, r, lev, t)
    requires u in ToSkip(snap, r)
    ensures u !in lev && Guarded(snap, u) && forall p :: p in Ins(snap, u) ==> p !in SettleSkips(snap, r).skipped
    ensures OnTime(snap, SettleSkips(snap, r).skipped, Marked(lev, ToSkip(snap, r), t), u)
  {
    SkippedNow(snap, maxIter, r, lev, t, u);
    assert forall p :: p in Ins(snap, u) ==> p !in ToSkip(snap, r);
    SettledNow(snap, r.skipped, SettleSkips(snap, r).skipped, lev, Marked(lev, ToSkip(snap, r), t), u, t);
  }

  lemma SettleTimed(snap: Snapshot, maxIter: nat, r: Run, lev: Levels, t: nat)
    requires WellBuilt(snap) && RunInv(snap, maxIter, r) && Timed(snap, r, lev, t) && Waiting(snap, r, lev, t)
    ensures Timed(snap, SettleSkips(snap, r), Marked(lev, ToSkip(snap, r), t), t + 1)
  {
    var now, skips := ToSkip(snap, r), SettleSkips(snap, r).skipped;
    var lev1 := Marked(lev, now, t);
    forall u | u in lev1
      ensures OnTime(snap, skips, lev1, u)
      ensures (u in skips ==> Guarded(snap, u) && forall p :: p in Ins(snap, u) ==> p !in skips)
    {
      if u in now {
        NewSkipOnTime(snap, maxIter, r, lev, t, u);
      } else {
        OldStaysOnTime(snap, r, lev, t, u);
      }
    }
  }

  lemma OldStaysOnTime(snap: Snapshot, r: Run, lev: Levels, t: nat, u: string)
    requires Timed(snap, r, lev, t) && u in lev
    ensures OnTime(snap, SettleSkips(snap, r).skipped, Marked(lev, ToSkip(snap, r), t), u)
    ensures u in r.skipped ==> Guarded(snap, u) && forall p :: p in Ins(snap, u) ==> p !in SettleSkips(snap, r).skipped
  {
    assert OnTime(snap, r.skipped, lev, u);
    StaysOnTime(snap, r.skipped, SettleSkips(snap, r).skipped, lev, Marked(lev, ToSkip(snap, r), t), u);
  }

  // ---- launching -----------------------------------------------------------------------------

  /** Once skips are settled, a launched node has its sources settled, one only just. */
  lemma LaunchedNow(snap: Snapshot, maxIter: nat, r: Run, lev: Levels, t: nat, u: string)
    requires WellBuilt(snap) && RunInv(snap, maxIter, r) && Timed(snap, r, lev, t) && Waiting(snap, r, lev, t)
    requires u in ReadySet(snap, SettleSkips(snap, r), maxIter)
    ensures var r1, lev1 := SettleSkips(snap, r), Marked(lev, ToSkip(snap, r), t);
            && u in snap.nodes && u !in lev1
            && (forall p :: p in Ins(snap, u) ==> p in lev1 && Avail(r1.skipped, lev1, p) <= t)
            && (t == 0 || Pushed(snap, r1.skipped, lev1, u, t))
  {
    var r1, lev1 := SettleSkips(snap, r), Marked(lev, ToSkip(snap, r), t);
    assert Runnable(snap, r1, maxIter, u);
    assert u in Elements(snap.order);
    forall p | p in Ins(snap, u)
      ensures p in lev1 && Avail(r1.skipped, lev1, p) <= t
    {
      assert Settled(r1, p);
    }
    if t > 0 {
      assert Held(snap, r.skipped, lev, u, t);
      var p :| p in Ins(snap, u) && (p in lev ==> Avail(r.skipped, lev, p) == t);
      assert Avail(r1.skipped, lev1, p) == t;
    }
  }

  /** A node that is neither settled nor launched waits for an unsettled source. */
  lemma NotLaunched(snap: Snapshot, maxIter: nat, r: Run, u: string)
    requires WellBuilt(snap) && RunInv(snap, maxIter, r) && maxIter >= 1
    requires u in snap.nodes && !Settled(SettleSkips(snap, r), u) && u !in ReadySet(snap, SettleSkips(snap, r), maxIter)
    ensures exists p :: p in Ins(snap, u) && !Settled(SettleSkips(snap, r), p)
  {
    var r1 := SettleSkips(snap, r);
    assert u in Elements(snap.order);
    assert !Runnable(snap, r1, maxIter, u);
    assert u !in ToSkip(snap, r);
  }

  /** The levels once skips are settled in turn `t`. */
  function AfterSkips(snap: Snapshot, r: Run, lev: Levels, t: nat): Levels {
    Marked(lev, ToSkip(snap, r), t)
  }

  /** What a round adds: the launched nodes that settle do so in this turn. */
  lemma RoundTimed(snap: Snapshot, maxIter: nat, r: Run, lev: Levels, t: nat, now: set<string>, r': Run)
    requires WellBuilt(snap) && RunInv(snap, maxIter, r) && Timed(snap, r, lev, t) && Waiting(snap, r, lev, t)
    requires now <= Elements(ReadySet(snap, SettleSkips(snap, r), maxIter))
    requires r'.done == r.done + now && r'.skipped == SettleSkips(snap, r).skipped
    ensures Timed(snap, r', Marked(AfterSkips(snap, r, lev, t), now, t), t + 1)
  {
    var r1, lev1 := SettleSkips(snap, r), AfterSkips(snap, r, lev, t);
    SettleTimed(snap, maxIter, r, lev, t);
    var lev2 := Marked(lev1, now, t);
    forall u | u in now
      ensures u !in lev1 && OnTime(snap, r1.skipped, lev2, u)
    {
      LaunchedOnTime(snap, maxIter, r, lev, t, now, u);
    }
    forall u | u in lev1
      ensures OnTime(snap, r1.skipped, lev2, u)
    {
      StaysOnTime(snap, r1.skipped, r1.skipped, lev1, lev2, u);
    }
  }

  lemma LaunchedOnTime(snap: Snapshot, maxIter: nat, r: Run, lev: Levels, t: nat, now: set<string>, u: string)
    requires WellBuilt(snap) && RunInv(snap, maxIter, r) && Timed(snap, r, lev, t) && Waiting(snap, r, lev, t)
    requires now <= Elements(ReadySet(snap, SettleSkips(snap, r), maxIter)) && u in now
    ensures u !in AfterSkips(snap, r, lev, t)
    ensures OnTime(snap, SettleSkips(snap, r).skipped, Marked(AfterSkips(snap, r, lev, t), now, t), u)
  {
    var skips, lev1 := SettleSkips(snap, r).skipped, AfterSkips(snap, r, lev, t);
    forall v | v in now
      ensures v !in lev1
    {
      LaunchedNow(snap, maxIter, r, lev, t, v);
    }
    LaunchedNow(snap, maxIter, r, lev, t, u);
    SettledNow(snap, skips, skips, lev1, Marked(lev1, now, t), u, t);
  }

  /** When the whole ready set is done, whoever is left waits for the next turn at least. */
  lemma RoundWaiting(snap: Snapshot, maxIter: nat, r: Run, lev: Levels, t: nat, r': Run)
    requires WellBuilt(snap) && RunInv(snap, maxIter, r) && maxIter >= 1 && lev.Keys == r.done + r.skipped
    requires r'.skipped == SettleSkips(snap, r).skipped
    requires r'.skipped !! Elements(ReadySet(snap, SettleSkips(snap, r), maxIter))
    ensures Waiting(snap, r', Marked(AfterSkips(snap, r, lev, t),
              Elements(ReadySet(snap, SettleSkips(snap, r), maxIter)), t), t + 1)
  {
    var r1 := SettleSkips(snap, r);
    var lev2 := Marked(AfterSkips(snap, r, lev, t), Elements(ReadySet(snap, r1, maxIter)), t);
    forall u | u in snap.nodes && u !in lev2
      ensures Held(snap, r'.skipped, lev2, u, t + 1)
    {
      NotLaunched(snap, maxIter, r, u);
      var p :| p in Ins(snap, u) && !Settled(r1, p);
      assert p in lev2 ==> lev2[p] == t;
    }
  }

  // ---- whole runs ------------------------------------------------------------------------------

  /** Without a router a turn launches the ready set. */
  lemma UnroutedTurn(snap: Snapshot, maxIter: nat, h: Head, c: Choice)
    requires snap.router.None?
    ensures Launch(snap, maxIter, h, c) == ReadySet(snap, SettleSkips(snap, h.run), maxIter)
    ensures Cleared(snap, SettleSkips(snap, h.run)) == SettleSkips(snap, h.run)
  {
  }

  /** What a continuing turn does to the settled sets. */
  lemma TurnSettles(snap: Snapshot, maxIter: nat, h: Head, c: Choice, h': Head)
    requires WellBuilt(snap) && RunInv(snap, maxIter, h.run) && snap.router.None?
    requires Turn(snap, maxIter, h, c) == Some(Again(h'))
    ensures h'.run.skipped == SettleSkips(snap, h.run).skipped
    ensures h'.run.done == h.run.done + Elements(Launch(snap, maxIter, h, c))
    ensures Launch(snap, maxIter, h, c) == [] ==> h'.run == SettleSkips(snap, h.run)
  {
    var r, launch := SettleSkips(snap, h.run), Launch(snap, maxIter, h, c);
    if launch != [] {
      var end := Play(snap, StartRound(r, Elements(launch)), c.steps).value;
      RoundResult(snap, r, Elements(launch), c.steps, end);
      FoldOutgoingExact(snap, end.run, end.completions);
    } else {
      assert h.run.done + Elements(launch) == h.run.done;
    }
  }

  ghost predicate TimedHead(snap: Snapshot, h: Head, lev: Levels, t: nat) {
    Timed(snap, h.run, lev, t) && (h.idle == 0 ==> Waiting(snap, h.run, lev, t))
  }

  /** One turn further: old levels stay, and whoever the turn launches or skips gets level `t`. */
  lemma TurnTimed(snap: Snapshot, maxIter: nat, h: Head, c: Choice, h': Head, lev: Levels, t: nat)
    returns (lev': Levels)
    requires WellBuilt(snap) && RunInv(snap, maxIter, h.run) && snap.router.None? && maxIter >= 1
    requires Timed(snap, h.run, lev, t) && Waiting(snap, h.run, lev, t)
    requires Turn(snap, maxIter, h, c) == Some(Again(h'))
    ensures TimedHead(snap, h', lev', t + 1)
    ensures forall u :: u in lev && u !in ToSkip(snap, h.run) && u !in Launch(snap, maxIter, h, c) ==>
              u in lev' && lev'[u] == lev[u]
    ensures forall u :: u in ToSkip(snap, h.run) || u in Launch(snap, maxIter, h, c) ==> u in lev' && lev'[u] == t
  {
    var launch := Launch(snap, maxIter, h, c);
    UnroutedTurn(snap, maxIter, h, c);
    TurnSettles(snap, maxIter, h, c, h');
    TurnCounts(snap, maxIter, h, c, h');
    lev' := Marked(AfterSkips(snap, h.run, lev, t), Elements(launch), t);
    RoundTimed(snap, maxIter, h.run, lev, t, Elements(launch), h'.run);
    if launch != [] {
      forall u | u in Elements(launch)
        ensures u !in h'.run.skipped
      {
        LaunchRule(snap, maxIter, h, c);
      }
      RoundWaiting(snap, maxIter, h.run, lev, t, h'.run);
    }
  }

  /** The nodes skipped by turn `i` of a run. */
  ghost function SkippedAt(snap: Snapshot, maxIter: nat, start: Run, cs: seq<Choice>, i: nat): set<string>
    requires i < |cs|
  {
    match Exec(snap, maxIter, start, cs[..i])
    case Some(Again(h)) => if cs[i].cancelled then {} else ToSkip(snap, h.run)
    case _ => {}
  }

  /** `lev` names for each settled node the turn of the run that launched or skipped it. */
  ghost predicate Recorded(snap: Snapshot, maxIter: nat, state: State, cs: seq<Choice>, r: Run, lev: Levels) {
    && (forall u :: u in r.done ==>
          u in lev && lev[u] < |cs| && u in LaunchedAt(snap, maxIter, FreshRun(state), cs, lev[u]))
    && (forall u :: u in r.skipped ==>
          u in lev && lev[u] < |cs| && u in SkippedAt(snap, maxIter, FreshRun(state), cs, lev[u]))
  }

  /** What an earlier turn did is on record in a longer run too. */
  lemma RecordedBefore(snap: Snapshot, maxIter: nat, state: State, cs: seq<Choice>, n: nat, r: Run, lev: Levels,
                       u: string)
    requires n <= |cs| && Recorded(snap, maxIter, state, cs[..n], r, lev)
    ensures u in r.done ==> u in lev && lev[u] < n && u in LaunchedAt(snap, maxIter, FreshRun(state), cs, lev[u])
    ensures u in r.skipped ==> u in lev && lev[u] < n && u in SkippedAt(snap, maxIter, FreshRun(state), cs, lev[u])
  {
    if u in lev && lev[u] < n {
      assert cs[..n][..lev[u]] == cs[..lev[u]];
    }
  }

  lemma TurnRecorded(snap: Snapshot, maxIter: nat, state: State, cs: seq<Choice>, before: Head, h: Head, lev: Levels,
                     lev': Levels)
    requires WellBuilt(snap) && snap.router.None? && cs != [] && lev.Keys == before.run.done + before.run.skipped
    requires Reaches(snap, maxIter, state, cs[..|cs| - 1], before) && Reaches(snap, maxIter, state, cs, h)
    requires Recorded(snap, maxIter, state, cs[..|cs| - 1], before.run, lev)
    requires forall u :: u in lev ==> u in lev' && lev'[u] == lev[u]
    requires forall u :: u in ToSkip(snap, before.run) || u in Launch(snap, maxIter, before, cs[|cs| - 1]) ==>
               u in lev' && lev'[u] == |cs| - 1
    ensures Recorded(snap, maxIter, state, cs, h.run, lev')
  {
    var n := |cs| - 1;
    ReachableInv(snap, maxIter, state, cs[..n], before);
    TurnSettles(snap, maxIter, before, cs[n], h);
    forall u | u in h.run.done
      ensures u in lev' && lev'[u] < |cs| && u in LaunchedAt(snap, maxIter, FreshRun(state), cs, lev'[u])
    {
      RecordedBefore(snap, maxIter, state, cs, n, before.run, lev, u);
    }
    forall u | u in h.run.skipped
      ensures u in lev' && lev'[u] < |cs| && u in SkippedAt(snap, maxIter, FreshRun(state), cs, lev'[u])
    {
      RecordedBefore(snap, maxIter, state, cs, n, before.run, lev, u);
    }
  }

  /** In every run without a router the turns that settled the nodes form a timetable: each node
      was launched or skipped in the first turn its sources allowed. */
  lemma {:induction false} ReachTimed(snap: Snapshot, maxIter: nat, state: State, cs: seq<Choice>, h: Head)
    returns (lev: Levels)
    requires WellBuilt(snap) && snap.router.None? && maxIter >= 1
    requires Reaches(snap, maxIter, state, cs, h)
    ensures TimedHead(snap, h, lev, |cs|)
    ensures Recorded(snap, maxIter, state, cs, h.run, lev)
    decreases |cs|
  {
    if cs == [] {
      lev := map[];
    } else {
      var front := cs[..|cs| - 1];
      var before := Exec(snap, maxIter, FreshRun(state), front).value.head;
      ReachableInv(snap, maxIter, state, front, before);
      NoTurnAfterIdle(snap, maxIter, state, cs, before, h);
      var earlier := ReachTimed(snap, maxIter, state, front, before);
      lev := TurnTimed(snap, maxIter, before, cs[|cs| - 1], h, earlier, |front|);
      LevelsStay(snap, maxIter, before, cs[|cs| - 1], earlier, lev);
      TurnRecorded(snap, maxIter, state, cs, before, h, earlier, lev);
    }
  }

  /** A settled node is neither skipped nor launched again. */
  lemma LevelsStay(snap: Snapshot, maxIter: nat, h: Head, c: Choice, lev: Levels, lev': Levels)
    requires WellBuilt(snap) && snap.router.None? && lev.Keys == h.run.done + h.run.skipped
    requires forall u :: u in lev && u !in ToSkip(snap, h.run) && u !in Launch(snap, maxIter, h, c) ==>
              u in lev' && lev'[u] == lev[u]
    ensures forall u :: u in lev ==> u in lev' && lev'[u] == lev[u]
  {
    LaunchRule(snap, maxIter, h, c);
    forall u | u in lev
      ensures u in lev' && lev'[u] == lev[u]
    {
      assert Settled(h.run, u);
      assert u !in Launch(snap, maxIter, h, c) by {
        UnroutedTurn(snap, maxIter, h, c);
      }
    }
  }

  /** From an idle head an uncancelled turn returns nil with nothing changed. */
  lemma IdleHeadReturns(snap: Snapshot, maxIter: nat, state: State, cs: seq<Choice>, h: Head, c: Choice)
    requires WellBuilt(snap) && Reaches(snap, maxIter, state, cs, h) && h.idle > 0
    requires Turn(snap, maxIter, h, c).Some? && !c.cancelled
    ensures Turn(snap, maxIter, h, c) == Some(Return(h.run, None))
  {
    var first := Exec(snap, maxIter, FreshRun(state), cs[..|cs| - 1]).value.head;
    ReachableInv(snap, maxIter, state, cs[..|cs| - 1], first);
    IdleIsFixpoint(snap, maxIter, first, cs[|cs| - 1], h, c);
  }

  /** An idle head has no successor: the run returns from it. */
  lemma NoTurnAfterIdle(snap: Snapshot, maxIter: nat, state: State, cs: seq<Choice>, before: Head, h: Head)
    requires WellBuilt(snap) && cs != [] && Reaches(snap, maxIter, state, cs[..|cs| - 1], before)
    requires Reaches(snap, maxIter, state, cs, h)
    ensures before.idle == 0
  {
    if before.idle > 0 {
      IdleHeadReturns(snap, maxIter, state, cs[..|cs| - 1], before, cs[|cs| - 1]);
    }
  }

  // ---- which nodes a nil return leaves pending ---------------------------------------------------

  /** Settled sources rank strictly below: later levels, and within a level skipped before run. */
  function Ranks(skips: set<string>, lev: Levels): map<string, nat> {
    map u | u in lev :: 2 * lev[u] + if u in skips then 0 else 1
  }

  lemma RankFallsOnce(snap: Snapshot, r: Run, lev: Levels, t: nat, u: string, p: string)
    requires Timed(snap, r, lev, t) && u in lev && p in Ins(snap, u)
    ensures p in lev && Ranks(r.skipped, lev)[p] < Ranks(r.skipped, lev)[u]
  {
    assert OnTime(snap, r.skipped, lev, u);
    assert Avail(r.skipped, lev, p) <= lev[u];
  }

  /** A settled node is not stuck: going back from it one meets only settled nodes, of ever
      lower rank. */
  lemma SettledIsNotStuck(snap: Snapshot, r: Run, lev: Levels, t: nat, id: string)
    requires Timed(snap, r, lev, t) && lev.Keys <= snap.nodes.Keys && id in lev
    ensures !Stuck(snap, id)
  {
    var rank := Ranks(r.skipped, lev);
    forall u, p {:trigger p in PredsOf(snap.ins, u)} | u in rank && p in PredsOf(snap.ins, u)
      ensures p in rank && rank[p] < rank[u]
    {
      RankFallsOnce(snap, r, lev, t, u, p);
    }
    RankedAvoidsCycles(snap.ins, rank, id);
    assert forall x :: x in rank ==> x in lev.Keys;
  }

  lemma NilTurn(snap: Snapshot, maxIter: nat, h: Head, c: Choice, r: Run)
    requires snap.router.None? && Turn(snap, maxIter, h, c) == Some(Return(r, None))
    ensures r == SettleSkips(snap, h.run) && !c.cancelled
  {
  }

  lemma NilTurnTimed(snap: Snapshot, maxIter: nat, h: Head, r: Run, lev: Levels, t: nat) returns (lev': Levels, t': nat)
    requires WellBuilt(snap) && RunInv(snap, maxIter, h.run) && TimedHead(snap, h, lev, t)
    requires r == if h.idle == 0 then SettleSkips(snap, h.run) else h.run
    ensures Timed(snap, r, lev', t')
  {
    lev', t' := lev, t;
    if h.idle == 0 {
      SettleTimed(snap, maxIter, h.run, lev, t);
      lev', t' := AfterSkips(snap, h.run, lev, t), t + 1;
    }
  }

  /** The levels of the final state of a nil return. */
  lemma NilReturnTimed(snap: Snapshot, maxIter: nat, state: State, cs: seq<Choice>, r: Run)
    returns (lev: Levels, t: nat)
    requires WellBuilt(snap) && snap.router.None? && maxIter >= 1
    requires Returns(snap, maxIter, state, cs, r, None)
    ensures Timed(snap, r, lev, t)
  {
    var h := LastHead(snap, maxIter, state, cs, r, None);
    var front, c := cs[..|cs| - 1], cs[|cs| - 1];
    NilTurn(snap, maxIter, h, c, r);
    if h.idle > 0 {
      IdleHeadReturns(snap, maxIter, state, front, h, c);
    }
    lev := ReachTimed(snap, maxIter, state, front, h);
    lev, t := NilTurnTimed(snap, maxIter, h, r, lev, |front|);
  }

  /** Without a router a nil return leaves pending exactly the nodes from which one gets back to
      an unknown id or to a cycle. */
  lemma NilReturnExact(snap: Snapshot, maxIter: nat, state: State, cs: seq<Choice>, r: Run, id: string)
    requires WellBuilt(snap) && snap.router.None? && maxIter >= 1
    requires Returns(snap, maxIter, state, cs, r, None)
    ensures Pending(snap, r, id) <==> id in snap.nodes && Stuck(snap, id)
  {
    RunKeepsKeys(snap, maxIter, state, cs, r, None);
    assert id in snap.nodes <==> id in Elements(snap.order);
    if Pending(snap, r, id) {
      PendingReturnsStuck(snap, maxIter, state, cs, r, id);
    } else if id in snap.nodes {
      var lev, t := NilReturnTimed(snap, maxIter, state, cs, r);
      SettledIsNotStuck(snap, r, lev, t, id);
    }
  }
}
