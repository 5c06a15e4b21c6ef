/** Whole runs that do not depend on the schedule. If every node writes keys of its own only, and
    what it answers depends on no key of a node it does not depend on, then without a router any
    two runs go through the same states turn by turn and end alike. */
module GraphDataflow {
  import opened Basics
  import opened Digraph
  import opened GraphModel
  import opened GraphRound
  import opened GraphRuns
  import opened GraphTiming
  import opened GraphNesting
  import opened GraphConfluence

  /** The keys each node may write. */
  type Owners = map<string, set<string>>

  /** A key that no node owns but `id` and the nodes it depends on. */
  ghost predicate Readable(snap: Snapshot, owns: Owners, id: string, k: string) {
    forall j :: j in owns && j != id && k in owns[j] ==> DependsOn(snap.ins, id, j)
  }

  /** Two states that show `id` the same. */
  ghost predicate SameView(snap: Snapshot, owns: Owners, id: string, s: State, t: State) {
    forall k :: Readable(snap, owns, id, k) ==> (k in s <==> k in t) && (k in s && k in t ==> s[k] == t[k])
  }

  ghost predicate AddsOnly(own: set<string>, copy: State, e: Effect) {
    e.Merge? ==> forall k :: k in e.writes ==> k in own || (k in copy && e.writes[k] == copy[k])
  }

  ghost predicate SameAnswer(own: set<string>, e: Effect, e': Effect) {
    && (e.Merge? <==> e'.Merge?)
    && (e.Merge? && e'.Merge? ==>
          forall k :: k in own ==>
              (k in e.writes <==> k in e'.writes) && (k in e.writes && k in e'.writes ==> e.writes[k] == e'.writes[k]))
  }

  /** A node that adds keys of its own only, the same ones whenever it sees the same. */
  ghost predicate Functional(snap: Snapshot, owns: Owners, id: string)
    requires id in owns
  {
    && (forall copy, e :: GenuineAnswer(true, snap, id, copy, e) ==> AddsOnly(owns[id], copy, e))
    && (forall copy, e, copy',
          e' {:trigger GenuineAnswer(true, snap, id, copy, e), GenuineAnswer(true, snap, id, copy', e')} ::
          GenuineAnswer(true, snap, id, copy, e) && GenuineAnswer(true, snap, id, copy', e')
              && SameView(snap, owns, id, copy, copy')
          ==> SameAnswer(owns[id], e, e'))
  }

  /** Every node is functional, and no key has two owners or is given at the start. */
  ghost predicate Dataflow(snap: Snapshot, owns: Owners, given: set<string>) {
    && owns.Keys == snap.nodes.Keys
    && (forall id :: id in owns ==> owns[id] !! given && Functional(snap, owns, id))
    && (forall i, j :: i in owns && j in owns && i != j ==> owns[i] !! owns[j])
  }

  // ---- one round -------------------------------------------------------------------------------

  ghost predicate Offers(snap: Snapshot, owns: Owners, base: State, id: string, copy: State, e: Effect) {
    SameView(snap, owns, id, base, copy) && GenuineAnswer(true, snap, id, copy, e) && e.Merge?
  }

  /** What the node adds to any state that looks to it like `base`. */
  ghost function Planned(snap: Snapshot, owns: Owners, base: State, id: string): Option<State>
    requires id in owns
  {
    if exists copy, e :: Offers(snap, owns, base, id, copy, e) then
      var copy, e :| Offers(snap, owns, base, id, copy, e);
      Some(map k | k in e.writes && k in owns[id] :: e.writes[k])
    else None
  }

  ghost function PlanOf(snap: Snapshot, owns: Owners, base: State, launch: set<string>): Plan
    requires launch <= owns.Keys
  {
    map id | id in launch :: Planned(snap, owns, base, id)
  }

  /** Nobody in the round depends on another, and none of their keys is there yet. */
  ghost predicate Apart(snap: Snapshot, owns: Owners, base: State, launch: set<string>) {
    && launch <= owns.Keys
    && (forall id :: id in launch ==> owns[id] !! base.Keys)
    && (forall i, j :: i in launch && j in launch && i != j ==> !DependsOn(snap.ins, i, j))
  }

  lemma PlannedIsOwn(snap: Snapshot, owns: Owners, base: State, launch: set<string>, id: string, k: string)
    requires launch <= owns.Keys && Writes(PlanOf(snap, owns, base, launch), id, k)
    ensures id in launch && k in owns[id]
  {
  }

  lemma PlanIsFresh(snap: Snapshot, owns: Owners, given: set<string>, base: State, launch: set<string>)
    requires Dataflow(snap, owns, given) && Apart(snap, owns, base, launch)
    ensures FreshKeys(base, PlanOf(snap, owns, base, launch))
  {
    var plan := PlanOf(snap, owns, base, launch);
    forall id, k | Writes(plan, id, k)
      ensures k !in base && !SiblingKey(plan, id, k)
    {
      PlannedIsOwn(snap, owns, base, launch, id, k);
      forall j | j != id && Writes(plan, j, k)
        ensures false
      {
        PlannedIsOwn(snap, owns, base, launch, j, k);
      }
    }
  }

  /** Whatever siblings have written by then, a copy looks to the node like the start state. */
  lemma CopyLooksAlike(snap: Snapshot, owns: Owners, base: State, launch: set<string>, id: string, copy: State)
    requires Apart(snap, owns, base, launch) && id in launch
    requires PossibleCopy(base, PlanOf(snap, owns, base, launch), id, copy)
    ensures SameView(snap, owns, id, base, copy)
  {
    var plan := PlanOf(snap, owns, base, launch);
    forall k | Readable(snap, owns, id, k) && k in copy
      ensures k in base
    {
      if SiblingKey(plan, id, k) {
        var j :| j != id && Writes(plan, j, k);
        PlannedIsOwn(snap, owns, base, launch, j, k);
      }
    }
  }

  lemma AnswersAsPlanned(snap: Snapshot, owns: Owners, base: State, launch: set<string>, id: string, copy: State,
                         e: Effect)
    requires launch <= owns.Keys && id in launch && Functional(snap, owns, id)
    requires SameView(snap, owns, id, base, copy) && GenuineAnswer(true, snap, id, copy, e)
    ensures AsPlanned(PlanOf(snap, owns, base, launch), id, copy, e)
  {
    if exists copy', e' :: Offers(snap, owns, base, id, copy', e') {
      var copy', e' :| Offers(snap, owns, base, id, copy', e')
                       && Planned(snap, owns, base, id) ==
                             Some(map k | k in e'.writes && k in owns[id] :: e'.writes[k]);
      assert SameView(snap, owns, id, copy, copy');
      assert SameAnswer(owns[id], e, e');
    } else {
      assert e.Merge? ==> Offers(snap, owns, base, id, copy, e);
    }
  }

  lemma RoundIsIndependent(snap: Snapshot, owns: Owners, given: set<string>, base: State, launch: set<string>)
    requires Dataflow(snap, owns, given) && Apart(snap, owns, base, launch)
    ensures Independent(snap, base, PlanOf(snap, owns, base, launch))
  {
    var plan := PlanOf(snap, owns, base, launch);
    PlanIsFresh(snap, owns, given, base, launch);
    forall id, copy, e {:trigger GenuineAnswer(true, snap, id, copy, e)} |
      id in plan && PossibleCopy(base, plan, id, copy) && GenuineAnswer(true, snap, id, copy, e)
      ensures AsPlanned(plan, id, copy, e)
    {
      CopyLooksAlike(snap, owns, base, launch, id, copy);
      AnswersAsPlanned(snap, owns, base, launch, id, copy, e);
    }
  }

  /** Every key was given or belongs to a node that is done. */
  ghost predicate Owned(owns: Owners, given: set<string>, r: Run) {
    forall k :: k in r.state ==> k in given || exists j :: j in r.done && j in owns && k in owns[j]
  }

  /** Equal but for the router's seed, which nobody reads here. */
  ghost predicate Like(r: Run, q: Run) {
    q == r.(lastDone := q.lastDone)
  }

  lemma RoundsAlike(snap: Snapshot, owns: Owners, given: set<string>, r: Run, q: Run, launch: set<string>,
                    xs: seq<Step>, c: Round, ys: seq<Step>, d: Round)
    requires Dataflow(snap, owns, given) && Apart(snap, owns, r.state, launch) && Like(r, q) && Owned(owns, given, r)
    requires Completes(snap, r, launch, xs, c) && GenuineRound(true, snap, StartRound(r, launch), xs)
    requires Completes(snap, q, launch, ys, d) && GenuineRound(true, snap, StartRound(q, launch), ys)
    ensures Like(EvaluateAll(snap, c.run, c.completions), EvaluateAll(snap, d.run, d.completions))
    ensures c.firstErr.None? <==> d.firstErr.None?
    ensures Owned(owns, given, EvaluateAll(snap, c.run, c.completions))
  {
    var plan := PlanOf(snap, owns, r.state, launch);
    RoundIsIndependent(snap, owns, given, r.state, launch);
    assert plan.Keys == launch;
    RoundAsPlanned(snap, r, plan, xs, c);
    RoundAsPlanned(snap, q, plan, ys, d);
    BasePlusUnique(r.state, plan, plan.Keys, c.run.state, d.run.state);
    SameBookkeeping(snap, r, q, launch, xs, c, ys, d);
    RoundOwned(snap, owns, given, r, launch, xs, c);
  }

  lemma RoundAsPlanned(snap: Snapshot, r: Run, plan: Plan, steps: seq<Step>, c: Round)
    requires Independent(snap, r.state, plan) && Completes(snap, r, plan.Keys, steps, c)
    requires GenuineRound(true, snap, StartRound(r, plan.Keys), steps)
    ensures BasePlus(r.state, plan, plan.Keys, c.run.state)
    ensures Elements(c.completions) == set id | id in plan && Succeeds(plan, id)
    ensures c.run.failed == r.failed + set id | id in plan && !Succeeds(plan, id) && Executable(snap, id)
  {
    IndependentFollows(snap, r, plan, steps, c);
    RoundEndsAsPlanned(snap, r, plan, steps, c);
  }

  lemma RoundOwned(snap: Snapshot, owns: Owners, given: set<string>, r: Run, launch: set<string>, steps: seq<Step>,
                   c: Round)
    requires launch <= owns.Keys && Owned(owns, given, r) && Completes(snap, r, launch, steps, c)
    requires var plan := PlanOf(snap, owns, r.state, launch);
             BasePlus(r.state, plan, plan.Keys, c.run.state) && Elements(c.completions) == set id | id in plan
                 && Succeeds(plan, id)
    ensures Owned(owns, given, EvaluateAll(snap, c.run, c.completions))
  {
    var plan, r' := PlanOf(snap, owns, r.state, launch), EvaluateAll(snap, c.run, c.completions);
    RoundResult(snap, r, launch, steps, c);
    FoldOutgoingExact(snap, c.run, c.completions);
    forall k | k in r'.state
      ensures k in given || exists j :: j in r'.done && j in owns && k in owns[j]
    {
      if k in r.state {
        assert k in given || exists j :: j in r.done && j in owns && k in owns[j];
      } else {
        var id :| id in plan.Keys && Writes(plan, id, k);
        PlannedIsOwn(snap, owns, r.state, launch, id, k);
        assert id in Elements(c.completions);
      }
    }
  }

  // ---- one turn --------------------------------------------------------------------------------

  /** Without a router the sources of whatever is settled are settled. */
  lemma SettledBehind(snap: Snapshot, maxIter: nat, state: State, cs: seq<Choice>, h: Head)
    requires WellBuilt(snap) && snap.router.None? && maxIter >= 1 && Reaches(snap, maxIter, state, cs, h)
    ensures forall u, p {:trigger p in PredsOf(snap.ins, u)} ::
              Settled(SettleSkips(snap, h.run), u) && p in PredsOf(snap.ins, u) ==> Settled(SettleSkips(snap, h.run), p)
  {
    ReachableInv(snap, maxIter, state, cs, h);
    var lev := ReachTimed(snap, maxIter, state, cs, h);
    forall u, p {:trigger p in PredsOf(snap.ins, u)} |
      Settled(SettleSkips(snap, h.run), u) && p in PredsOf(snap.ins, u)
      ensures Settled(SettleSkips(snap, h.run), p)
    {
      assert p in Ins(snap, u);
      if Settled(h.run, u) {
        assert OnTime(snap, h.run.skipped, lev, u);
        assert p in lev.Keys;
      } else {
        assert (p, u) in h.run.dead;
      }
    }
  }

  /** Nodes launched together do not depend on each other. */
  lemma LaunchedApart(snap: Snapshot, maxIter: nat, state: State, cs: seq<Choice>, h: Head, i: string, j: string)
    requires WellBuilt(snap) && snap.router.None? && maxIter >= 1 && Reaches(snap, maxIter, state, cs, h)
    requires var ready := ReadySet(snap, SettleSkips(snap, h.run), maxIter); i in ready && j in ready && i != j
    ensures !DependsOn(snap.ins, i, j)
  {
    var r := SettleSkips(snap, h.run);
    if DependsOn(snap.ins, i, j) {
      var p := DependsVia(snap.ins, i, j);
      assert Runnable(snap, r, maxIter, i) && p in Ins(snap, i);
      SettledBehind(snap, maxIter, state, cs, h);
      DependsWithin(snap.ins, r.done + r.skipped + r.failed, p, j);
    }
  }

  lemma LaunchIsApart(snap: Snapshot, maxIter: nat, state: State, owns: Owners, cs: seq<Choice>, h: Head)
    requires WellBuilt(snap) && snap.router.None? && maxIter >= 1 && Reaches(snap, maxIter, state, cs, h)
    requires Dataflow(snap, owns, state.Keys) && Owned(owns, state.Keys, h.run)
    ensures Apart(snap, owns, h.run.state, Elements(ReadySet(snap, SettleSkips(snap, h.run), maxIter)))
  {
    var launch := Elements(ReadySet(snap, SettleSkips(snap, h.run), maxIter));
    forall id | id in launch
      ensures id in owns && owns[id] !! h.run.state.Keys
    {
      assert id in Elements(snap.order);
      assert !Settled(SettleSkips(snap, h.run), id);
    }
    forall i, j | i in launch && j in launch && i != j
      ensures !DependsOn(snap.ins, i, j)
    {
      LaunchedApart(snap, maxIter, state, cs, h, i, j);
    }
  }

  /** Two outcomes of a turn that differ in the router's seed alone, or name different failures of
      the same round. */
  ghost predicate Alike(o: Outcome, p: Outcome) {
    match (o, p)
    case (Again(h), Again(g)) => Like(h.run, g.run) && h.idle == g.idle
    case (Return(r, err), Return(q, err')) => Like(r, q) && (err.None? <==> err'.None?)
    case _ => false
  }

  lemma LikeReady(snap: Snapshot, maxIter: nat, r: Run, q: Run)
    requires Like(r, q)
    ensures Like(SettleSkips(snap, r), SettleSkips(snap, q))
    ensures ReadySet(snap, SettleSkips(snap, r), maxIter) == ReadySet(snap, SettleSkips(snap, q), maxIter)
  {
    assert forall id :: Settled(q, id) <==> Settled(r, id);
    assert ToSkip(snap, q) == ToSkip(snap, r);
    var r1, q1 := SettleSkips(snap, r), SettleSkips(snap, q);
    SelectIgnoresLastDone(snap, r1, maxIter, snap.order);
    SelectIgnoresLastDone(snap, q1, maxIter, snap.order);
    assert r1.(lastDone := "") == q1.(lastDone := "");
  }

  /** From like heads two turns lead to like outcomes. */
  lemma TurnsAlike(snap: Snapshot, maxIter: nat, state: State, owns: Owners, cs: seq<Choice>, h: Head, c: Choice,
                   g: Head, d: Choice)
    requires WellBuilt(snap) && snap.router.None? && maxIter >= 1 && Reaches(snap, maxIter, state, cs, h)
    requires Dataflow(snap, owns, state.Keys) && Owned(owns, state.Keys, h.run) && Alike(Again(h), Again(g))
    requires Turn(snap, maxIter, h, c).Some? && GenuineChoice(true, snap, maxIter, h, c)
    requires Turn(snap, maxIter, g, d).Some? && GenuineChoice(true, snap, maxIter, g, d)
    ensures Alike(Turn(snap, maxIter, h, c).value, Turn(snap, maxIter, g, d).value)
    ensures Turn(snap, maxIter, h, c).value.Again? ==> Owned(owns, state.Keys, Turn(snap, maxIter, h, c).value.head.run)
  {
    var r, q := SettleSkips(snap, h.run), SettleSkips(snap, g.run);
    LikeReady(snap, maxIter, h.run, g.run);
    UnroutedTurn(snap, maxIter, h, c);
    UnroutedTurn(snap, maxIter, g, d);
    var launch := ReadySet(snap, r, maxIter);
    if launch == [] {
      assert forall id :: Pending(snap, r, id) <==> Pending(snap, q, id);
    } else {
      LaunchIsApart(snap, maxIter, state, owns, cs, h);
      var xs := Play(snap, StartRound(r, Elements(launch)), c.steps).value;
      var ys := Play(snap, StartRound(q, Elements(launch)), d.steps).value;
      RoundsAlike(snap, owns, state.Keys, r, q, Elements(launch), c.steps, xs, d.steps, ys);
    }
  }

  // ---- whole runs ---------------------------------------------------------------------------------

  /** Two runs of the same number of turns have come equally far. */
  lemma {:induction false} Lockstep(snap: Snapshot, maxIter: nat, state: State, owns: Owners, cs: seq<Choice>,
                                    ds: seq<Choice>)
    requires WellBuilt(snap) && snap.router.None? && maxIter >= 1 && Dataflow(snap, owns, state.Keys)
    requires Exec(snap, maxIter, FreshRun(state), cs).Some? && Genuine(true, snap, maxIter, state, cs)
    requires Exec(snap, maxIter, FreshRun(state), ds).Some? && Genuine(true, snap, maxIter, state, ds)
    requires |cs| == |ds|
    ensures var o := Exec(snap, maxIter, FreshRun(state), cs).value;
            && Alike(o, Exec(snap, maxIter, FreshRun(state), ds).value)
            && (o.Again? ==> Owned(owns, state.Keys, o.head.run))
    decreases |cs|
  {
    if cs != [] {
      var front, back := cs[..|cs| - 1], ds[..|ds| - 1];
      Lockstep(snap, maxIter, state, owns, front, back);
      var h := Exec(snap, maxIter, FreshRun(state), front).value.head;
      var g := Exec(snap, maxIter, FreshRun(state), back).value.head;
      TurnsAlike(snap, maxIter, state, owns, front, h, cs[|cs| - 1], g, ds[|ds| - 1]);
    }
  }

  lemma {:induction false} GenuinePrefix(calm: bool, snap: Snapshot, maxIter: nat, state: State, cs: seq<Choice>,
                                         n: nat)
    requires Genuine(calm, snap, maxIter, state, cs) && n <= |cs|
    ensures Genuine(calm, snap, maxIter, state, cs[..n])
    decreases |cs|
  {
    if n < |cs| {
      var front := cs[..|cs| - 1];
      GenuinePrefix(calm, snap, maxIter, state, front, n);
      assert front[..n] == cs[..n];
    } else {
      assert cs[..n] == cs;
    }
  }

  /** A run that returns is no longer than another one. */
  lemma NoLonger(snap: Snapshot, maxIter: nat, state: State, owns: Owners, cs: seq<Choice>, r: Run, err: Option<Error>,
                 ds: seq<Choice>)
    requires WellBuilt(snap) && snap.router.None? && maxIter >= 1 && Dataflow(snap, owns, state.Keys)
    requires Returns(snap, maxIter, state, cs, r, err) && Genuine(true, snap, maxIter, state, cs)
    requires Exec(snap, maxIter, FreshRun(state), ds).Some? && Genuine(true, snap, maxIter, state, ds)
    ensures |ds| <= |cs|
  {
    if |cs| < |ds| {
      PrefixRuns(snap, maxIter, state, ds, |cs|);
      GenuinePrefix(true, snap, maxIter, state, ds, |cs|);
      Lockstep(snap, maxIter, state, owns, cs, ds[..|cs|]);
    }
  }

  /** Confluence of whole runs: whatever the schedules, two runs that are not cancelled take the
      same number of turns, both succeed or both fail, and end with the same state, the same nodes
      done, skipped and failed, the same executions and the same dead edges. */
  lemma RunConfluence(snap: Snapshot, maxIter: nat, state: State, owns: Owners,
                      cs: seq<Choice>, r: Run, err: Option<Error>, ds: seq<Choice>, q: Run, err': Option<Error>)
    requires WellBuilt(snap) && snap.router.None? && maxIter >= 1 && Dataflow(snap, owns, state.Keys)
    requires Returns(snap, maxIter, state, cs, r, err) && Genuine(true, snap, maxIter, state, cs)
    requires Returns(snap, maxIter, state, ds, q, err') && Genuine(true, snap, maxIter, state, ds)
    ensures |cs| == |ds| && (err.None? <==> err'.None?)
    ensures r.(lastDone := "") == q.(lastDone := "")
  {
    NoLonger(snap, maxIter, state, owns, cs, r, err, ds);
    NoLonger(snap, maxIter, state, owns, ds, q, err', cs);
    Lockstep(snap, maxIter, state, owns, cs, ds);
  }

  // ---- graphs that qualify --------------------------------------------------------------------------

  /** A function node that only adds its own keys, whatever its input. */
  lemma WriterIsFunctional(snap: Snapshot, owns: Owners, id: string, w: State)
    requires id in owns && owns[id] == w.Keys && AddsOwnKeys(snap, id, w)
    ensures Functional(snap, owns, id)
  {
    forall copy, e | GenuineAnswer(true, snap, id, copy, e)
      ensures e == Merge(copy + w)
    {
      assert Answers(snap, id, copy, e);
      var k: int :| e == FnEffect(snap.nodes[id].fn(copy, k));
    }
  }

  /** An agent whose answer depends on its input alone. */
  ghost predicate Repeatable(snap: Snapshot, id: string) {
    && id in snap.nodes && snap.nodes[id].AgentNode?
    && forall input, k: int, k': int :: snap.nodes[id].submit(input, k) == snap.nodes[id].submit(input, k')
  }

  /** Its input is its only upstream's output, or the global one. */
  lemma SameInput(snap: Snapshot, owns: Owners, id: string, s: State, t: State)
    requires SameView(snap, owns, id, s, t) && Readable(snap, owns, id, "input")
    requires forall j, k :: j in owns && k in owns[j] && k in Ins(snap, id) ==> j == k
    ensures AgentInput(snap, s, id) == AgentInput(snap, t, id)
  {
    var ins := Ins(snap, id);
    if |ins| == 1 {
      assert Readable(snap, owns, id, ins[0]) by {
        DependsOnItself(snap.ins, ins[0]);
        DependsOnThrough(snap.ins, id, ins[0], ins[0]);
      }
    }
  }

  lemma AgentIsFunctional(snap: Snapshot, owns: Owners, id: string)
    requires id in owns && owns[id] == {id} && Repeatable(snap, id) && Readable(snap, owns, id, "input")
    requires forall j, k :: j in owns && k in owns[j] && k in Ins(snap, id) ==> j == k
    ensures Functional(snap, owns, id)
  {
    var submit := snap.nodes[id].submit;
    forall copy, e | GenuineAnswer(true, snap, id, copy, e)
      ensures e == AgentEffect(id, submit(AgentInput(snap, copy, id), 0))
    {
      assert Answers(snap, id, copy, e);
      var k: int :| e == AgentEffect(id, submit(AgentInput(snap, copy, id), k));
    }
    forall s, t | SameView(snap, owns, id, s, t)
      ensures AgentInput(snap, s, id) == AgentInput(snap, t, id)
    {
      SameInput(snap, owns, id, s, t);
    }
  }

  /** A key of the writer `id` and of nobody else: not given, no node's output, not "input". */
  ghost predicate Private(snap: Snapshot, ws: map<string, State>, given: set<string>, id: string, k: string) {
    k !in given && k !in snap.nodes && k != "input" && forall j :: j in ws && j != id ==> k !in ws[j]
  }

  ghost predicate PrivateWriter(snap: Snapshot, ws: map<string, State>, given: set<string>, id: string) {
    id in ws && AddsOwnKeys(snap, id, ws[id]) && forall k :: k in ws[id] ==> Private(snap, ws, given, id, k)
  }

  /** Agents that answer the same input alike, and function nodes that add keys of their own. */
  ghost predicate Pipeline(snap: Snapshot, ws: map<string, State>, given: set<string>) {
    && "input" !in snap.nodes && snap.nodes.Keys !! given
    && forall id :: id in snap.nodes ==> Repeatable(snap, id) || PrivateWriter(snap, ws, given, id)
  }

  function PipelineOwners(snap: Snapshot, ws: map<string, State>): Owners {
    map id | id in snap.nodes :: if snap.nodes[id].FnNode? && id in ws then ws[id].Keys else {id}
  }

  /** Each key has one owner, and a node's output is its own. */
  lemma PipelineOwner(snap: Snapshot, ws: map<string, State>, given: set<string>, j: string, k: string)
    requires Pipeline(snap, ws, given)
    requires var owns := PipelineOwners(snap, ws); j in owns && k in owns[j]
    ensures k !in given && k != "input" && (k in snap.nodes ==> j == k)
    ensures forall i :: i in PipelineOwners(snap, ws) && k in PipelineOwners(snap, ws)[i] ==> i == j
  {
    assert j in snap.nodes.Keys;
    forall i | i in PipelineOwners(snap, ws) && k in PipelineOwners(snap, ws)[i]
      ensures i == j
    {
      assert Repeatable(snap, i) || PrivateWriter(snap, ws, given, i);
      assert Repeatable(snap, j) || PrivateWriter(snap, ws, given, j);
      if PrivateWriter(snap, ws, given, i) {
        assert Private(snap, ws, given, i, k);
      }
      if PrivateWriter(snap, ws, given, j) {
        assert Private(snap, ws, given, j, k);
      }
    }
    if PrivateWriter(snap, ws, given, j) {
      assert Private(snap, ws, given, j, k);
    }
  }

  lemma PipelineNode(snap: Snapshot, ws: map<string, State>, given: set<string>, id: string)
    requires WellBuilt(snap) && Closed(snap) && Pipeline(snap, ws, given) && id in snap.nodes
    ensures id in PipelineOwners(snap, ws) && Functional(snap, PipelineOwners(snap, ws), id)
  {
    var owns := PipelineOwners(snap, ws);
    if Repeatable(snap, id) {
      forall j, k | j in owns && k in owns[j]
        ensures k != "input" && (k in Ins(snap, id) ==> j == k)
      {
        PipelineOwner(snap, ws, given, j, k);
        assert k in Ins(snap, id) ==> id in Outs(snap, k);
      }
      AgentIsFunctional(snap, owns, id);
    } else {
      WriterIsFunctional(snap, owns, id, ws[id]);
    }
  }

  /** Validated pipelines of agents and writers qualify: none of their runs depends on the schedule. */
  lemma PipelinesFlow(snap: Snapshot, ws: map<string, State>, given: set<string>)
    requires WellBuilt(snap) && Closed(snap) && Pipeline(snap, ws, given)
    ensures Dataflow(snap, PipelineOwners(snap, ws), given)
  {
    var owns := PipelineOwners(snap, ws);
    assert owns.Keys == snap.nodes.Keys;
    forall i, k | i in owns && k in owns[i]
      ensures k !in given && forall j :: j in owns && k in owns[j] ==> j == i
    {
      PipelineOwner(snap, ws, given, i, k);
    }
    forall id | id in owns
      ensures owns[id] !! given && Functional(snap, owns, id)
    {
      assert id in snap.nodes.Keys;
      PipelineNode(snap, ws, given, id);
    }
  }

  // ---- without nested graphs ---------------------------------------------------------------------------

  /** Nobody launched, nothing to answer. */
  lemma {:induction false} EmptyRound(snap: Snapshot, r: Run, steps: seq<Step>)
    ensures GenuineRound(true, snap, StartRound(r, {}), steps)
    ensures steps != [] ==> Play(snap, StartRound(r, {}), steps).None?
    decreases |steps|
  {
    if steps != [] {
      EmptyRound(snap, r, steps[..|steps| - 1]);
    }
  }

  lemma FlatTurnIsGenuine(snap: Snapshot, maxIter: nat, h: Head, c: Choice)
    requires (forall id :: id in snap.nodes ==> !snap.nodes[id].SubNode?) && Turn(snap, maxIter, h, c).Some?
    requires !c.cancelled
    ensures GenuineChoice(true, snap, maxIter, h, c)
  {
    var r, launch := Cleared(snap, SettleSkips(snap, h.run)), Launch(snap, maxIter, h, c);
    if launch == [] {
      assert Elements(launch) == {};
      EmptyRound(snap, r, c.steps);
    } else {
      FlatRoundIsGenuine(true, snap, StartRound(r, Elements(launch)), c.steps);
    }
  }

  lemma {:induction false} FlatRunIsGenuine(snap: Snapshot, maxIter: nat, state: State, cs: seq<Choice>)
    requires forall id :: id in snap.nodes ==> !snap.nodes[id].SubNode?
    requires Exec(snap, maxIter, FreshRun(state), cs).Some?
    requires Exec(snap, maxIter, FreshRun(state), cs).value.Return? ==>
               Exec(snap, maxIter, FreshRun(state), cs).value.err != Some(Cancelled)
    ensures Genuine(true, snap, maxIter, state, cs)
    decreases |cs|
  {
    if cs != [] {
      FlatRunIsGenuine(snap, maxIter, state, cs[..|cs| - 1]);
      var h := Exec(snap, maxIter, FreshRun(state), cs[..|cs| - 1]).value.head;
      FlatTurnIsGenuine(snap, maxIter, h, cs[|cs| - 1]);
    }
  }

  /** Any two runs of a validated pipeline that are not cancelled end alike. */
  lemma PipelineConfluence(snap: Snapshot, ws: map<string, State>, maxIter: nat, state: State,
                           cs: seq<Choice>, r: Run, err: Option<Error>, ds: seq<Choice>, q: Run, err': Option<Error>)
    requires WellBuilt(snap) && Closed(snap) && snap.router.None? && maxIter >= 1 && Pipeline(snap, ws, state.Keys)
    requires Returns(snap, maxIter, state, cs, r, err) && err != Some(Cancelled)
    requires Returns(snap, maxIter, state, ds, q, err') && err' != Some(Cancelled)
    ensures |cs| == |ds| && (err.None? <==> err'.None?)
    ensures r.(lastDone := "") == q.(lastDone := "")
  {
    PipelinesFlow(snap, ws, state.Keys);
    FlatRunIsGenuine(snap, maxIter, state, cs);
    FlatRunIsGenuine(snap, maxIter, state, ds);
    RunConfluence(snap, maxIter, state, PipelineOwners(snap, ws), cs, r, err, ds, q, err');
  }
}
