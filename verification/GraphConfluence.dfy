/** When is a round's outcome independent of the schedule? When the siblings write fresh,
    pairwise disjoint keys and ignore each other's, and no nested run is cancelled. That is
    enough for any nodes; which rounds of function nodes and agents need less is in GraphUpdates. */
module GraphConfluence {
  import opened Basics
  import opened GraphModel
  import opened GraphRound
  import opened GraphNesting

  /** For each launched node the keys it adds when it succeeds, or None when it does not. */
  type Plan = map<string, Option<State>>

  ghost predicate Writes(plan: Plan, id: string, k: string) {
    id in plan && plan[id].Some? && k in plan[id].value
  }

  ghost predicate SiblingKey(plan: Plan, id: string, k: string) {
    exists j :: j != id && Writes(plan, j, k)
  }

  ghost predicate Extends(base: State, s: State) {
    forall k :: k in base ==> k in s && s[k] == base[k]
  }

  /** `copy` is the round-start state plus, at most, keys that siblings write. */
  ghost predicate PossibleCopy(base: State, plan: Plan, id: string, copy: State) {
    Extends(base, copy) && forall k :: k in copy ==> k in base || SiblingKey(plan, id, k)
  }

  /** The effect on `copy` is the planned one: failure, or the copy itself plus the planned keys. */
  ghost predicate AsPlanned(plan: Plan, id: string, copy: State, e: Effect)
    requires id in plan
  {
    match plan[id]
    case None => !e.Merge?
    case Some(w) =>
      && e.Merge? && w.Keys <= e.writes.Keys
      && forall k :: k in e.writes ==> if k in w then e.writes[k] == w[k] else k in copy && e.writes[k] == copy[k]
  }

  /** Siblings write pairwise disjoint keys that are absent from `base`. */
  ghost predicate FreshKeys(base: State, plan: Plan) {
    forall id, k :: Writes(plan, id, k) ==> k !in base && !SiblingKey(plan, id, k)
  }

  /** In this schedule every node answers as planned. */
  ghost predicate FollowsPlan(snap: Snapshot, start: Round, steps: seq<Step>, plan: Plan) {
    if steps == [] then true
    else
      && FollowsPlan(snap, start, steps[..|steps| - 1], plan)
      && match Play(snap, start, steps[..|steps| - 1])
         case None => true
         case Some(c) => StepFollows(plan, c, steps[|steps| - 1])
  }

  ghost predicate StepFollows(plan: Plan, c: Round, s: Step) {
    s.Commit? && s.id in c.copies && s.id in plan ==> AsPlanned(plan, s.id, c.copies[s.id], s.effect)
  }

  /** Fresh keys, and nodes that answer the same whatever their siblings have written. */
  ghost predicate Independent(snap: Snapshot, base: State, plan: Plan) {
    && FreshKeys(base, plan)
    && (forall id, copy, e {:trigger GenuineAnswer(true, snap, id, copy, e)} ::
          id in plan && PossibleCopy(base, plan, id, copy) && GenuineAnswer(true, snap, id, copy, e) ==>
              AsPlanned(plan, id, copy, e))
  }

  predicate Succeeds(plan: Plan, id: string) {
    id in plan && plan[id].Some?
  }

  function Committed(plan: Plan, c: Round): set<string> {
    plan.Keys - c.waiting - c.copies.Keys
  }

  ghost predicate AddedBy(plan: Plan, ids: set<string>, k: string) {
    exists id :: id in ids && Writes(plan, id, k)
  }

  /** The shared state is exactly the round-start state plus the writes of `ids`. */
  ghost predicate BasePlus(base: State, plan: Plan, ids: set<string>, s: State) {
    && Extends(base, s)
    && (forall k :: k in s ==> k in base || AddedBy(plan, ids, k))
    && (forall id, k :: id in ids && Writes(plan, id, k) ==> k in s && s[k] == plan[id].value[k])
  }

  ghost predicate StateOnPlan(r: Run, plan: Plan, c: Round) {
    && BasePlus(r.state, plan, Committed(plan, c), c.run.state)
    && (forall id :: id in c.copies ==> Extends(r.state, c.copies[id]) && Extends(c.copies[id], c.run.state))
  }

  ghost predicate VerdictsOnPlan(snap: Snapshot, r: Run, plan: Plan, c: Round) {
    && (forall id :: id in c.landed ==> (c.landed[id] <==> Succeeds(plan, id)))
    && (forall id :: id in c.completions ==> Succeeds(plan, id))
    && (forall id :: id in Gone(plan.Keys, c) ==> !Succeeds(plan, id))
    && (forall id :: id in c.run.failed <==>
          id in r.failed || (id in Committed(plan, c) && !Succeeds(plan, id) && Executable(snap, id)))
  }

  /** A function node that does nothing but add `w`. */
  ghost predicate AddsOwnKeys(snap: Snapshot, id: string, w: State) {
    id in snap.nodes && snap.nodes[id].FnNode? && forall s, k: int :: snap.nodes[id].fn(s, k) == FnOk(s + w)
  }

  /** Function nodes that only add keys of their own, absent at the start and distinct from
      each other's, are independent. */
  lemma WritersAreIndependent(snap: Snapshot, base: State, plan: Plan)
    requires forall id :: id in plan ==> Succeeds(plan, id) && AddsOwnKeys(snap, id, plan[id].value)
    requires FreshKeys(base, plan)
    ensures Independent(snap, base, plan)
  {
    forall id, copy, e {:trigger GenuineAnswer(true, snap, id, copy, e)} | id in plan
        && GenuineAnswer(true, snap, id, copy, e)
      ensures AsPlanned(plan, id, copy, e)
    {
      assert Answers(snap, id, copy, e);
      var w: int :| e == FnEffect(snap.nodes[id].fn(copy, w));
      assert e == Merge(copy + plan[id].value);
    }
  }

  /** A copy held by a node that has not committed contains nothing of its own. */
  lemma CopyIsPossible(r: Run, plan: Plan, c: Round, id: string)
    requires Accounted(plan.Keys, c) && StateOnPlan(r, plan, c) && id in c.copies
    ensures PossibleCopy(r.state, plan, id, c.copies[id])
  {
    var ids := Committed(plan, c);
    forall k | k in c.copies[id] && k !in r.state
      ensures SiblingKey(plan, id, k)
    {
      assert k in c.run.state;
      var j :| j in ids && Writes(plan, j, k);
      assert j != id;
    }
  }

  /** Merging a whole copy that is an older version of `s`, plus the planned keys, adds
      exactly those keys. */
  lemma MergeAddsPlanned(base: State, plan: Plan, ids: set<string>, id: string, s: State, copy: State, e: Effect)
    requires FreshKeys(base, plan)
    requires BasePlus(base, plan, ids, s) && id !in ids && Succeeds(plan, id)
    requires Extends(copy, s) && AsPlanned(plan, id, copy, e)
    ensures BasePlus(base, plan, ids + {id}, s + e.writes)
    ensures Extends(s, s + e.writes)
  {
    var after := s + e.writes;
    forall k | k in s
      ensures after[k] == s[k]
    {
      assert Writes(plan, id, k) <==> k in plan[id].value;
      if AddedBy(plan, ids, k) {
        var j :| j in ids && Writes(plan, j, k);
        assert SiblingKey(plan, id, k);
      }
    }
    forall k | k in after && k !in base
      ensures AddedBy(plan, ids + {id}, k)
    {
      if k in s {
        var j :| j in ids && Writes(plan, j, k);
        assert j in ids + {id};
      } else {
        assert id in ids + {id} && Writes(plan, id, k);
      }
    }
    forall j, k | j in ids + {id} && Writes(plan, j, k)
      ensures k in after && after[k] == plan[j].value[k]
    {
      if j != id {
        assert j in ids;
      }
    }
  }

  lemma BeginStaysOnPlan(snap: Snapshot, r: Run, plan: Plan, c: Round, id: string)
    requires Accounted(plan.Keys, c) && id in c.waiting
    ensures StateOnPlan(r, plan, c) ==> StateOnPlan(r, plan, DoStep(snap, c, Begin(id)))
    ensures VerdictsOnPlan(snap, r, plan, c) ==> VerdictsOnPlan(snap, r, plan, DoStep(snap, c, Begin(id)))
  {
    AccountedStep(snap, plan.Keys, c, Begin(id));
    assert Committed(plan, DoStep(snap, c, Begin(id))) == Committed(plan, c);
  }

  lemma ReportStaysOnPlan(snap: Snapshot, r: Run, plan: Plan, c: Round, id: string)
    requires Accounted(plan.Keys, c) && id in c.landed
    ensures StateOnPlan(r, plan, c) ==> StateOnPlan(r, plan, DoStep(snap, c, Report(id)))
    ensures VerdictsOnPlan(snap, r, plan, c) ==> VerdictsOnPlan(snap, r, plan, DoStep(snap, c, Report(id)))
  {
    AccountedStep(snap, plan.Keys, c, Report(id));
    assert Committed(plan, DoStep(snap, c, Report(id))) == Committed(plan, c);
  }

  lemma CommitKeepsState(snap: Snapshot, r: Run, plan: Plan, c: Round, id: string, e: Effect)
    requires FreshKeys(r.state, plan)
    requires Accounted(plan.Keys, c) && StateOnPlan(r, plan, c) && CanStep(snap, c, Commit(id, e))
    requires AsPlanned(plan, id, c.copies[id], e)
    ensures StateOnPlan(r, plan, DoStep(snap, c, Commit(id, e)))
  {
    assert Committed(plan, DoStep(snap, c, Commit(id, e))) == Committed(plan, c) + {id};
    if e.Merge? {
      MergeAddsPlanned(r.state, plan, Committed(plan, c), id, c.run.state, c.copies[id], e);
    }
  }

  lemma CommitKeepsVerdicts(snap: Snapshot, r: Run, plan: Plan, c: Round, id: string, e: Effect)
    requires Accounted(plan.Keys, c) && VerdictsOnPlan(snap, r, plan, c) && CanStep(snap, c, Commit(id, e))
    requires AsPlanned(plan, id, c.copies[id], e)
    ensures VerdictsOnPlan(snap, r, plan, DoStep(snap, c, Commit(id, e)))
  {
    AccountedStep(snap, plan.Keys, c, Commit(id, e));
    assert Committed(plan, DoStep(snap, c, Commit(id, e))) == Committed(plan, c) + {id};
    assert e.Merge? <==> Succeeds(plan, id);
    assert !e.Merge? ==> (e.Fails? <==> Executable(snap, id));
  }

  /** Who succeeds and who fails is as planned, whatever keys are written. */
  lemma {:induction false} VerdictsStayOnPlan(snap: Snapshot, r: Run, plan: Plan, steps: seq<Step>, c: Round)
    requires Play(snap, StartRound(r, plan.Keys), steps) == Some(c)
    requires FollowsPlan(snap, StartRound(r, plan.Keys), steps, plan)
    ensures Accounted(plan.Keys, c) && VerdictsOnPlan(snap, r, plan, c)
    decreases |steps|
  {
    RoundKeepsInv(snap, r, plan.Keys, steps, c);
    if steps == [] {
      assert Committed(plan, c) == {};
      assert Gone(plan.Keys, c) == {};
    } else {
      var front := steps[..|steps| - 1];
      var before := Play(snap, StartRound(r, plan.Keys), front).value;
      VerdictsStayOnPlan(snap, r, plan, front, before);
      match steps[|steps| - 1]
      case Begin(id) => BeginStaysOnPlan(snap, r, plan, before, id);
      case Commit(id, e) => CommitKeepsVerdicts(snap, r, plan, before, id, e);
      case Report(id) => ReportStaysOnPlan(snap, r, plan, before, id);
    }
  }

  lemma {:induction false} StateStaysOnPlan(snap: Snapshot, r: Run, plan: Plan, steps: seq<Step>, c: Round)
    requires FreshKeys(r.state, plan)
    requires Play(snap, StartRound(r, plan.Keys), steps) == Some(c)
    requires FollowsPlan(snap, StartRound(r, plan.Keys), steps, plan)
    ensures Accounted(plan.Keys, c) && StateOnPlan(r, plan, c)
    decreases |steps|
  {
    RoundKeepsInv(snap, r, plan.Keys, steps, c);
    if steps == [] {
      assert Committed(plan, c) == {};
    } else {
      var front := steps[..|steps| - 1];
      var before := Play(snap, StartRound(r, plan.Keys), front).value;
      StateStaysOnPlan(snap, r, plan, front, before);
      match steps[|steps| - 1]
      case Begin(id) => BeginStaysOnPlan(snap, r, plan, before, id);
      case Commit(id, e) => CommitKeepsState(snap, r, plan, before, id, e);
      case Report(id) => ReportStaysOnPlan(snap, r, plan, before, id);
    }
  }

  /** Exactly the planned nodes complete, and exactly the planned failures are recorded. */
  lemma VerdictsAsPlanned(snap: Snapshot, r: Run, plan: Plan, steps: seq<Step>, c: Round)
    requires Completes(snap, r, plan.Keys, steps, c) && FollowsPlan(snap, StartRound(r, plan.Keys), steps, plan)
    ensures Elements(c.completions) == set id | id in plan && Succeeds(plan, id)
    ensures c.run.failed == r.failed + set id | id in plan && !Succeeds(plan, id) && Executable(snap, id)
  {
    VerdictsStayOnPlan(snap, r, plan, steps, c);
    RoundResult(snap, r, plan.Keys, steps, c);
    assert Committed(plan, c) == plan.Keys;
    forall id | Succeeds(plan, id)
      ensures id in c.completions
    {
      assert id !in Gone(plan.Keys, c);
    }
  }

  /** Where every complete schedule that follows the plan ends: the start state plus all planned
      writes; exactly the planned nodes done; exactly the planned failures recorded. */
  lemma RoundEndsAsPlanned(snap: Snapshot, r: Run, plan: Plan, steps: seq<Step>, c: Round)
    requires FreshKeys(r.state, plan)
    requires Completes(snap, r, plan.Keys, steps, c) && FollowsPlan(snap, StartRound(r, plan.Keys), steps, plan)
    ensures BasePlus(r.state, plan, plan.Keys, c.run.state)
    ensures Elements(c.completions) == set id | id in plan && Succeeds(plan, id)
    ensures c.run.failed == r.failed + set id | id in plan && !Succeeds(plan, id) && Executable(snap, id)
  {
    StateStaysOnPlan(snap, r, plan, steps, c);
    VerdictsAsPlanned(snap, r, plan, steps, c);
    assert Committed(plan, c) == plan.Keys;
  }

  /** Rounds from the same run, up to the router's seed, that end in the same state with the same
      nodes completed and failed, leave the same bookkeeping and kill the same edges. */
  lemma SameBookkeeping(snap: Snapshot, r: Run, q: Run, ready: set<string>, xs: seq<Step>, c: Round, ys: seq<Step>,
                        d: Round)
    requires q == r.(lastDone := q.lastDone)
    requires Completes(snap, r, ready, xs, c) && Completes(snap, q, ready, ys, d)
    requires c.run.state == d.run.state && c.run.failed == d.run.failed
    requires Elements(c.completions) == Elements(d.completions)
    ensures d.run == c.run.(lastDone := q.lastDone) && (q == r ==> d.run == c.run)
    ensures c.firstErr.Some? <==> d.firstErr.Some?
    ensures EvaluateAll(snap, c.run, c.completions).(lastDone := "") ==
              EvaluateAll(snap, d.run, d.completions).(lastDone := "")
  {
    RoundResult(snap, r, ready, xs, c);
    RoundResult(snap, q, ready, ys, d);
    forall id | id in c.run.iter
      ensures c.run.iter[id] == d.run.iter[id]
    {
      assert IterOf(r, id) == IterOf(q, id);
      assert IterOf(c.run, id) == IterOf(d.run, id);
    }
    assert c.run.iter == d.run.iter;
    SeedUnused(snap, c.run, q.lastDone, d.completions);
    EvaluateAllOrderIndependent(snap, c.run, c.completions, d.completions);
  }

  /** The router's seed has no part in evaluating conditions. */
  lemma SeedUnused(snap: Snapshot, r: Run, seed: string, completions: seq<string>)
    ensures EvaluateAll(snap, r.(lastDone := seed), completions).(lastDone := "") ==
              EvaluateAll(snap, r, completions).(lastDone := "")
  {
    var q := r.(lastDone := seed);
    FoldOutgoingExact(snap, r, completions);
    FoldOutgoingExact(snap, q, completions);
    assert forall e :: Killed(snap, q, e) <==> Killed(snap, r, e);
    assert FoldOutgoing(snap, r, completions).dead == FoldOutgoing(snap, q, completions).dead;
  }

  /** Any two interleavings in which the nodes answer alike and write fresh keys end in the same
      run, and the condition evaluation that follows kills the same edges; only the router's
      seed may differ. */
  lemma SameAnswersSameEnd(snap: Snapshot, r: Run, plan: Plan, xs: seq<Step>, c: Round, ys: seq<Step>, d: Round)
    requires FreshKeys(r.state, plan)
    requires Completes(snap, r, plan.Keys, xs, c) && FollowsPlan(snap, StartRound(r, plan.Keys), xs, plan)
    requires Completes(snap, r, plan.Keys, ys, d) && FollowsPlan(snap, StartRound(r, plan.Keys), ys, plan)
    ensures c.run == d.run
    ensures c.firstErr.Some? <==> d.firstErr.Some?
    ensures EvaluateAll(snap, c.run, c.completions).(lastDone := "") ==
              EvaluateAll(snap, d.run, d.completions).(lastDone := "")
  {
    RoundEndsAsPlanned(snap, r, plan, xs, c);
    RoundEndsAsPlanned(snap, r, plan, ys, d);
    BasePlusUnique(r.state, plan, plan.Keys, c.run.state, d.run.state);
    SameBookkeeping(snap, r, r, plan.Keys, xs, c, ys, d);
  }

  /** Independent nodes answer as planned in every schedule. */
  lemma {:induction false} IndependentFollows(snap: Snapshot, r: Run, plan: Plan, steps: seq<Step>, c: Round)
    requires Independent(snap, r.state, plan)
    requires Play(snap, StartRound(r, plan.Keys), steps) == Some(c)
    requires GenuineRound(true, snap, StartRound(r, plan.Keys), steps)
    ensures FollowsPlan(snap, StartRound(r, plan.Keys), steps, plan)
    decreases |steps|
  {
    if steps != [] {
      var front, s := steps[..|steps| - 1], steps[|steps| - 1];
      var before := Play(snap, StartRound(r, plan.Keys), front).value;
      IndependentFollows(snap, r, plan, front, before);
      StateStaysOnPlan(snap, r, plan, front, before);
      if s.Commit? {
        CopyIsPossible(r, plan, before, s.id);
        assert GenuineAnswer(true, snap, s.id, before.copies[s.id], s.effect);
      }
    }
  }

  /** Every interleaving of an independent round ends in the same run, and the condition
      evaluation that follows kills the same edges; only the router's seed may differ. */
  lemma RoundConfluence(snap: Snapshot, r: Run, plan: Plan, xs: seq<Step>, c: Round, ys: seq<Step>, d: Round)
    requires Independent(snap, r.state, plan)
    requires Completes(snap, r, plan.Keys, xs, c) && GenuineRound(true, snap, StartRound(r, plan.Keys), xs)
    requires Completes(snap, r, plan.Keys, ys, d) && GenuineRound(true, snap, StartRound(r, plan.Keys), ys)
    ensures BasePlus(r.state, plan, plan.Keys, c.run.state)
    ensures c.run == d.run
    ensures c.firstErr.Some? <==> d.firstErr.Some?
    ensures EvaluateAll(snap, c.run, c.completions).(lastDone := "") ==
              EvaluateAll(snap, d.run, d.completions).(lastDone := "")
  {
    IndependentFollows(snap, r, plan, xs, c);
    IndependentFollows(snap, r, plan, ys, d);
    RoundEndsAsPlanned(snap, r, plan, xs, c);
    SameAnswersSameEnd(snap, r, plan, xs, c, ys, d);
  }

  /** Without nested graphs the engine's own schedules are all there is to assume. */
  lemma FlatRoundConfluence(snap: Snapshot, r: Run, plan: Plan, xs: seq<Step>, c: Round, ys: seq<Step>, d: Round)
    requires forall id :: id in snap.nodes ==> !snap.nodes[id].SubNode?
    requires Independent(snap, r.state, plan)
    requires Completes(snap, r, plan.Keys, xs, c) && Completes(snap, r, plan.Keys, ys, d)
    ensures BasePlus(r.state, plan, plan.Keys, c.run.state) && c.run == d.run
    ensures EvaluateAll(snap, c.run, c.completions).(lastDone := "") ==
              EvaluateAll(snap, d.run, d.completions).(lastDone := "")
  {
    FlatRoundIsGenuine(true, snap, StartRound(r, plan.Keys), xs);
    FlatRoundIsGenuine(true, snap, StartRound(r, plan.Keys), ys);
    RoundConfluence(snap, r, plan, xs, c, ys, d);
  }

  // ---- rounds of agents --------------------------------------------------------------------

  /** Every commit of the schedule records the given answer of an agent. */
  ghost predicate Heard(steps: seq<Step>, answers: map<string, Submission>) {
    forall i :: 0 <= i < |steps| && steps[i].Commit? ==>
      steps[i].id in answers && steps[i].effect == AgentEffect(steps[i].id, answers[steps[i].id])
  }

  /** An agent writes its output under its own id, and nothing when it has none. */
  function AgentPlan(answers: map<string, Submission>): Plan {
    map id | id in answers :: match AgentEffect(id, answers[id]) case Merge(w) => Some(w) case _ => None
  }

  lemma {:induction false} AgentsFollow(snap: Snapshot, start: Round, steps: seq<Step>,
                                        answers: map<string, Submission>)
    requires Heard(steps, answers)
    ensures FollowsPlan(snap, start, steps, AgentPlan(answers))
    decreases |steps|
  {
    if steps != [] {
      var front := steps[..|steps| - 1];
      assert Heard(front, answers) by {
        assert forall i :: 0 <= i < |front| ==> front[i] == steps[i];
      }
      AgentsFollow(snap, start, front, answers);
    }
  }

  /** What the agents `ids` have answered, each under its own id. */
  function OutputsOf(answers: map<string, Submission>, ids: set<string>): State {
    map id | id in answers && id in ids && answers[id].SubmitOk? && answers[id].output.Some? ::
        Text(answers[id].output.value)
  }

  lemma OneMoreOutput(s: State, answers: map<string, Submission>, ids: set<string>, id: string)
    requires id in answers
    ensures s + OutputsOf(answers, ids + {id}) == match AgentEffect(id, answers[id])
                                                  case Merge(writes) => s + OutputsOf(answers, ids) + writes
                                                  case _ => s + OutputsOf(answers, ids)
  {
  }

  lemma AgentStepWrites(snap: Snapshot, r: Run, answers: map<string, Submission>, c: Round, s: Step)
    requires Accounted(answers.Keys, c) && CanStep(snap, c, s)
    requires s.Commit? ==> s.effect == AgentEffect(s.id, answers[s.id])
    requires c.run.state == r.state + OutputsOf(answers, Committed(AgentPlan(answers), c))
    ensures DoStep(snap, c, s).run.state == r.state
              + OutputsOf(answers, Committed(AgentPlan(answers), DoStep(snap, c, s)))
  {
    var plan := AgentPlan(answers);
    assert Committed(plan, DoStep(snap, c, s)) == Committed(plan, c) + if s.Commit? then {s.id} else {};
    if s.Commit? {
      OneMoreOutput(r.state, answers, Committed(plan, c), s.id);
    } else {
      assert Committed(plan, c) + {} == Committed(plan, c);
    }
  }

  /** The shared state is the start state overwritten by the outputs of the agents heard so far. */
  lemma {:induction false} AgentsWrite(snap: Snapshot, r: Run, answers: map<string, Submission>, steps: seq<Step>,
                                       c: Round)
    requires Heard(steps, answers) && Play(snap, StartRound(r, answers.Keys), steps) == Some(c)
    ensures c.run.state == r.state + OutputsOf(answers, Committed(AgentPlan(answers), c))
    decreases |steps|
  {
    if steps == [] {
      assert Committed(AgentPlan(answers), c) == {};
      assert r.state + OutputsOf(answers, {}) == r.state;
    } else {
      var front := steps[..|steps| - 1];
      var before := Play(snap, StartRound(r, answers.Keys), front).value;
      assert Heard(front, answers) by {
        assert forall i :: 0 <= i < |front| ==> front[i] == steps[i];
      }
      AgentsWrite(snap, r, answers, front, before);
      RoundKeepsInv(snap, r, answers.Keys, front, before);
      AgentStepWrites(snap, r, answers, before, steps[|steps| - 1]);
    }
  }

  /** How a round of agents ends, given their answers. */
  lemma AgentRoundEnds(snap: Snapshot, r: Run, answers: map<string, Submission>, steps: seq<Step>, c: Round)
    requires Heard(steps, answers) && Completes(snap, r, answers.Keys, steps, c)
    ensures c.run.state == r.state + OutputsOf(answers, answers.Keys)
    ensures var plan := AgentPlan(answers);
            && Elements(c.completions) == (set id | id in plan && Succeeds(plan, id))
            && c.run.failed == r.failed + set id | id in plan && !Succeeds(plan, id) && Executable(snap, id)
  {
    var plan := AgentPlan(answers);
    assert plan.Keys == answers.Keys;
    AgentsFollow(snap, StartRound(r, plan.Keys), steps, answers);
    VerdictsAsPlanned(snap, r, plan, steps, c);
    AgentsWrite(snap, r, answers, steps, c);
    assert Committed(plan, c) == answers.Keys;
  }

  /** A round of agents needs no assumption on keys: given their answers, every interleaving ends
      in the same run, the start state overwritten by every output. */
  lemma AgentRoundConfluence(snap: Snapshot, r: Run, answers: map<string, Submission>, xs: seq<Step>, c: Round,
                             ys: seq<Step>, d: Round)
    requires Heard(xs, answers) && Heard(ys, answers)
    requires Completes(snap, r, answers.Keys, xs, c) && Completes(snap, r, answers.Keys, ys, d)
    ensures c.run.state == r.state + OutputsOf(answers, answers.Keys)
    ensures c.run == d.run
    ensures EvaluateAll(snap, c.run, c.completions).(lastDone := "") ==
              EvaluateAll(snap, d.run, d.completions).(lastDone := "")
  {
    AgentRoundEnds(snap, r, answers, xs, c);
    AgentRoundEnds(snap, r, answers, ys, d);
    SameBookkeeping(snap, r, r, answers.Keys, xs, c, ys, d);
  }

  lemma BasePlusUnique(base: State, plan: Plan, ids: set<string>, s: State, t: State)
    requires BasePlus(base, plan, ids, s) && BasePlus(base, plan, ids, t)
    ensures s == t
  {
    forall k | k in s
      ensures k in t && s[k] == t[k]
    {
      if k !in base {
        var id :| id in ids && Writes(plan, id, k);
      }
    }
    forall k | k in t
      ensures k in s
    {
      if k !in base {
        var id :| id in ids && Writes(plan, id, k);
      }
    }
  }
}
