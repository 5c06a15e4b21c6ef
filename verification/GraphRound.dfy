/** One barrier round as an interleaving. Every launched node takes three steps: Begin
    (count the execution and copy the shared state), Commit (merge its copy or record its
    failure) and Report (append to the completion list, or claim the first error). Only
    single steps are atomic; the scheduler picks their order. */
module GraphRound {
  import opened Basics
  import opened GraphModel

  /** What a node's execution does to the shared bookkeeping when it commits. */
  datatype Effect = Merge(writes: State) | Fails | Unexecutable

  datatype Step = Begin(id: string) | Commit(id: string, effect: Effect) | Report(id: string)

  datatype Round = Round(
    run: Run,
    waiting: set<string>,
    copies: map<string, State>,
    landed: map<string, bool>,
    completions: seq<string>,
    firstErr: Option<string>)

  function StartRound(r: Run, ready: set<string>): Round {
    Round(r, ready, map[], map[], [], None)
  }

  predicate Finished(c: Round) {
    c.waiting == {} && c.copies == map[] && c.landed == map[]
  }

  /** The input of an agent node: its only upstream's output, else the global input. */
  function AgentInput(snap: Snapshot, state: State, id: string): string {
    var ins := Ins(snap, id);
    if |ins| == 1 && ins[0] in state && state[ins[0]].Text? then state[ins[0]].text
    else if "input" in state && state["input"].Text? then state["input"].text
    else ""
  }

  function AgentEffect(id: string, res: Submission): Effect {
    match res
    case SubmitErr => Fails
    case SubmitOk(None) => Merge(map[])
    case SubmitOk(Some(output)) => Merge(map[id := Text(output)])
  }

  function FnEffect(res: FnResult): Effect {
    match res
    case FnErr => Fails
    case FnOk(after) => Merge(after)
  }

  /** Which effects a node may have after starting from `copy`. A nested graph hands back
      its whole final state, which never loses a key (see GraphRuns.RunKeepsKeys). */
  ghost predicate Answers(snap: Snapshot, id: string, copy: State, e: Effect) {
    if id !in snap.nodes then e.Unexecutable?
    else match snap.nodes[id]
      case AgentNode(submit) => exists w: int :: e == AgentEffect(id, submit(AgentInput(snap, copy, id), w))
      case FnNode(fn) => exists w: int :: e == FnEffect(fn(copy, w))
      case SubNode(_, _) => e.Fails? || (e.Merge? && copy.Keys <= e.writes.Keys)
      case NoKind => e.Unexecutable?
  }

  predicate Executable(snap: Snapshot, id: string) {
    id in snap.nodes && !snap.nodes[id].NoKind?
  }

  ghost predicate CanStep(snap: Snapshot, c: Round, s: Step) {
    match s
    case Begin(id) => id in c.waiting
    case Commit(id, e) => id in c.copies && Answers(snap, id, c.copies[id], e)
    case Report(id) => id in c.landed
  }

  function CountExecution(r: Run, id: string): Run {
    r.(iter := r.iter[id := IterOf(r, id) + 1])
  }

  function ApplyEffect(r: Run, id: string, e: Effect): Run {
    match e
    case Merge(writes) => r.(state := r.state + writes, done := r.done + {id})
    case Fails => r.(failed := r.failed + {id})
    case Unexecutable => r
  }

  ghost function DoStep(snap: Snapshot, c: Round, s: Step): Round
    requires CanStep(snap, c, s)
  {
    match s
    case Begin(id) =>
      c.(run := CountExecution(c.run, id), waiting := c.waiting - {id}, copies := c.copies[id := c.run.state])
    case Commit(id, e) =>
      c.(run := ApplyEffect(c.run, id, e), copies := c.copies - {id}, landed := c.landed[id := e.Merge?])
    case Report(id) =>
      if c.landed[id] then c.(landed := c.landed - {id}, completions := c.completions + [id])
      else c.(landed := c.landed - {id}, firstErr := if c.firstErr.None? then Some(id) else c.firstErr)
  }

  /** The round after a schedule, or None when the schedule is not one the engine can take. */
  ghost function Play(snap: Snapshot, c: Round, steps: seq<Step>): Option<Round> {
    if steps == [] then Some(c)
    else
      match Play(snap, c, steps[..|steps| - 1])
      case None => None
      case Some(c') =>
        if CanStep(snap, c', steps[|steps| - 1]) then Some(DoStep(snap, c', steps[|steps| - 1])) else None
  }

  /** A schedule that starts `ready` in run `r` and ends at the barrier in `c`. */
  ghost predicate Completes(snap: Snapshot, r: Run, ready: set<string>, steps: seq<Step>, c: Round) {
    Play(snap, StartRound(r, ready), steps) == Some(c) && Finished(c)
  }

  // ---- what every interleaving keeps -------------------------------------------------

  /** Launched nodes that reported an error. */
  function Gone(ready: set<string>, c: Round): set<string> {
    ready - c.waiting - c.copies.Keys - c.landed.Keys - (set id | id in c.completions)
  }

  ghost predicate RoundInv(r: Run, ready: set<string>, c: Round) {
    && Accounted(ready, c)
    && Bookkept(r, ready, c)
    && r.state.Keys <= c.run.state.Keys
    && (forall id :: id in c.copies ==> r.state.Keys <= c.copies[id].Keys <= c.run.state.Keys)
  }

  /** Every launched node is in exactly one place. */
  ghost predicate Accounted(ready: set<string>, c: Round) {
    var over := set id | id in c.completions;
    && c.waiting <= ready && c.copies.Keys <= ready && c.landed.Keys <= ready && over <= ready
    && c.waiting !! c.copies.Keys && c.waiting !! c.landed.Keys && c.waiting !! over
    && c.copies.Keys !! c.landed.Keys && c.copies.Keys !! over && c.landed.Keys !! over
    && NoDup(c.completions)
    && (c.firstErr.Some? <==> Gone(ready, c) != {})
    && (c.firstErr.Some? ==> c.firstErr.value in Gone(ready, c))
  }

  ghost predicate Bookkept(r: Run, ready: set<string>, c: Round) {
    && c.run.skipped == r.skipped && c.run.dead == r.dead && c.run.lastDone == r.lastDone
    && (forall id :: IterOf(c.run, id) == IterOf(r, id) + if id in ready && id !in c.waiting then 1 else 0)
    && c.run.iter.Keys == r.iter.Keys + (ready - c.waiting)
    && (forall id :: id in c.run.done <==> id in r.done || id in c.completions || (id in c.landed && c.landed[id]))
    && (forall id :: id in r.failed ==> id in c.run.failed)
    && (forall id :: id in c.run.failed ==> id in r.failed || id in Gone(ready, c) || (id in c.landed && !c.landed[id]))
  }

  lemma AccountedReport(snap: Snapshot, ready: set<string>, c: Round, id: string)
    requires Accounted(ready, c) && id in c.landed
    ensures Accounted(ready, DoStep(snap, c, Report(id)))
    ensures Gone(ready, DoStep(snap, c, Report(id))) == Gone(ready, c) + if c.landed[id] then {} else {id}
  {
    var c' := DoStep(snap, c, Report(id));
    assert (set j | j in c'.completions) == (set j | j in c.completions) + if c.landed[id] then {id} else {};
    assert Gone(ready, c') == Gone(ready, c) + if c.landed[id] then {} else {id};
  }

  lemma AccountedStep(snap: Snapshot, ready: set<string>, c: Round, s: Step)
    requires Accounted(ready, c) && CanStep(snap, c, s)
    ensures Accounted(ready, DoStep(snap, c, s))
    ensures Gone(ready, DoStep(snap, c, s)) == Gone(ready, c) + if s.Report? && !c.landed[s.id] then {s.id} else {}
  {
    var c' := DoStep(snap, c, s);
    match s
    case Begin(id) => assert Gone(ready, c') == Gone(ready, c);
    case Commit(id, _) => assert Gone(ready, c') == Gone(ready, c);
    case Report(id) => AccountedReport(snap, ready, c, id);
  }

  lemma BookkeptBegin(snap: Snapshot, r: Run, ready: set<string>, c: Round, id: string)
    requires Accounted(ready, c) && Bookkept(r, ready, c) && id in c.waiting
    ensures Bookkept(r, ready, DoStep(snap, c, Begin(id)))
  {
    AccountedStep(snap, ready, c, Begin(id));
    var c' := DoStep(snap, c, Begin(id));
    assert c'.run.iter.Keys == r.iter.Keys + (ready - c'.waiting);
  }

  lemma BookkeptCommit(snap: Snapshot, r: Run, ready: set<string>, c: Round, id: string, e: Effect)
    requires Accounted(ready, c) && Bookkept(r, ready, c) && CanStep(snap, c, Commit(id, e))
    ensures Bookkept(r, ready, DoStep(snap, c, Commit(id, e)))
  {
    AccountedStep(snap, ready, c, Commit(id, e));
    var c' := DoStep(snap, c, Commit(id, e));
    assert forall j :: IterOf(c'.run, j) == IterOf(c.run, j);
  }

  lemma BookkeptReport(snap: Snapshot, r: Run, ready: set<string>, c: Round, id: string)
    requires Accounted(ready, c) && Bookkept(r, ready, c) && id in c.landed
    ensures Bookkept(r, ready, DoStep(snap, c, Report(id)))
  {
    AccountedStep(snap, ready, c, Report(id));
    var c' := DoStep(snap, c, Report(id));
    assert c'.run == c.run;
  }

  lemma RoundInvStep(snap: Snapshot, r: Run, ready: set<string>, c: Round, s: Step)
    requires RoundInv(r, ready, c) && CanStep(snap, c, s)
    ensures RoundInv(r, ready, DoStep(snap, c, s))
  {
    AccountedStep(snap, ready, c, s);
    match s
    case Begin(id) => BookkeptBegin(snap, r, ready, c, id);
    case Commit(id, e) => BookkeptCommit(snap, r, ready, c, id, e);
    case Report(id) => BookkeptReport(snap, r, ready, c, id);
  }

  lemma {:induction false} RoundKeepsInv(snap: Snapshot, r: Run, ready: set<string>, steps: seq<Step>, c: Round)
    requires Play(snap, StartRound(r, ready), steps) == Some(c)
    ensures RoundInv(r, ready, c)
    decreases |steps|
  {
    if steps == [] {
      assert Gone(ready, c) == {};
    } else {
      var front := steps[..|steps| - 1];
      var before := Play(snap, StartRound(r, ready), front).value;
      RoundKeepsInv(snap, r, ready, front, before);
      RoundInvStep(snap, r, ready, before, steps[|steps| - 1]);
    }
  }

  /** At the barrier: every launched node ran exactly once more, keys only grew, and unless
      an error is reported every launched node is a completion and nothing failed. A reported
      error is that of a launched node that did not complete. */
  lemma RoundResult(snap: Snapshot, r: Run, ready: set<string>, steps: seq<Step>, c: Round)
    requires Completes(snap, r, ready, steps, c)
    ensures r.state.Keys <= c.run.state.Keys
    ensures c.run.skipped == r.skipped && c.run.dead == r.dead && c.run.lastDone == r.lastDone
    ensures forall id :: IterOf(c.run, id) == IterOf(r, id) + if id in ready then 1 else 0
    ensures c.run.iter.Keys == r.iter.Keys + ready
    ensures NoDup(c.completions) && Elements(c.completions) <= ready
    ensures c.run.done == r.done + Elements(c.completions)
    ensures r.failed <= c.run.failed && c.run.failed - r.failed <= ready - Elements(c.completions)
    ensures c.firstErr.None? <==> Elements(c.completions) == ready
    ensures c.firstErr.None? ==> c.run.failed == r.failed
    ensures c.firstErr.Some? ==> c.firstErr.value in ready - Elements(c.completions)
  {
    RoundKeepsInv(snap, r, ready, steps, c);
    assert Elements(c.completions) == set id | id in c.completions;
    assert Gone(ready, c) == ready - Elements(c.completions);
  }

  ghost predicate Verdicts(snap: Snapshot, ready: set<string>, c: Round) {
    && (forall id :: id in c.completions || (id in c.landed && c.landed[id]) ==> Executable(snap, id))
    && (forall id :: id in Gone(ready, c) || (id in c.landed && !c.landed[id]) ==>
          id in c.run.failed || !Executable(snap, id))
  }

  /** Only nodes of an executable kind complete, and one that does not complete is marked failed. */
  lemma {:induction false} VerdictsRecorded(snap: Snapshot, r: Run, ready: set<string>, steps: seq<Step>, c: Round)
    requires Play(snap, StartRound(r, ready), steps) == Some(c)
    ensures Verdicts(snap, ready, c)
    decreases |steps|
  {
    if steps == [] {
      assert Gone(ready, c) == {};
    } else {
      var front, s := steps[..|steps| - 1], steps[|steps| - 1];
      var before := Play(snap, StartRound(r, ready), front).value;
      VerdictsRecorded(snap, r, ready, front, before);
      RoundKeepsInv(snap, r, ready, front, before);
      VerdictStep(snap, ready, before, s);
    }
  }

  lemma VerdictStep(snap: Snapshot, ready: set<string>, c: Round, s: Step)
    requires Accounted(ready, c) && CanStep(snap, c, s) && Verdicts(snap, ready, c)
    ensures Verdicts(snap, ready, DoStep(snap, c, s))
  {
    AccountedStep(snap, ready, c, s);
  }

  // ---- a failing node is invisible -----------------------------------------------------

  function Without(steps: seq<Step>, id: string): seq<Step> {
    if steps == [] then []
    else
      var rest := Without(steps[..|steps| - 1], id);
      var s := steps[|steps| - 1];
      if s.id == id then rest else rest + [s]
  }

  ghost predicate NeverMerges(steps: seq<Step>, id: string) {
    forall i :: 0 <= i < |steps| && steps[i].Commit? && steps[i].id == id ==> !steps[i].effect.Merge?
  }

  /** `c` and `d` show every other node the same thing. */
  ghost predicate SameFor(c: Round, d: Round, id: string) {
    && d.run.state == c.run.state && d.run.done == c.run.done
    && d.waiting == c.waiting - {id} && d.copies == c.copies - {id} && d.landed == c.landed - {id}
    && d.completions == c.completions
    && (id in c.landed ==> !c.landed[id])
  }

  lemma OtherStepMatches(snap: Snapshot, c: Round, d: Round, s: Step, id: string)
    requires SameFor(c, d, id) && CanStep(snap, c, s) && s.id != id
    ensures CanStep(snap, d, s) && SameFor(DoStep(snap, c, s), DoStep(snap, d, s), id)
  {
    var c', d' := DoStep(snap, c, s), DoStep(snap, d, s);
    assert d'.waiting == c'.waiting - {id};
    assert d'.copies == c'.copies - {id};
    assert d'.landed == c'.landed - {id};
  }

  lemma OwnStepUnseen(snap: Snapshot, c: Round, d: Round, s: Step, id: string)
    requires SameFor(c, d, id) && CanStep(snap, c, s) && s.id == id
    requires s.Commit? ==> !s.effect.Merge?
    ensures SameFor(DoStep(snap, c, s), d, id)
  {
    var c' := DoStep(snap, c, s);
    assert d.waiting == c'.waiting - {id};
    assert d.copies == c'.copies - {id};
    assert d.landed == c'.landed - {id};
  }

  /** Erasing a node that does not succeed from a schedule leaves a schedule of the other
      nodes that reaches the same shared state, done set and completion order. */
  lemma {:induction false} FailingNodeIsInvisible(snap: Snapshot, r: Run, ready: set<string>, steps: seq<Step>,
                                                  c: Round, id: string)
    requires Play(snap, StartRound(r, ready), steps) == Some(c)
    requires NeverMerges(steps, id)
    ensures Play(snap, StartRound(r, ready - {id}), Without(steps, id)).Some?
    ensures SameFor(c, Play(snap, StartRound(r, ready - {id}), Without(steps, id)).value, id)
    decreases |steps|
  {
    if steps == [] {
    } else {
      var front, s := steps[..|steps| - 1], steps[|steps| - 1];
      var before := Play(snap, StartRound(r, ready), front).value;
      assert NeverMerges(front, id) by {
        assert forall i :: 0 <= i < |front| ==> front[i] == steps[i];
      }
      FailingNodeIsInvisible(snap, r, ready, front, before, id);
      var d := Play(snap, StartRound(r, ready - {id}), Without(front, id)).value;
      if s.id != id {
        OtherStepMatches(snap, before, d, s, id);
        var kept := Without(steps, id);
        assert kept[..|kept| - 1] == Without(front, id);
      } else {
        OwnStepUnseen(snap, before, d, s, id);
      }
    }
  }

  // ---- building schedules --------------------------------------------------------------

  lemma Extend(snap: Snapshot, start: Round, steps: seq<Step>, c: Round, s: Step) returns (steps': seq<Step>, c': Round)
    requires Play(snap, start, steps) == Some(c) && CanStep(snap, c, s)
    ensures steps' == steps + [s] && c' == DoStep(snap, c, s)
    ensures Play(snap, start, steps') == Some(c')
  {
    steps', c' := steps + [s], DoStep(snap, c, s);
    assert steps'[..|steps'| - 1] == steps;
  }

  /** A waiting node may run with nothing in between. */
  lemma RunAlone(snap: Snapshot, start: Round, steps: seq<Step>, c: Round, id: string, e: Effect)
    returns (steps': seq<Step>, c': Round)
    requires Play(snap, start, steps) == Some(c)
    requires id in c.waiting && id !in c.copies && id !in c.landed
    requires Answers(snap, id, c.run.state, e) && e.Merge?
    ensures Play(snap, start, steps') == Some(c')
    ensures c' == c.(run := ApplyEffect(CountExecution(c.run, id), id, e), waiting := c.waiting - {id},
              completions := c.completions + [id])
  {
    steps', c' := Extend(snap, start, steps, c, Begin(id));
    assert c'.copies - {id} == c.copies;
    steps', c' := Extend(snap, start, steps', c', Commit(id, e));
    assert c'.landed - {id} == c.landed;
    steps', c' := Extend(snap, start, steps', c', Report(id));
  }
}
