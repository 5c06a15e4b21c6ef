/** What an agent is asked. A node with one incoming edge gets its source's output, any other
    node the global input; over whole runs each agent of a chain answers its predecessor. */
module GraphInputs {
  import opened Basics
  import opened GraphModel
  import opened GraphRound
  import opened GraphRuns
  import opened GraphTiming
  import opened GraphNesting
  import opened GraphDataflow

  ghost predicate Holds(s: State, k: string, t: string) {
    k in s && s[k] == Text(t)
  }

  ghost predicate OnlySource(snap: Snapshot, id: string, p: string) {
    Ins(snap, id) == [p]
  }

  /** No single source, or no text from it. */
  ghost predicate NoUpstream(snap: Snapshot, s: State, id: string) {
    forall p, t :: OnlySource(snap, id, p) ==> !Holds(s, p, t)
  }

  /** The text under "input", or nothing. */
  ghost predicate GlobalInput(s: State, t: string) {
    Holds(s, "input", t) || (t == "" && forall u :: !Holds(s, "input", u))
  }

  /** Starting from `s`, the agent `id` is asked `t`: its only source's text, else the text under
      "input", else nothing. */
  ghost predicate Asked(snap: Snapshot, s: State, id: string, t: string) {
    || (exists p :: OnlySource(snap, id, p) && Holds(s, p, t))
    || (NoUpstream(snap, s, id) && GlobalInput(s, t))
  }

  /** `e` is what the agent does when asked `t`. */
  ghost predicate Submits(snap: Snapshot, id: string, t: string, e: Effect)
    requires id in snap.nodes && snap.nodes[id].AgentNode?
  {
    exists w: int :: e == AgentEffect(id, snap.nodes[id].submit(t, w))
  }

  lemma AskedOnce(snap: Snapshot, s: State, id: string)
    ensures exists t :: Asked(snap, s, id, t)
    ensures forall t, u :: Asked(snap, s, id, t) && Asked(snap, s, id, u) ==> t == u
  {
    if NoUpstream(snap, s, id) {
      if u :| Holds(s, "input", u) {
        assert Asked(snap, s, id, u);
      } else {
        assert Asked(snap, s, id, "");
      }
      forall t, u | Asked(snap, s, id, t) && Asked(snap, s, id, u)
        ensures t == u
      {
        assert Holds(s, "input", t) <==> Holds(s, "input", u);
      }
    } else {
      var p, t :| OnlySource(snap, id, p) && Holds(s, p, t);
      assert Asked(snap, s, id, t);
      forall q | OnlySource(snap, id, q)
        ensures q == p
      {
        assert Ins(snap, id)[0] == q;
      }
    }
  }

  /** An agent's answers are exactly what it does when asked its only source's text, or, with no
      text there and for any other number of sources, the global input. */
  lemma AnswersItsInput(snap: Snapshot, id: string, copy: State, t: string, e: Effect)
    requires id in snap.nodes && snap.nodes[id].AgentNode? && Asked(snap, copy, id, t)
    ensures Answers(snap, id, copy, e) <==> Submits(snap, id, t, e)
  {
    var ins := Ins(snap, id);
    if p :| OnlySource(snap, id, p) && Holds(copy, p, t) {
      assert ins[0] == p;
    } else {
      assert |ins| == 1 && ins[0] in copy && copy[ins[0]].Text? ==>
          OnlySource(snap, id, ins[0]) && Holds(copy, ins[0], copy[ins[0]].text);
      assert "input" in copy && copy["input"].Text? ==> Holds(copy, "input", copy["input"].text);
    }
    assert AgentInput(snap, copy, id) == t;
  }

  // ---- one round -----------------------------------------------------------------------------

  function Entry(s: State, k: string): Option<Value> {
    if k in s then Some(s[k]) else None
  }

  /** `id` leaves the key `k` as it found it. */
  ghost predicate Spares(snap: Snapshot, id: string, k: string) {
    forall copy, writes :: GenuineAnswer(false, snap, id, copy, Merge(writes)) && k in writes ==>
        k in copy && writes[k] == copy[k]
  }

  /** Everybody sees under `k` what was there when the round began. */
  ghost predicate Still(r: Run, c: Round, k: string) {
    && Entry(c.run.state, k) == Entry(r.state, k)
    && forall j :: j in c.copies ==> Entry(c.copies[j], k) == Entry(r.state, k)
  }

  lemma SparedCommit(snap: Snapshot, c: Round, id: string, e: Effect, k: string)
    requires CanStep(snap, c, Commit(id, e)) && GenuineAnswer(false, snap, id, c.copies[id], e) && Spares(snap, id, k)
    requires Entry(c.copies[id], k) == None || Entry(c.copies[id], k) == Entry(c.run.state, k)
    ensures Entry(DoStep(snap, c, Commit(id, e)).run.state, k) == Entry(c.run.state, k)
  {
    assert e.Merge? ==> e == Merge(e.writes);
  }

  lemma StillStep(snap: Snapshot, r: Run, ready: set<string>, c: Round, s: Step, k: string)
    requires Accounted(ready, c) && CanStep(snap, c, s) && GenuineStep(false, snap, c, s)
    requires Still(r, c, k) && forall j :: j in ready ==> Spares(snap, j, k)
    ensures Still(r, DoStep(snap, c, s), k)
  {
    if s.Commit? {
      SparedCommit(snap, c, s.id, s.effect, k);
    }
  }

  lemma {:induction false} StillInRound(snap: Snapshot, r: Run, ready: set<string>, steps: seq<Step>, c: Round,
                                        k: string)
    requires Play(snap, StartRound(r, ready), steps) == Some(c)
    requires GenuineRound(false, snap, StartRound(r, ready), steps)
    requires forall j :: j in ready ==> Spares(snap, j, k)
    ensures Still(r, c, k)
    decreases |steps|
  {
    if steps == [] {
    } else {
      var front, s := steps[..|steps| - 1], steps[|steps| - 1];
      var before := Play(snap, StartRound(r, ready), front).value;
      StillInRound(snap, r, ready, front, before, k);
      RoundKeepsInv(snap, r, ready, front, before);
      StillStep(snap, r, ready, before, s, k);
    }
  }

  /** What a reply leaves under the agent's own id. */
  predicate Leaves(res: Submission, entry: Option<Value>) {
    match res
    case SubmitErr => false
    case SubmitOk(None) => entry == None
    case SubmitOk(Some(output)) => entry == Some(Text(output))
  }

  /** The agent is done only with a reply to `t`, which stands under its id, and failed only if
      `t` can be refused. */
  ghost predicate Replied(snap: Snapshot, r: Run, id: string, t: string)
    requires id in snap.nodes && snap.nodes[id].AgentNode?
  {
    && (id in r.done ==> exists w: int :: Leaves(snap.nodes[id].submit(t, w), Entry(r.state, id)))
    && (id in r.failed ==> exists w: int :: snap.nodes[id].submit(t, w).SubmitErr?)
  }

  /** Nobody else writes the node's own key. */
  ghost predicate OwnsKey(snap: Snapshot, id: string) {
    forall j :: j in snap.nodes && j != id ==> Spares(snap, j, id)
  }

  ghost predicate InputSpared(snap: Snapshot) {
    forall j :: j in snap.nodes ==> Spares(snap, j, "input")
  }

  /** An agent whose key nobody else writes, nor its only source's. */
  ghost predicate Fed(snap: Snapshot, id: string) {
    && id in snap.nodes && snap.nodes[id].AgentNode?
    && OwnsKey(snap, id) && forall p :: OnlySource(snap, id, p) ==> OwnsKey(snap, p)
  }

  /** The agent is asked `t`, and nobody can change that: its source has spoken, or nobody writes
      the global input. */
  ghost predicate AskedForGood(snap: Snapshot, s: State, id: string, t: string) {
    Asked(snap, s, id, t) && (InputSpared(snap) || !NoUpstream(snap, s, id))
  }

  /** The input is settled before the round begins. */
  ghost predicate InputStays(snap: Snapshot, r: Run, c: Round, id: string) {
    (InputSpared(snap) ==> Still(r, c, "input")) && forall p :: OnlySource(snap, id, p) ==> Still(r, c, p)
  }

  lemma AskedAlike(snap: Snapshot, s: State, s': State, id: string, t: string)
    requires InputSpared(snap) ==> Entry(s', "input") == Entry(s, "input")
    requires forall p :: OnlySource(snap, id, p) ==> Entry(s', p) == Entry(s, p)
    ensures AskedForGood(snap, s, id, t) <==> AskedForGood(snap, s', id, t)
  {
    assert InputSpared(snap) ==> forall u :: Holds(s, "input", u) <==> Holds(s', "input", u);
    assert forall p, u :: OnlySource(snap, id, p) ==> (Holds(s, p, u) <==> Holds(s', p, u));
  }

  /** Until it commits the agent's key is absent; afterwards everybody sees the reply, or nothing
      yet. */
  ghost predicate OwnKey(snap: Snapshot, c: Round, id: string, t: string)
    requires id in snap.nodes && snap.nodes[id].AgentNode?
  {
    && Replied(snap, c.run, id, t)
    && (forall j :: j in c.copies ==>
          Entry(c.copies[j], id) == None || Entry(c.copies[j], id) == Entry(c.run.state, id))
    && (id in c.waiting || id in c.copies ==>
          Entry(c.run.state, id) == None && id !in c.run.done && id !in c.run.failed)
  }

  lemma OwnCommit(snap: Snapshot, c: Round, id: string, t: string, e: Effect)
    requires id in snap.nodes && snap.nodes[id].AgentNode? && OwnKey(snap, c, id, t)
    requires CanStep(snap, c, Commit(id, e)) && Asked(snap, c.copies[id], id, t) && id !in c.waiting
    ensures OwnKey(snap, DoStep(snap, c, Commit(id, e)), id, t)
  {
    AnswersItsInput(snap, id, c.copies[id], t, e);
    var w: int :| e == AgentEffect(id, snap.nodes[id].submit(t, w));
    var c' := DoStep(snap, c, Commit(id, e));
    assert id in c'.run.done ==> Leaves(snap.nodes[id].submit(t, w), Entry(c'.run.state, id));
  }

  lemma OtherCommit(snap: Snapshot, c: Round, id: string, t: string, j: string, e: Effect)
    requires id in snap.nodes && snap.nodes[id].AgentNode? && OwnKey(snap, c, id, t)
    requires CanStep(snap, c, Commit(j, e)) && j != id && Spares(snap, j, id)
    requires GenuineAnswer(false, snap, j, c.copies[j], e)
    ensures OwnKey(snap, DoStep(snap, c, Commit(j, e)), id, t)
  {
    SparedCommit(snap, c, j, e, id);
  }

  lemma OwnKeyStep(snap: Snapshot, r: Run, ready: set<string>, c: Round, s: Step, id: string, t: string)
    requires Fed(snap, id) && OwnKey(snap, c, id, t) && InputStays(snap, r, c, id) && AskedForGood(snap, r.state, id, t)
    requires ready <= snap.nodes.Keys && Accounted(ready, c) && CanStep(snap, c, s) && GenuineStep(false, snap, c, s)
    ensures OwnKey(snap, DoStep(snap, c, s), id, t)
  {
    match s
    case Begin(_) =>
    case Commit(j, e) =>
      if j == id {
        AskedAlike(snap, r.state, c.copies[id], id, t);
        OwnCommit(snap, c, id, t, e);
      } else {
        OtherCommit(snap, c, id, t, j, e);
      }
    case Report(_) =>
  }

  lemma InputStaysInRound(snap: Snapshot, r: Run, ready: set<string>, steps: seq<Step>, c: Round, id: string)
    requires Fed(snap, id) && ready <= snap.nodes.Keys && forall p :: OnlySource(snap, id, p) ==> p !in ready
    requires Play(snap, StartRound(r, ready), steps) == Some(c)
    requires GenuineRound(false, snap, StartRound(r, ready), steps)
    ensures InputStays(snap, r, c, id)
  {
    if InputSpared(snap) {
      StillInRound(snap, r, ready, steps, c, "input");
    }
    forall p | OnlySource(snap, id, p)
      ensures Still(r, c, p)
    {
      StillInRound(snap, r, ready, steps, c, p);
    }
  }

  /** An agent whose source is not in the round replies to what it finds when the round begins. */
  lemma {:induction false} RepliesInRound(snap: Snapshot, r: Run, ready: set<string>, steps: seq<Step>, c: Round,
                                          id: string, t: string)
    requires Fed(snap, id) && ready <= snap.nodes.Keys && forall p :: OnlySource(snap, id, p) ==> p !in ready
    requires id in ready && id !in r.state && id !in r.done && id !in r.failed && AskedForGood(snap, r.state, id, t)
    requires Play(snap, StartRound(r, ready), steps) == Some(c)
    requires GenuineRound(false, snap, StartRound(r, ready), steps)
    ensures OwnKey(snap, c, id, t)
    decreases |steps|
  {
    if steps == [] {
    } else {
      var front, s := steps[..|steps| - 1], steps[|steps| - 1];
      var before := Play(snap, StartRound(r, ready), front).value;
      RepliesInRound(snap, r, ready, front, before, id, t);
      RoundKeepsInv(snap, r, ready, front, before);
      InputStaysInRound(snap, r, ready, front, before, id);
      OwnKeyStep(snap, r, ready, before, s, id, t);
    }
  }

  // ---- whole runs ------------------------------------------------------------------------------

  /** What the agent is asked for good according to the state, it has replied to. */
  ghost predicate RepliedSoFar(snap: Snapshot, r: Run, id: string)
    requires id in snap.nodes && snap.nodes[id].AgentNode?
  {
    forall t :: AskedForGood(snap, r.state, id, t) ==> Replied(snap, r, id, t)
  }

  lemma AfterRoundReplied(snap: Snapshot, end: Round, id: string)
    requires id in snap.nodes && snap.nodes[id].AgentNode? && RepliedSoFar(snap, end.run, id)
    ensures RepliedSoFar(snap, RunOf(AfterRound(snap, end)), id)
  {
    FoldOutgoingExact(snap, end.run, end.completions);
    var r := RunOf(AfterRound(snap, end));
    forall t | AskedForGood(snap, r.state, id, t)
      ensures Replied(snap, r, id, t)
    {
      assert Replied(snap, end.run, id, t);
    }
  }

  /** A round that launches the agent, or leaves it and its source alone, or finds it unsettled. */
  lemma RoundReplied(snap: Snapshot, r: Run, ready: set<string>, steps: seq<Step>, end: Round, id: string)
    requires Fed(snap, id) && ready <= snap.nodes.Keys && RepliedSoFar(snap, r, id)
    requires Completes(snap, r, ready, steps, end) && GenuineRound(false, snap, StartRound(r, ready), steps)
    requires r.failed == {} && (id in r.state ==> id in r.done) && (id in ready ==> id !in r.done)
    requires id in ready || id in r.done ==> forall p :: OnlySource(snap, id, p) ==> p !in ready
    ensures RepliedSoFar(snap, end.run, id)
    ensures end.firstErr.None? && id in end.run.state ==> id in end.run.done
  {
    RoundResult(snap, r, ready, steps, end);
    assert end.run.failed == end.run.failed - r.failed;
    if id in ready || id in r.done {
      InputStaysInRound(snap, r, ready, steps, end, id);
    }
    if id !in ready {
      StillInRound(snap, r, ready, steps, end, id);
    }
    forall t | AskedForGood(snap, end.run.state, id, t)
      ensures Replied(snap, end.run, id, t)
    {
      if id in ready || id in r.done {
        AskedAlike(snap, r.state, end.run.state, id, t);
      }
      if id in ready {
        RepliesInRound(snap, r, ready, steps, end, id, t);
      } else if id in r.done {
        assert Replied(snap, r, id, t);
      }
    }
  }

  ghost predicate FedHead(snap: Snapshot, r: Run, id: string)
    requires id in snap.nodes && snap.nodes[id].AgentNode?
  {
    RepliedSoFar(snap, r, id) && (id in r.state ==> id in r.done)
  }

  /** The sources of what is launched or done are not launched beside it. */
  lemma SourcesRest(snap: Snapshot, maxIter: nat, state: State, cs: seq<Choice>, h: Head, id: string, p: string)
    requires WellBuilt(snap) && snap.router.None? && maxIter >= 1 && Reaches(snap, maxIter, state, cs, h)
    requires p in Ins(snap, id)
    requires var r := SettleSkips(snap, h.run); id in h.run.done || id in ReadySet(snap, r, maxIter)
    ensures p !in ReadySet(snap, SettleSkips(snap, h.run), maxIter)
  {
    SettledBehind(snap, maxIter, state, cs, h);
  }

  lemma TurnReplied(snap: Snapshot, maxIter: nat, state: State, cs: seq<Choice>, h: Head, c: Choice, id: string)
    requires WellBuilt(snap) && snap.router.None? && maxIter >= 1 && Reaches(snap, maxIter, state, cs, h)
    requires Fed(snap, id) && FedHead(snap, h.run, id)
    requires Turn(snap, maxIter, h, c).Some? && GenuineChoice(false, snap, maxIter, h, c)
    ensures RepliedSoFar(snap, RunOf(Turn(snap, maxIter, h, c).value), id)
    ensures Turn(snap, maxIter, h, c).value.Again? ==> FedHead(snap, Turn(snap, maxIter, h, c).value.head.run, id)
  {
    ReachableInv(snap, maxIter, state, cs, h);
    UnroutedTurn(snap, maxIter, h, c);
    LaunchRule(snap, maxIter, h, c);
    var r, launch := SettleSkips(snap, h.run), Launch(snap, maxIter, h, c);
    assert RepliedSoFar(snap, r, id) by {
      assert forall t :: Replied(snap, h.run, id, t) ==> Replied(snap, r, id, t);
    }
    if !c.cancelled && launch != [] {
      var end := Play(snap, StartRound(r, Elements(launch)), c.steps).value;
      if id in launch || id in r.done {
        forall p | OnlySource(snap, id, p)
          ensures p !in launch
        {
          SourcesRest(snap, maxIter, state, cs, h, id, p);
        }
      }
      RoundReplied(snap, r, Elements(launch), c.steps, end, id);
      AfterRoundReplied(snap, end, id);
      FoldOutgoingExact(snap, end.run, end.completions);
    }
  }

  /** Over every run without a router, however it ends: an agent whose key nobody else writes is
      done only with a reply to its only source's output, as the end state still shows it, or, when
      there is none and nobody writes the global input, to that; the reply stands under its id. */
  lemma {:induction false} AgentsAreFed(snap: Snapshot, maxIter: nat, state: State, cs: seq<Choice>, id: string)
    requires WellBuilt(snap) && snap.router.None? && maxIter >= 1 && Fed(snap, id) && id !in state
    requires Exec(snap, maxIter, FreshRun(state), cs).Some? && Genuine(false, snap, maxIter, state, cs)
    ensures var o := Exec(snap, maxIter, FreshRun(state), cs).value;
            && RepliedSoFar(snap, RunOf(o), id)
            && (o.Again? ==> FedHead(snap, o.head.run, id))
    decreases |cs|
  {
    if cs == [] {
    } else {
      var front := cs[..|cs| - 1];
      AgentsAreFed(snap, maxIter, state, front, id);
      TurnReplied(snap, maxIter, state, front, Exec(snap, maxIter, FreshRun(state), front).value.head, cs[|cs| - 1],
          id);
    }
  }

  /** An agent with one source that holds `t` at the end was asked `t`: it is done only with a reply
      to `t`, and failed only if `t` can be refused. */
  lemma UpstreamFeeds(snap: Snapshot, maxIter: nat, state: State, cs: seq<Choice>, r: Run, err: Option<Error>,
                      id: string, p: string, t: string)
    requires WellBuilt(snap) && snap.router.None? && maxIter >= 1 && Fed(snap, id) && id !in state
    requires Returns(snap, maxIter, state, cs, r, err) && Genuine(false, snap, maxIter, state, cs)
    requires Ins(snap, id) == [p] && Holds(r.state, p, t)
    ensures id in r.done ==> exists w: int :: Leaves(snap.nodes[id].submit(t, w), Entry(r.state, id))
    ensures id in r.failed ==> exists w: int :: snap.nodes[id].submit(t, w).SubmitErr?
  {
    AgentsAreFed(snap, maxIter, state, cs, id);
    assert RepliedSoFar(snap, r, id);
    assert OnlySource(snap, id, p) && Holds(r.state, p, t);
    assert AskedForGood(snap, r.state, id, t);
  }

  // ---- chains ----------------------------------------------------------------------------------

  /** A chain behind the node `ids[0]`: every other member is an agent with its predecessor as only
      source, by an edge without a condition, and answers a text as `f` says. The members own
      their keys, and none is given at the start. */
  ghost predicate Chain(snap: Snapshot, ids: seq<string>, f: (string, string) -> string, given: set<string>) {
    forall i :: 0 <= i < |ids| ==> OwnsKey(snap, ids[i]) && ids[i] !in given && (i > 0 ==> Link(snap, ids, i, f))
  }

  ghost predicate Link(snap: Snapshot, ids: seq<string>, i: nat, f: (string, string) -> string)
    requires 0 < i < |ids|
  {
    Echoes(snap, ids[i], f) && OnlySource(snap, ids[i], ids[i - 1]) && CondOf(snap, (ids[i - 1], ids[i])).None?
  }

  /** A repeatable agent: asked `t` it always answers `f(id, t)`. */
  ghost predicate Echoes(snap: Snapshot, id: string, f: (string, string) -> string) {
    && id in snap.nodes && snap.nodes[id].AgentNode?
    && forall t, w: int :: snap.nodes[id].submit(t, w) == SubmitOk(Some(f(id, t)))
  }

  /** What member `i` makes of the first one's output `x`, each given the output of the one before. */
  function Passed(ids: seq<string>, f: (string, string) -> string, i: nat, x: string): string
    requires i < |ids|
  {
    if i == 0 then x else f(ids[i], Passed(ids, f, i - 1, x))
  }

  /** A node whose sources are done, by an edge without a condition or because there are none, is
      done when a run returns nil. */
  lemma DoneBehind(snap: Snapshot, maxIter: nat, state: State, cs: seq<Choice>, r: Run, id: string)
    requires WellBuilt(snap) && maxIter >= 1 && Returns(snap, maxIter, state, cs, r, None)
    requires id in snap.nodes && forall p :: p in Ins(snap, id) ==> p in r.done
    requires Ins(snap, id) == [] || exists p :: p in Ins(snap, id) && CondOf(snap, (p, id)).None?
    ensures id in r.done
  {
    RunKeepsKeys(snap, maxIter, state, cs, r, None);
    QuiescentReturn(snap, maxIter, state, cs, r);
    assert id in Elements(snap.order);
    assert !Blocked(snap, r, id);
    assert !AllDead(snap, r.dead, id) by {
      if p :| p in Ins(snap, id) && CondOf(snap, (p, id)).None? {
        assert (p, id) !in r.dead;
      }
    }
  }

  /** An agent that is done holds its answer. */
  lemma EchoHeld(snap: Snapshot, r: Run, id: string, f: (string, string) -> string, t: string)
    requires Echoes(snap, id, f) && id in r.done && Replied(snap, r, id, t)
    ensures Holds(r.state, id, f(id, t))
  {
    var w: int :| Leaves(snap.nodes[id].submit(t, w), Entry(r.state, id));
    assert snap.nodes[id].submit(t, w) == SubmitOk(Some(f(id, t)));
  }

  lemma LinkIsFed(snap: Snapshot, ids: seq<string>, f: (string, string) -> string, given: set<string>, i: nat)
    requires Chain(snap, ids, f, given) && 0 < i < |ids|
    ensures Fed(snap, ids[i]) && ids[i] !in given
    ensures Ins(snap, ids[i]) == [ids[i - 1]]
  {
    forall p | OnlySource(snap, ids[i], p)
      ensures p == ids[i - 1]
    {
      assert Ins(snap, ids[i])[0] == p;
    }
  }

  lemma LinkFires(snap: Snapshot, maxIter: nat, state: State, cs: seq<Choice>, r: Run,
                  ids: seq<string>, f: (string, string) -> string, i: nat, t: string)
    requires WellBuilt(snap) && snap.router.None? && maxIter >= 1 && Chain(snap, ids, f, state.Keys) && 0 < i < |ids|
    requires Returns(snap, maxIter, state, cs, r, None) && Genuine(false, snap, maxIter, state, cs)
    requires ids[i - 1] in r.done && Holds(r.state, ids[i - 1], t)
    ensures ids[i] in r.done && Holds(r.state, ids[i], f(ids[i], t))
  {
    LinkIsFed(snap, ids, f, state.Keys, i);
    assert ids[i - 1] in Ins(snap, ids[i]);
    DoneBehind(snap, maxIter, state, cs, r, ids[i]);
    UpstreamFeeds(snap, maxIter, state, cs, r, None, ids[i], ids[i - 1], t);
    EchoHeld(snap, r, ids[i], f, t);
  }

  /** Chains compose: when a run returns nil with the first member done and `x` under its id, every
      member is done, and under its id stands its answer to its predecessor's output. */
  lemma {:induction false} ChainsCompose(snap: Snapshot, maxIter: nat, state: State, cs: seq<Choice>, r: Run,
                                         ids: seq<string>, f: (string, string) -> string, x: string, i: nat)
    requires WellBuilt(snap) && snap.router.None? && maxIter >= 1 && Chain(snap, ids, f, state.Keys) && i < |ids|
    requires Returns(snap, maxIter, state, cs, r, None) && Genuine(false, snap, maxIter, state, cs)
    requires ids[0] in r.done && Holds(r.state, ids[0], x)
    ensures ids[i] in r.done && Holds(r.state, ids[i], Passed(ids, f, i, x))
    decreases i
  {
    if i > 0 {
      ChainsCompose(snap, maxIter, state, cs, r, ids, f, x, i - 1);
      LinkFires(snap, maxIter, state, cs, r, ids, f, i, Passed(ids, f, i - 1, x));
    }
  }

  /** A key that nobody writes keeps its value over every run. */
  lemma {:induction false} UntouchedKey(snap: Snapshot, maxIter: nat, state: State, cs: seq<Choice>, k: string)
    requires WellBuilt(snap) && forall j :: j in snap.nodes ==> Spares(snap, j, k)
    requires Exec(snap, maxIter, FreshRun(state), cs).Some? && Genuine(false, snap, maxIter, state, cs)
    ensures Entry(RunOf(Exec(snap, maxIter, FreshRun(state), cs).value).state, k) == Entry(state, k)
    decreases |cs|
  {
    if cs == [] {
    } else {
      var front, c := cs[..|cs| - 1], cs[|cs| - 1];
      UntouchedKey(snap, maxIter, state, front, k);
      var h := Exec(snap, maxIter, FreshRun(state), front).value.head;
      LaunchRule(snap, maxIter, h, c);
      var r, launch := Cleared(snap, SettleSkips(snap, h.run)), Launch(snap, maxIter, h, c);
      if !c.cancelled && launch != [] {
        var end := Play(snap, StartRound(r, Elements(launch)), c.steps).value;
        StillInRound(snap, r, Elements(launch), c.steps, end, k);
        FoldOutgoingExact(snap, end.run, end.completions);
      }
    }
  }

  /** A chain that begins with an agent without sources works on the global input, if nobody writes
      that. */
  lemma ChainsFromInput(snap: Snapshot, maxIter: nat, state: State, cs: seq<Choice>, r: Run,
                        ids: seq<string>, f: (string, string) -> string, input: string, i: nat)
    requires WellBuilt(snap) && snap.router.None? && maxIter >= 1 && Chain(snap, ids, f, state.Keys) && i < |ids|
    requires Returns(snap, maxIter, state, cs, r, None) && Genuine(false, snap, maxIter, state, cs)
    requires Echoes(snap, ids[0], f) && Ins(snap, ids[0]) == [] && InputSpared(snap) && GlobalInput(state, input)
    ensures ids[i] in r.done && Holds(r.state, ids[i], Passed(ids, f, i, f(ids[0], input)))
  {
    DoneBehind(snap, maxIter, state, cs, r, ids[0]);
    UntouchedKey(snap, maxIter, state, cs, "input");
    assert forall u :: Holds(state, "input", u) <==> Holds(r.state, "input", u);
    AgentsAreFed(snap, maxIter, state, cs, ids[0]);
    assert AskedForGood(snap, r.state, ids[0], input);
    EchoHeld(snap, r, ids[0], f, input);
    ChainsCompose(snap, maxIter, state, cs, r, ids, f, f(ids[0], input), i);
  }

  /** Agents write no key but their own. */
  lemma AgentsSpareOthers(snap: Snapshot, id: string, k: string)
    requires id in snap.nodes && snap.nodes[id].AgentNode? && k != id
    ensures Spares(snap, id, k)
  {
    forall copy, writes | GenuineAnswer(false, snap, id, copy, Merge(writes))
      ensures k !in writes
    {
      assert Answers(snap, id, copy, Merge(writes));
    }
  }
}
