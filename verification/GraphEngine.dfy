/** The engine itself: one run's mutable bookkeeping and the methods that update it, each
    proved against its function in GraphModel, GraphRound or GraphRuns. */
module GraphEngine {
  import opened Basics
  import opened GraphModel
  import opened GraphRound
  import opened GraphRuns
  import opened GraphNesting
  import opened GraphInputs
  import opened GraphConditions

  class GraphRun {
    var state: State
    var done: set<string>
    var skipped: set<string>
    var failed: set<string>
    var iter: map<string, nat>
    var edgeDead: set<Edge>
    var lastDone: string

    constructor (state: State)
      ensures Model() == FreshRun(state)
    {
      this.state := state;
      done, skipped, failed := {}, {}, {};
      iter, edgeDead, lastDone := map[], {}, "";
    }

    function Model(): Run
      reads this
    {
      Run(state, done, skipped, failed, iter, edgeDead, lastDone)
    }

    method SettleSkips(snap: Snapshot)
      modifies this
      ensures Model() == GraphModel.SettleSkips(snap, old(Model()))
    {
      ghost var r := Model();
      for i := 0 to |snap.order|
        invariant Model() == r.(skipped := skipped)
        invariant skipped == r.skipped + set id | id in snap.order[..i] && !Settled(r, id) && AllDead(snap, r.dead, id)
      {
        var id := snap.order[i];
        assert snap.order[..i + 1] == snap.order[..i] + [id];
        if id !in done && id !in skipped && id !in failed {
          var ins := Ins(snap, id);
          if |ins| > 0 {
            var allDead := true;
            for k := 0 to |ins|
              invariant allDead && forall j :: 0 <= j < k ==> (ins[j], id) in edgeDead
            {
              if (ins[k], id) !in edgeDead {
                allDead := false;
                break;
              }
            }
            if allDead {
              skipped := skipped + {id};
            }
          }
        }
      }
      assert snap.order[..|snap.order|] == snap.order;
    }

    method ReadySet(snap: Snapshot, maxIter: nat) returns (ready: seq<string>)
      ensures ready == GraphModel.ReadySet(snap, Model(), maxIter)
    {
      ready := [];
      for i := 0 to |snap.order|
        invariant ready == Select(snap, Model(), maxIter, snap.order[..i])
      {
        var id := snap.order[i];
        assert snap.order[..i + 1][..i] == snap.order[..i];
        if !(id in done || id in skipped || id in failed || IterOf(Model(), id) >= maxIter) {
          var blocked, live := CheckSources(snap, id);
          if !blocked && (|Ins(snap, id)| == 0 || live) {
            ready := ready + [id];
          }
        }
      }
      assert snap.order[..|snap.order|] == snap.order;
    }

    /** The inner loop of the readiness rule: stop at the first unsettled source. */
    method CheckSources(snap: Snapshot, id: string) returns (blocked: bool, live: bool)
      ensures blocked <==> Blocked(snap, Model(), id)
      ensures !blocked ==> (live <==> Live(snap, Model(), id))
    {
      var ins := Ins(snap, id);
      blocked, live := false, false;
      for k := 0 to |ins|
        invariant !blocked && forall j :: 0 <= j < k ==> Settled(Model(), ins[j])
        invariant live <==> exists j :: 0 <= j < k && (ins[j], id) !in edgeDead
      {
        if !(ins[k] in done || ins[k] in failed || ins[k] in skipped) {
          blocked := true;
          assert ins[k] in Ins(snap, id) && !Settled(Model(), ins[k]);
          break;
        }
        if (ins[k], id) !in edgeDead {
          live := true;
        }
      }
      if !blocked {
        assert forall from :: from in ins ==> Settled(Model(), from);
      }
    }

    method CanRun(snap: Snapshot, id: string, maxIter: nat) returns (ok: bool)
      ensures ok <==> GraphModel.CanRun(snap, Model(), maxIter, id)
    {
      if id !in snap.nodes {
        return false;
      }
      if id in skipped || id in failed || IterOf(Model(), id) >= maxIter {
        return false;
      }
      return true;
    }

    method PendingCount(snap: Snapshot) returns (n: nat)
      requires NoDup(snap.order)
      ensures n == |set id | id in snap.order && !Settled(Model(), id)|
    {
      n := 0;
      ghost var counted: set<string> := {};
      for i := 0 to |snap.order|
        invariant counted == set id | id in snap.order[..i] && !Settled(Model(), id)
        invariant n == |counted|
      {
        var id := snap.order[i];
        assert snap.order[..i + 1] == snap.order[..i] + [id];
        assert id !in snap.order[..i];
        if id !in done && id !in skipped && id !in failed {
          n := n + 1;
          counted := counted + {id};
        }
      }
      assert snap.order[..|snap.order|] == snap.order;
    }

    method EvaluateOutgoing(snap: Snapshot, id: string)
      modifies this
      ensures Model() == GraphModel.EvaluateOutgoing(snap, old(Model()), id)
      ensures forall e :: e in edgeDead <==>
                e in old(edgeDead)
                || (e.0 == id && e.1 in Outs(snap, id) && (Rejects(snap, e, state) || id in failed || id in skipped))
    {
      ghost var r := Model();
      var outs := Outs(snap, id);
      for k := 0 to |outs|
        invariant Model() == r.(dead := edgeDead)
        invariant forall e :: e in edgeDead <==>
                  e in r.dead || (e.0 == id && e.1 in outs[..k] && CondFails(snap, r.state, e))
      {
        var key := (id, outs[k]);
        assert outs[..k + 1] == outs[..k] + [outs[k]];
        if CondOf(snap, key).Some? && !CondOf(snap, key).value(state) {
          edgeDead := edgeDead + {key};
        }
      }
      assert outs[..|outs|] == outs;
      if id in failed || id in skipped {
        ghost var conditional := edgeDead;
        for k := 0 to |outs|
          invariant Model() == r.(dead := edgeDead)
          invariant forall e :: e in edgeDead <==> e in conditional || (e.0 == id && e.1 in outs[..k])
        {
          assert outs[..k + 1] == outs[..k] + [outs[k]];
          edgeDead := edgeDead + {(id, outs[k])};
        }
        assert outs[..|outs|] == outs;
      }
      OutgoingExact(snap, r, r.dead, id);
      assert edgeDead == GraphModel.EvaluateOutgoing(snap, r, id).dead;
    }

    /** The body of one node, run on its own copy of the state: it touches nothing shared, so
        the moment at which it happens between Begin and Commit does not matter. */
    static method RunBody(snap: Snapshot, id: string, copy: State) returns (e: Effect)
      requires WellBuilt(snap) && id in snap.nodes
      ensures GenuineAnswer(false, snap, id, copy, e)
      ensures snap.nodes[id].AgentNode? ==> forall t :: Asked(snap, copy, id, t) ==> Submits(snap, id, t, e)
      decreases snap, 0
    {
      var w: int := *;
      match snap.nodes[id] {
        case AgentNode(submit) =>
          e := AgentEffect(id, submit(GraphRound.AgentInput(snap, copy, id), w));
          forall t | Asked(snap, copy, id, t)
            ensures Submits(snap, id, t, e)
          {
            AnswersItsInput(snap, id, copy, t, e);
          }
        case FnNode(fn) =>
          e := FnEffect(fn(copy, w));
        case SubNode(sub, maxIterations) =>
          var child := new GraphRun(copy);
          var err, cs := child.RunGraphRounds(sub, OrDefault(maxIterations));
          RunKeepsKeys(sub, OrDefault(maxIterations), copy, cs, child.Model(), err);
          e := if err.Some? then Fails else Merge(child.state);
          assert NestedRun(false, sub, OrDefault(maxIterations), copy, cs, child.Model(), err)
              && e == NestedEffect(child.Model(), err);
          assert NestedOutcome(false, sub, OrDefault(maxIterations), copy, e);
        case NoKind =>
          e := Unexecutable;
      }
    }

    /** The locked section at the start of a node: count the execution, copy the state. */
    method BeginNode(id: string) returns (copy: State)
      modifies this
      ensures Model() == CountExecution(old(Model()), id) && copy == state
    {
      iter := iter[id := IterOf(Model(), id) + 1];
      copy := state;
    }

    /** The locked section at the end of a node: record its failure or merge its whole copy. */
    method CommitNode(id: string, e: Effect)
      modifies this
      ensures Model() == ApplyEffect(old(Model()), id, e)
    {
      match e {
        case Merge(writes) =>
          state := state + writes;
          done := done + {id};
        case Fails =>
          failed := failed + {id};
        case Unexecutable =>
      }
    }

    /** One barrier round: any node may take its next step at any time. */
    method RunRound(snap: Snapshot, ready: seq<string>)
      returns (completions: seq<string>, firstErr: Option<string>, ghost steps: seq<Step>)
      requires WellBuilt(snap) && Elements(ready) <= snap.nodes.Keys
      modifies this
      ensures Completes(snap, old(Model()), Elements(ready), steps,
                Round(Model(), {}, map[], map[], completions, firstErr))
      ensures GenuineRound(false, snap, StartRound(old(Model()), Elements(ready)), steps)
      decreases snap, 1
    {
      completions, firstErr, steps := [], None, [];
      var waiting: set<string> := set id | id in ready;
      var copies: map<string, State> := map[];
      var landed: map<string, bool> := map[];
      ghost var start := StartRound(Model(), Elements(ready));
      assert waiting == Elements(ready);
      while waiting != {} || copies != map[] || landed != map[]
        invariant Play(snap, start, steps) == Some(Round(Model(), waiting, copies, landed, completions, firstErr))
        invariant GenuineRound(false, snap, start, steps)
        invariant waiting <= snap.nodes.Keys && copies.Keys <= snap.nodes.Keys
        decreases waiting, copies.Keys, landed.Keys
      {
        ghost var c := Round(Model(), waiting, copies, landed, completions, firstErr);
        ghost var s: Step;
        if {
          case waiting != {} =>
            var id :| id in waiting;
            s := Begin(id);
            var copy := BeginNode(id);
            waiting, copies := waiting - {id}, copies[id := copy];
          case copies != map[] =>
            var id :| id in copies;
            var e := RunBody(snap, id, copies[id]);
            s := Commit(id, e);
            CommitNode(id, e);
            copies, landed := copies - {id}, landed[id := e.Merge?];
          case landed != map[] =>
            var id :| id in landed;
            s := Report(id);
            if landed[id] {
              completions := completions + [id];
            } else if firstErr.None? {
              firstErr := Some(id);
            }
            landed := landed - {id};
        }
        GenuineExtend(false, snap, start, steps, c, s);
        steps, c := Extend(snap, start, steps, c, s);
      }
    }

    /** The router's turn: it answers the last completion once, and may force a single node. */
    method ConsultRouter(snap: Snapshot, maxIter: nat, ready: seq<string>) returns (next: string, launch: seq<string>)
      modifies this
      ensures Model() == Cleared(snap, old(Model())) && RouterAnswers(snap, old(Model()), next)
      ensures launch == if Forces(snap, maxIter, old(Model()), next) then [next] else ready
    {
      next, launch := "", ready;
      if snap.router.Some? && lastDone != "" {
        var w: int := *;
        next := snap.router.value(lastDone, state, w);
        lastDone := "";
        if next != "" {
          var ok := CanRun(snap, next, maxIter);
          if ok {
            launch := [next];
          }
        }
      }
    }

    /** Every completion's outgoing edges are evaluated; the first one seeds the router. */
    method EvaluateCompletions(snap: Snapshot, completions: seq<string>)
      modifies this
      ensures Model() == EvaluateAll(snap, old(Model()), completions)
    {
      ghost var r := Model();
      for i := 0 to |completions|
        invariant Model() == EvaluateAll(snap, r, completions[..i])
      {
        assert completions[..i + 1][..i] == completions[..i];
        FoldOutgoingExact(snap, r, completions[..i]);
        OutgoingIgnoresLastDone(snap, FoldOutgoing(snap, r, completions[..i]), lastDone, completions[i]);
        EvaluateOutgoing(snap, completions[i]);
        if i == 0 {
          lastDone := completions[i];
        }
      }
      assert completions[..|completions|] == completions;
    }

    static lemma OutgoingIgnoresLastDone(snap: Snapshot, r: Run, last: string, id: string)
      ensures GraphModel.EvaluateOutgoing(snap, r.(lastDone := last), id) ==
                GraphModel.EvaluateOutgoing(snap, r, id).(lastDone := last)
    {
    }

    /** One turn of the round loop. */
    method TakeTurn(snap: Snapshot, maxIter: nat, idle: nat)
      returns (finished: bool, err: Option<Error>, idle': nat, ghost c: Choice)
      requires WellBuilt(snap)
      modifies this
      ensures Turn(snap, maxIter, Head(old(Model()), idle), c)
              == Some(if finished then Return(Model(), err) else Again(Head(Model(), idle')))
      ensures GenuineChoice(false, snap, maxIter, Head(old(Model()), idle), c)
      decreases snap, 2
    {
      ghost var h := Head(Model(), idle);
      finished, err, idle' := false, None, 0;
      var cancelled: bool := *;
      if cancelled {
        finished, err, c := true, Some(Cancelled), Choice(true, "", []);
        return;
      }
      SettleSkips(snap);
      var ready := ReadySet(snap, maxIter);
      var next, launch := ConsultRouter(snap, maxIter, ready);
      c := Choice(false, next, []);
      LaunchRule(snap, maxIter, h, c);
      if |launch| == 0 {
        idle' := idle + 1;
        var pending := PendingCount(snap);
        NoneCounted(snap, Model());
        finished := pending == 0 || idle' >= 2;
        return;
      }
      var completions, firstErr, steps := RunRound(snap, launch);
      c := c.(steps := steps);
      EvaluateCompletions(snap, completions);
      if firstErr.Some? {
        finished, err := true, Some(NodeFailed(firstErr.value));
      }
    }

    /** The round loop. The returned choices witness that what happened is a run of the model,
        in which every nested graph answered by a run of its own. */
    method RunGraphRounds(snap: Snapshot, maxIter: nat) returns (err: Option<Error>, ghost cs: seq<Choice>)
      requires WellBuilt(snap) && Model() == FreshRun(state)
      modifies this
      ensures Returns(snap, maxIter, old(state), cs, Model(), err) && Genuine(false, snap, maxIter, old(state), cs)
      decreases snap, 3
    {
      var idle := 0;
      cs := [];
      ghost var initial := state;
      while true
        invariant Reaches(snap, maxIter, initial, cs, Head(Model(), idle)) && Genuine(false, snap, maxIter, initial, cs)
        decreases Variant(snap, maxIter, Head(Model(), idle)) + 1
      {
        ghost var h := Head(Model(), idle);
        ReachableInv(snap, maxIter, initial, cs, h);
        RemainingBounds(snap.order, h.run, maxIter);
        var finished, err', idle', c := TakeTurn(snap, maxIter, idle);
        GenuineNext(false, snap, maxIter, initial, cs, h, c);
        cs := NextTurn(snap, maxIter, initial, cs, h, c);
        if finished {
          return err', cs;
        }
        idle := idle';
        TurnSpends(snap, maxIter, h, c, Head(Model(), idle));
      }
    }

    static lemma NextTurn(snap: Snapshot, maxIter: nat, state: State, cs: seq<Choice>, h: Head, c: Choice)
      returns (cs': seq<Choice>)
      requires Reaches(snap, maxIter, state, cs, h) && Turn(snap, maxIter, h, c).Some?
      ensures cs' == cs + [c]
      ensures Exec(snap, maxIter, FreshRun(state), cs') == Turn(snap, maxIter, h, c)
    {
      cs' := cs + [c];
      assert cs'[..|cs'| - 1] == cs;
    }

    static lemma NoneCounted(snap: Snapshot, r: Run)
      ensures |set id | id in snap.order && !Settled(r, id)| == 0 <==> forall id :: !Pending(snap, r, id)
    {
      var pending := set id | id in snap.order && !Settled(r, id);
      if |pending| == 0 {
        assert forall id :: Pending(snap, r, id) ==> id in pending;
      } else {
        var id :| id in pending;
        assert Pending(snap, r, id);
      }
    }
  }
}
