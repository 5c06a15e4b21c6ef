/** When is a sibling's update lost? A function node merges its whole copy, stale entries included,
    so it may put back what a sibling has just replaced; an agent writes its own output only. For
    nodes that always write the same keys and values, here is exactly which rounds lose nothing. */
module GraphUpdates {
  import opened Basics
  import opened GraphModel
  import opened GraphRound
  import opened GraphConfluence

  /** What each node of a round writes. */
  type Writers = map<string, State>

  /** A node that always succeeds and writes `w`, whatever its input. */
  ghost predicate Steady(snap: Snapshot, id: string, w: State) {
    AddsOwnKeys(snap, id, w) || Outputs(snap, id, w)
  }

  ghost predicate Outputs(snap: Snapshot, id: string, w: State) {
    && id in snap.nodes && snap.nodes[id].AgentNode?
    && forall input, k: int :: AgentEffect(id, snap.nodes[id].submit(input, k)) == Merge(w)
  }

  ghost predicate AllSteady(snap: Snapshot, ws: Writers) {
    forall id :: id in ws ==> Steady(snap, id, ws[id])
  }

  /** What a node that copied `copy` merges: a function node all of it. */
  function Merged(snap: Snapshot, id: string, copy: State, w: State): State {
    if id in snap.nodes && snap.nodes[id].FnNode? then copy + w else w
  }

  /** Checkable before the round: two writers of a key agree on its value, and a function node that
      does not write a key its sibling writes found that very value there, or nothing. */
  predicate NoClash(snap: Snapshot, base: State, ws: Writers) {
    forall i, k | i in ws && k in ws[i] ::
      forall j | j in ws && k in Merged(snap, j, base, ws[j]) :: Merged(snap, j, base, ws[j])[k] == ws[i][k]
  }

  /** Every update of the nodes `ids` is in `s`. */
  ghost predicate Survives(ws: Writers, ids: set<string>, s: State) {
    forall i, k :: i in ids && i in ws && k in ws[i] ==> k in s && s[k] == ws[i][k]
  }

  /** No complete schedule loses an update. */
  ghost predicate NothingLost(snap: Snapshot, r: Run, ws: Writers) {
    forall steps, c :: Completes(snap, r, ws.Keys, steps, c) ==> Survives(ws, ws.Keys, c.run.state)
  }

  ghost predicate EndAlike(snap: Snapshot, r: Run, ws: Writers) {
    forall xs, c, ys, d :: Completes(snap, r, ws.Keys, xs, c) && Completes(snap, r, ws.Keys, ys, d) ==>
        c.run.state == d.run.state
  }

  // ---- what every schedule keeps -------------------------------------------------------------

  ghost predicate WrittenBy(ws: Writers, k: string, v: Value) {
    exists i :: i in ws && k in ws[i] && ws[i][k] == v
  }

  /** Nothing but the start state and what the nodes write. */
  ghost predicate Mixed(base: State, ws: Writers, s: State) {
    base.Keys <= s.Keys && forall k :: k in s ==> (k in base && s[k] == base[k]) || WrittenBy(ws, k, s[k])
  }

  function Through(ws: Writers, c: Round): set<string> {
    ws.Keys - c.waiting - c.copies.Keys
  }

  ghost predicate AllMixed(r: Run, ws: Writers, c: Round) {
    Mixed(r.state, ws, c.run.state) && forall id :: id in c.copies ==> Mixed(r.state, ws, c.copies[id])
  }

  /** A steady node's answer. */
  lemma SteadyAnswer(snap: Snapshot, id: string, w: State, copy: State, e: Effect)
    requires Steady(snap, id, w)
    ensures Answers(snap, id, copy, e) <==> e == Merge(Merged(snap, id, copy, w))
  {
    match snap.nodes[id]
    case FnNode(fn) =>
      assert fn(copy, 0) == FnOk(copy + w);
      assert e == Merge(copy + w) ==> e == FnEffect(fn(copy, 0));
    case AgentNode(submit) =>
      assert AgentEffect(id, submit(AgentInput(snap, copy, id), 0)) == Merge(w);
  }

  lemma MergeStaysMixed(snap: Snapshot, base: State, ws: Writers, id: string, copy: State, s: State)
    requires id in ws && Mixed(base, ws, copy) && Mixed(base, ws, s)
    ensures Mixed(base, ws, s + Merged(snap, id, copy, ws[id]))
  {
    var after := s + Merged(snap, id, copy, ws[id]);
    forall k | k in after
      ensures (k in base && after[k] == base[k]) || WrittenBy(ws, k, after[k])
    {
      if k in ws[id] {
        assert after[k] == ws[id][k];
      }
    }
  }

  lemma StepStaysMixed(snap: Snapshot, r: Run, ws: Writers, c: Round, s: Step)
    requires AllSteady(snap, ws) && Accounted(ws.Keys, c) && AllMixed(r, ws, c) && CanStep(snap, c, s)
    ensures AllMixed(r, ws, DoStep(snap, c, s))
    ensures s.Commit? ==> s.effect == Merge(Merged(snap, s.id, c.copies[s.id], ws[s.id]))
  {
    if s.Commit? {
      SteadyAnswer(snap, s.id, ws[s.id], c.copies[s.id], s.effect);
      MergeStaysMixed(snap, r.state, ws, s.id, c.copies[s.id], c.run.state);
    }
  }

  /** Without a clash no merge undoes an update. */
  lemma MergeKeepsUpdates(snap: Snapshot, base: State, ws: Writers, ids: set<string>, id: string, copy: State, s: State)
    requires NoClash(snap, base, ws) && id in ws && Mixed(base, ws, copy) && Survives(ws, ids, s)
    ensures Survives(ws, ids + {id}, s + Merged(snap, id, copy, ws[id]))
  {
    var after := s + Merged(snap, id, copy, ws[id]);
    forall i, k | i in ids + {id} && i in ws && k in ws[i]
      ensures k in after && after[k] == ws[i][k]
    {
      if k in Merged(snap, id, copy, ws[id]) && k !in ws[id] {
        if k in base && copy[k] == base[k] {
          assert k in Merged(snap, id, base, ws[id]);
        } else {
          var m :| m in ws && k in ws[m] && ws[m][k] == copy[k];
          assert k in Merged(snap, m, base, ws[m]);
        }
      }
    }
  }

  lemma {:induction false} StaysMixed(snap: Snapshot, r: Run, ws: Writers, steps: seq<Step>, c: Round)
    requires AllSteady(snap, ws) && Play(snap, StartRound(r, ws.Keys), steps) == Some(c)
    ensures Accounted(ws.Keys, c) && AllMixed(r, ws, c)
    ensures NoClash(snap, r.state, ws) ==> Survives(ws, Through(ws, c), c.run.state)
    decreases |steps|
  {
    RoundKeepsInv(snap, r, ws.Keys, steps, c);
    if steps == [] {
      assert Through(ws, c) == {};
    } else {
      var front, s := steps[..|steps| - 1], steps[|steps| - 1];
      var before := Play(snap, StartRound(r, ws.Keys), front).value;
      StaysMixed(snap, r, ws, front, before);
      StepStaysMixed(snap, r, ws, before, s);
      if NoClash(snap, r.state, ws) {
        StepKeepsUpdates(snap, r, ws, before, s);
      }
    }
  }

  lemma StepKeepsUpdates(snap: Snapshot, r: Run, ws: Writers, c: Round, s: Step)
    requires Accounted(ws.Keys, c) && AllMixed(r, ws, c) && CanStep(snap, c, s)
    requires s.Commit? ==> s.effect == Merge(Merged(snap, s.id, c.copies[s.id], ws[s.id]))
    requires NoClash(snap, r.state, ws) && Survives(ws, Through(ws, c), c.run.state)
    ensures Survives(ws, Through(ws, DoStep(snap, c, s)), DoStep(snap, c, s).run.state)
  {
    if s.Commit? {
      assert Through(ws, DoStep(snap, c, s)) == Through(ws, c) + {s.id};
      MergeKeepsUpdates(snap, r.state, ws, Through(ws, c), s.id, c.copies[s.id], c.run.state);
    }
  }

  /** Nobody fails. */
  lemma {:induction false} AllSucceedSteadily(snap: Snapshot, r: Run, ws: Writers, steps: seq<Step>, c: Round)
    requires AllSteady(snap, ws) && Play(snap, StartRound(r, ws.Keys), steps) == Some(c)
    ensures (forall id :: id in c.landed ==> c.landed[id]) && c.firstErr.None? && c.run.failed == r.failed
    decreases |steps|
  {
    if steps != [] {
      var front, s := steps[..|steps| - 1], steps[|steps| - 1];
      var before := Play(snap, StartRound(r, ws.Keys), front).value;
      AllSucceedSteadily(snap, r, ws, front, before);
      RoundKeepsInv(snap, r, ws.Keys, front, before);
      if s.Commit? {
        SteadyAnswer(snap, s.id, ws[s.id], before.copies[s.id], s.effect);
      }
    }
  }

  // ---- a schedule that puts a stale copy last ---------------------------------------------------

  /** Whoever still waits runs, one node after the other; those under way stay where they are. */
  lemma {:induction false} RunWaiting(snap: Snapshot, start: Round, steps: seq<Step>, c: Round, ws: Writers)
    returns (steps': seq<Step>, c': Round)
    requires Play(snap, start, steps) == Some(c) && AllSteady(snap, ws) && c.waiting <= ws.Keys
    requires c.waiting !! c.copies.Keys && c.landed == map[]
    ensures Play(snap, start, steps') == Some(c') && c'.waiting == {} && c'.copies == c.copies && c'.landed == map[]
    decreases |c.waiting|
  {
    steps', c' := steps, c;
    if c.waiting != {} {
      var id :| id in c.waiting;
      var e := Merge(Merged(snap, id, c.run.state, ws[id]));
      SteadyAnswer(snap, id, ws[id], c.run.state, e);
      steps', c' := RunAlone(snap, start, steps, c, id, e);
      steps', c' := RunWaiting(snap, start, steps', c', ws);
    }
  }

  /** `id` copies the state before anyone else has run, and merges after everyone else has. */
  lemma CommitsLast(snap: Snapshot, r: Run, ws: Writers, id: string) returns (steps: seq<Step>, c: Round)
    requires AllSteady(snap, ws) && id in ws
    ensures Completes(snap, r, ws.Keys, steps, c)
    ensures forall k :: k in Merged(snap, id, r.state, ws[id]) ==>
              k in c.run.state && c.run.state[k] == Merged(snap, id, r.state, ws[id])[k]
  {
    var start := StartRound(r, ws.Keys);
    var e := Merge(Merged(snap, id, r.state, ws[id]));
    SteadyAnswer(snap, id, ws[id], r.state, e);
    steps, c := Extend(snap, start, [], start, Begin(id));
    assert c.copies == map[id := r.state] && c.landed == map[];
    steps, c := RunWaiting(snap, start, steps, c, ws);
    steps, c := Extend(snap, start, steps, c, Commit(id, e));
    assert c.copies == map[] && c.landed == map[id := true];
    steps, c := Extend(snap, start, steps, c, Report(id));
    assert c.landed == map[];
  }

  // ---- the exact condition ------------------------------------------------------------------------

  /** Where a round without a clash ends, whatever the schedule. */
  lemma RoundWithoutClash(snap: Snapshot, r: Run, ws: Writers, steps: seq<Step>, c: Round)
    requires AllSteady(snap, ws) && NoClash(snap, r.state, ws) && Completes(snap, r, ws.Keys, steps, c)
    ensures Survives(ws, ws.Keys, c.run.state) && Mixed(r.state, ws, c.run.state)
    ensures c.firstErr.None? && Elements(c.completions) == ws.Keys && c.run.failed == r.failed
  {
    StaysMixed(snap, r, ws, steps, c);
    AllSucceedSteadily(snap, r, ws, steps, c);
    RoundResult(snap, r, ws.Keys, steps, c);
    assert Through(ws, c) == ws.Keys;
  }

  lemma SameMixture(base: State, ws: Writers, s: State, t: State)
    requires Mixed(base, ws, s) && Survives(ws, ws.Keys, s) && Mixed(base, ws, t) && Survives(ws, ws.Keys, t)
    ensures s == t
  {
    forall k | k in s
      ensures k in t && t[k] == s[k]
    {
      if WrittenBy(ws, k, s[k]) {
        var i :| i in ws && k in ws[i] && ws[i][k] == s[k];
      }
    }
    forall k | k in t
      ensures k in s
    {
      if k !in base {
        var i :| i in ws && k in ws[i] && ws[i][k] == t[k];
      }
    }
  }

  /** Without a clash the whole bookkeeping ends the same. */
  lemma NoClashConfluence(snap: Snapshot, r: Run, ws: Writers, xs: seq<Step>, c: Round, ys: seq<Step>, d: Round)
    requires AllSteady(snap, ws) && NoClash(snap, r.state, ws)
    requires Completes(snap, r, ws.Keys, xs, c) && Completes(snap, r, ws.Keys, ys, d)
    ensures c.run == d.run
  {
    RoundWithoutClash(snap, r, ws, xs, c);
    RoundWithoutClash(snap, r, ws, ys, d);
    SameMixture(r.state, ws, c.run.state, d.run.state);
    SameBookkeeping(snap, r, r, ws.Keys, xs, c, ys, d);
  }

  /** For nodes that always write the same: no schedule loses an update exactly when nothing
      clashes, and exactly then all schedules end in the same state. */
  lemma NoUpdateLostExactly(snap: Snapshot, r: Run, ws: Writers)
    requires AllSteady(snap, ws)
    ensures NothingLost(snap, r, ws) <==> NoClash(snap, r.state, ws)
    ensures EndAlike(snap, r, ws) <==> NoClash(snap, r.state, ws)
  {
    if NoClash(snap, r.state, ws) {
      forall steps, c | Completes(snap, r, ws.Keys, steps, c)
        ensures Survives(ws, ws.Keys, c.run.state) && Mixed(r.state, ws, c.run.state)
      {
        RoundWithoutClash(snap, r, ws, steps, c);
      }
      forall xs, c, ys, d | Completes(snap, r, ws.Keys, xs, c) && Completes(snap, r, ws.Keys, ys, d)
        ensures c.run.state == d.run.state
      {
        SameMixture(r.state, ws, c.run.state, d.run.state);
      }
    } else {
      ClashLoses(snap, r, ws);
    }
  }

  /** A clash is never without consequence: whose update survives depends on who merges last. */
  lemma ClashLoses(snap: Snapshot, r: Run, ws: Writers)
    requires AllSteady(snap, ws) && !NoClash(snap, r.state, ws)
    ensures !NothingLost(snap, r, ws) && !EndAlike(snap, r, ws)
  {
    var i, k :| i in ws && k in ws[i]
                && !forall j | j in ws && k in Merged(snap, j, r.state, ws[j]) ::
                      Merged(snap, j, r.state, ws[j])[k] == ws[i][k];
    var j :| j in ws && k in Merged(snap, j, r.state, ws[j]) && Merged(snap, j, r.state, ws[j])[k] != ws[i][k];
    var xs, c := CommitsLast(snap, r, ws, j);
    var ys, d := CommitsLast(snap, r, ws, i);
    assert c.run.state[k] != ws[i][k];
    assert Merged(snap, i, r.state, ws[i])[k] == ws[i][k];
  }

  /** Fresh disjoint keys never clash; but agreeing writers and unchanged values do not either. */
  lemma FreshKeysNeverClash(snap: Snapshot, base: State, ws: Writers)
    requires FreshKeys(base, map id | id in ws :: Some(ws[id]))
    ensures NoClash(snap, base, ws)
  {
    var plan: Plan := map id | id in ws :: Some(ws[id]);
    forall i, j, k | i in ws && k in ws[i] && j in ws && k in Merged(snap, j, base, ws[j])
      ensures i == j
    {
      assert Writes(plan, i, k);
      if i != j {
        assert Writes(plan, j, k);
        assert SiblingKey(plan, i, k);
      }
    }
  }

  // ---- the smallest example --------------------------------------------------------------------------

  /** Two function nodes: "a" overwrites key `k` with `v`, "b" leaves its copy alone. */
  function Overwriter(k: string, v: Value): Snapshot {
    Snapshot(
      map["a" := FnNode((s: State, w: int) => FnOk(s + map[k := v])),
          "b" := FnNode((s: State, w: int) => FnOk(s + map[]))],
      ["a", "b"], map[], map[], map[], None)
  }

  function Overwrites(k: string, v: Value): Writers {
    map["a" := map[k := v], "b" := map[]]
  }

  lemma OverwriterIsSteady(k: string, v: Value)
    ensures AllSteady(Overwriter(k, v), Overwrites(k, v)) && Overwrites(k, v).Keys == {"a", "b"}
  {
    var snap := Overwriter(k, v);
    assert AddsOwnKeys(snap, "a", map[k := v]) && AddsOwnKeys(snap, "b", map[]);
  }

  /** "b" before "a" keeps the update. */
  lemma SerialKeepsUpdate(r: Run, k: string, v: Value) returns (steps: seq<Step>, c: Round)
    ensures Completes(Overwriter(k, v), r, {"a", "b"}, steps, c) && c.run.state == r.state[k := v]
    ensures c.firstErr.None?
  {
    var snap, ws := Overwriter(k, v), Overwrites(k, v);
    OverwriterIsSteady(k, v);
    steps, c := CommitsLast(snap, r, ws, "a");
    StaysMixed(snap, r, ws, steps, c);
    AllSucceedSteadily(snap, r, ws, steps, c);
    SameKeys(r, k, v, c.run.state);
  }

  /** When "b" copies the state before "a" has run and merges after it, the old value is back. */
  lemma StaleCopyLosesUpdate(r: Run, k: string, v: Value) returns (steps: seq<Step>, c: Round)
    requires k in r.state
    ensures Completes(Overwriter(k, v), r, {"a", "b"}, steps, c) && c.run.state == r.state
    ensures c.firstErr.None?
  {
    var snap, ws := Overwriter(k, v), Overwrites(k, v);
    OverwriterIsSteady(k, v);
    steps, c := CommitsLast(snap, r, ws, "b");
    StaysMixed(snap, r, ws, steps, c);
    AllSucceedSteadily(snap, r, ws, steps, c);
    SameKeys(r, k, v, c.run.state);
    assert Merged(snap, "b", r.state, ws["b"]) == r.state;
  }

  lemma SameKeys(r: Run, k: string, v: Value, s: State)
    requires Mixed(r.state, Overwrites(k, v), s)
    ensures r.state.Keys <= s.Keys <= r.state.Keys + {k}
  {
    forall j | j in s
      ensures j in r.state || j == k
    {
      if j !in r.state {
        var i :| i in Overwrites(k, v) && j in Overwrites(k, v)[i];
      }
    }
  }
}
