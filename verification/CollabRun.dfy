/** One collaboration run from submission to return, over a fabric that keeps moving, and the
    janitor's sweep as a sequential pass. */
module CollabRun {
  import opened Basics
  import opened Digraph
  import opened CollabIds
  import opened Janitor
  import opened CycleCheck

  datatype Task = Task(state: TaskState, output: string)

  datatype NodeSpec = NodeSpec(id: string, capability: string)
  datatype EdgeSpec = EdgeSpec(from: string, to: string)

  datatype SubmitError =
    | MissingField
    | DuplicateNode(id: string)
    | UnknownEndpoint(edge: EdgeSpec)
    | DependencyCycle(id: string)

  // ---- the fabric, as far as this code depends on it ---------------------------------------------

  /** How the fabric may move on by itself between two steps of a run: the run's own tasks (`mine`)
      neither appear nor disappear, and once completed or failed stay as they are; anything may
      happen to other tasks. */
  predicate Evolves(mine: set<string>, a: map<string, Task>, b: map<string, Task>) {
    forall id :: id in mine ==>
      (id in a <==> id in b) && (id in a && (a[id].state.Completed? || a[id].state.Failed?) ==> b[id] == a[id])
  }

  /** A call the fabric granted. */
  datatype Call = Created(id: string) | Deleted(id: string)

  /** A task somebody asked the fabric for, and what it answered. */
  datatype Lookup = Lookup(id: string, found: Option<Task>)

  class Fabric {
    var tasks: map<string, Task>
    ghost var calls: seq<Call>
    ghost var lookups: seq<Lookup>

    constructor ()
      ensures tasks == map[] && calls == [] && lookups == []
    {
      tasks, calls, lookups := map[], [], [];
    }

    /** Read one task. */
    method Get(id: string) returns (tk: Option<Task>)
      modifies this`lookups
      ensures tk == if id in tasks then Some(tasks[id]) else None
      ensures lookups == old(lookups) + [Lookup(id, tk)]
    {
      tk := if id in tasks then Some(tasks[id]) else None;
      lookups := lookups + [Lookup(id, tk)];
    }

    /** Create refuses an id that exists. */
    method Create(id: string) returns (ok: bool)
      modifies this`tasks, this`calls
      ensures ok <==> id !in old(tasks)
      ensures tasks == if ok then old(tasks)[id := Task(Ready, "")] else old(tasks)
      ensures calls == if ok then old(calls) + [Created(id)] else old(calls)
    {
      ok := id !in tasks;
      if ok {
        tasks := tasks[id := Task(Ready, "")];
        calls := calls + [Created(id)];
      }
    }

    /** Delete refuses an unknown task and a task in flight. */
    method Delete(id: string) returns (ok: bool)
      modifies this`tasks, this`calls
      ensures ok <==> id in old(tasks) && !old(tasks)[id].state.InFlight?
      ensures tasks == if ok then old(tasks) - {id} else old(tasks)
      ensures calls == if ok then old(calls) + [Deleted(id)] else old(calls)
    {
      ok := id in tasks && !tasks[id].state.InFlight?;
      if ok {
        tasks := tasks - {id};
        calls := calls + [Deleted(id)];
      }
    }

    /** Time passes: the scheduler moves tasks along, other runs and the janitor come and go. */
    method Tick(mine: set<string>)
      modifies this`tasks
      ensures Evolves(mine, old(tasks), tasks)
    {
      assert Evolves(mine, tasks, tasks);
      var next: map<string, Task> :| Evolves(mine, tasks, next);
      tasks := next;
    }
  }

  // ---- the set of active runs ----------------------------------------------------------------------

  class ActiveRuns {
    var runs: set<RunId>

    constructor ()
      ensures runs == {}
    {
      runs := {};
    }

    method Mark(r: RunId)
      modifies this
      ensures runs == old(runs) + {r}
    {
      runs := runs + {r};
    }

    method Unmark(r: RunId)
      modifies this
      ensures runs == old(runs) - {r}
    {
      runs := runs - {r};
    }

    method IsProtected(id: string) returns (protected: bool)
      ensures protected <==> exists r :: r in runs && Protects(r, id)
    {
      protected := false;
      var left := runs;
      while left != {}
        invariant left <= runs && !protected
        invariant forall r :: r in runs && r !in left ==> !Protects(r, id)
        decreases left
      {
        var r :| r in left;
        left := left - {r};
        if Protects(r, id) {
          protected := true;
          break;
        }
      }
    }
  }

  /** What one uninterrupted sweep removes. */
  ghost predicate Harvestable(tasks: map<string, Task>, active: set<RunId>, id: string) {
    && id in tasks && IsCollab(id) && !tasks[id].state.InFlight?
    && forall r :: r in active ==> !Protects(r, id)
  }

  /** Everything harvestable goes, nothing else does, and the count says how much went. */
  method SweepStaleTasks(f: Fabric, active: ActiveRuns) returns (removed: nat)
    modifies f`tasks, f`calls
    ensures forall id :: id in f.tasks <==> id in old(f.tasks) && !Harvestable(old(f.tasks), active.runs, id)
    ensures forall id :: id in f.tasks ==> f.tasks[id] == old(f.tasks)[id]
    ensures removed == |old(f.tasks)| - |f.tasks|
  {
    ghost var was := f.tasks;
    removed := 0;
    var left := f.tasks.Keys;
    while left != {}
      invariant left <= f.tasks.Keys <= was.Keys
      invariant forall id :: id in was ==> (id in f.tasks <==> id in left || !Harvestable(was, active.runs, id))
      invariant forall id :: id in f.tasks ==> f.tasks[id] == was[id]
      invariant removed == |was| - |f.tasks|
      decreases left
    {
      var id :| id in left;
      left := left - {id};
      if !IsCollab(id) {
        continue;
      }
      var protected := active.IsProtected(id);
      if protected {
        continue;
      }
      if id in f.tasks && !f.tasks[id].state.InFlight? {
        ghost var before := f.tasks;
        var ok := f.Delete(id);
        if ok {
          assert f.tasks.Keys == before.Keys - {id};
          assert |f.tasks.Keys| == |before.Keys| - 1;
          removed := removed + 1;
        }
      }
    }
  }

  /** With only HTTP runs active a sweep reclaims exactly the tasks, not in flight, of runs
      that are no longer active. */
  lemma HttpResidueHarvested(tasks: map<string, Task>, active: set<RunId>, q: RunId, node: string)
    requires (forall r :: r in active ==> r.HttpRun?) && Submits(q, node) && TaskId(q, node) in tasks
    ensures Harvestable(tasks, active, TaskId(q, node)) <==> q !in active && !tasks[TaskId(q, node)].state.InFlight?
  {
    forall r | r in active
      ensures Protects(r, TaskId(q, node)) <==> q == r
    {
      HttpProtectsExactly(r, q, node);
    }
  }

  // ---- validation --------------------------------------------------------------------------------

  ghost predicate NodesOk(nodes: seq<NodeSpec>) {
    && (forall i :: 0 <= i < |nodes| ==> nodes[i].id != "" && nodes[i].capability != "")
    && (forall i, j :: 0 <= i < j < |nodes| ==> nodes[i].id != nodes[j].id)
  }

  function NodeIds(nodes: seq<NodeSpec>): set<string> {
    set i | 0 <= i < |nodes| :: nodes[i].id
  }

  ghost predicate EdgesOk(ids: set<string>, edges: seq<EdgeSpec>) {
    forall e :: e in edges ==> e.from in ids && e.to in ids
  }

  function FromsOf(edges: seq<EdgeSpec>, to: string): seq<string> {
    if edges == [] then []
    else FromsOf(edges[..|edges| - 1], to) + if edges[|edges| - 1].to == to then [edges[|edges| - 1].from] else []
  }

  ghost predicate DepsOf(edges: seq<EdgeSpec>, deps: Preds) {
    forall v :: PredsOf(deps, v) == FromsOf(edges, v)
  }

  /** What depends on what: the target of an edge on its source, as often as there are such edges. */
  lemma {:induction false} FromsExact(edges: seq<EdgeSpec>, from: string, to: string)
    ensures multiset(FromsOf(edges, to))[from] == multiset(edges)[EdgeSpec(from, to)]
    decreases |edges|
  {
    if edges != [] {
      var front, last := edges[..|edges| - 1], edges[|edges| - 1];
      assert edges == front + [last];
      FromsExact(front, from, to);
      assert last == EdgeSpec(last.from, last.to);
    }
  }

  method CheckNodes(nodes: seq<NodeSpec>) returns (err: Option<SubmitError>, ids: set<string>)
    ensures err.None? <==> NodesOk(nodes)
    ensures err.None? ==> ids == NodeIds(nodes) && "" !in ids
    ensures err.Some? ==> err.value.MissingField? || err.value.DuplicateNode?
    ensures err.Some? && err.value.MissingField? ==>
              exists i :: 0 <= i < |nodes| && (nodes[i].id == "" || nodes[i].capability == "")
    ensures err.Some? && err.value.DuplicateNode? ==>
              exists i, j :: 0 <= i < j < |nodes| && nodes[i].id == nodes[j].id == err.value.id
  {
    ids := {};
    for i := 0 to |nodes|
      invariant NodesOk(nodes[..i]) && ids == NodeIds(nodes[..i]) && "" !in ids
    {
      assert nodes[..i + 1] == nodes[..i] + [nodes[i]];
      var n := nodes[i];
      if n.id == "" || n.capability == "" {
        return Some(MissingField), ids;
      }
      if n.id in ids {
        var j :| 0 <= j < i && nodes[..i][j].id == n.id;
        assert nodes[j].id == nodes[i].id;
        return Some(DuplicateNode(n.id)), ids;
      }
      ids := ids + {n.id};
      assert ids == NodeIds(nodes[..i + 1]) by {
        assert nodes[..i + 1][i] == n;
        assert forall j :: 0 <= j < i ==> nodes[..i + 1][j] == nodes[..i][j];
      }
    }
    assert nodes[..|nodes|] == nodes;
    return None, ids;
  }

  /** One more edge between known nodes. */
  lemma EdgeAdded(ids: set<string>, edges: seq<EdgeSpec>, e: EdgeSpec, deps: Preds)
    requires EdgesOk(ids, edges) && DepsOf(edges, deps) && KnownEndpoints(ids, deps)
    requires e.from in ids && e.to in ids
    ensures var deps' := deps[e.to := PredsOf(deps, e.to) + [e.from]];
            EdgesOk(ids, edges + [e]) && DepsOf(edges + [e], deps') && KnownEndpoints(ids, deps')
  {
    var longer := edges + [e];
    assert longer[..|longer| - 1] == edges;
  }

  method CollectDeps(ids: set<string>, edges: seq<EdgeSpec>) returns (err: Option<SubmitError>, deps: Preds)
    ensures err.None? <==> EdgesOk(ids, edges)
    ensures err.None? ==> DepsOf(edges, deps) && KnownEndpoints(ids, deps)
    ensures err.Some? ==> err.value.UnknownEndpoint? && err.value.edge in edges && !EdgesOk(ids, [err.value.edge])
  {
    deps := map[];
    for i := 0 to |edges|
      invariant EdgesOk(ids, edges[..i]) && DepsOf(edges[..i], deps) && KnownEndpoints(ids, deps)
    {
      var e := edges[i];
      assert edges[..i + 1] == edges[..i] + [e];
      if e.from !in ids || e.to !in ids {
        assert e in [e];
        return Some(UnknownEndpoint(e)), deps;
      }
      EdgeAdded(ids, edges[..i], e, deps);
      deps := deps[e.to := PredsOf(deps, e.to) + [e.from]];
    }
    assert edges[..|edges|] == edges;
    return None, deps;
  }

  ghost predicate Accepted(nodes: seq<NodeSpec>, edges: seq<EdgeSpec>) {
    && NodesOk(nodes) && EdgesOk(NodeIds(nodes), edges)
    && forall deps :: DepsOf(edges, deps) ==> Acyclic(deps)
  }

  lemma DepsDetermineCycles(edges: seq<EdgeSpec>, a: Preds, b: Preds)
    requires DepsOf(edges, a) && DepsOf(edges, b) && Acyclic(a)
    ensures Acyclic(b)
  {
    forall w
      ensures !Cycle(b, w)
    {
      assert !Cycle(a, w);
      if Cycle(b, w) {
        forall i | 0 <= i < |w| - 1
          ensures Hop(a, w, i)
        {
          assert Hop(b, w, i);
        }
      }
    }
  }

  /** A submission is accepted exactly when its nodes are named, distinct and capable, its
      edges join known nodes, and its dependencies are acyclic. */
  method ValidateSubmission(nodes: seq<NodeSpec>, edges: seq<EdgeSpec>) returns (err: Option<SubmitError>)
    ensures err.None? <==> Accepted(nodes, edges)
  {
    var nodeErr, ids := CheckNodes(nodes);
    if nodeErr.Some? {
      return nodeErr;
    }
    var edgeErr, deps := CollectDeps(ids, edges);
    if edgeErr.Some? {
      return edgeErr;
    }
    var cyc := FindCycle(ids, deps);
    if cyc != "" {
      return Some(DependencyCycle(cyc));
    }
    forall other | DepsOf(edges, other)
      ensures Acyclic(other)
    {
      DepsDetermineCycles(edges, deps, other);
    }
    return None;
  }
}
