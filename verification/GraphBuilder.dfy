/** The mutable graph under construction: nodes, insertion order and an edge buffer that
    removals compact in place, and the snapshot every run executes against. */
module GraphBuilder {
  import opened Basics
  import opened Digraph
  import opened GraphModel

  const MAX_NODES := 1024
  const MAX_EDGES := 4096

  /** The dynamic kinds AddNode distinguishes. A nested graph is represented by the snapshot
      it will run against. */
  datatype Exec =
    | AgentExec(name: string, submit: (string, int) -> Submission) | NilAgent
    | FnExec(fn: (State, int) -> FnResult) | NilFn
    | GraphExec(sub: Snapshot, maxIterations: int) | NilGraph
    | OtherExec

  datatype GraphEdge = GraphEdge(from: string, to: string, cond: Option<Cond>)

  datatype BuildError =
    | EmptyNodeId | DuplicateNode(id: string) | NodeCapExceeded | NilExec(id: string) | UnsupportedKind(id: string)
    | EmptyEndpoint | EdgeCapExceeded

  /** The builder's contents as a value. */
  datatype Build = Build(nodes: map<string, Node>, order: seq<string>, edges: seq<GraphEdge>, err: Option<BuildError>)

  datatype Call =
    | AddNode(id: string, exec: Exec)
    | AddEdge(from: string, to: string, cond: Option<Cond>)
    | RemoveNode(id: string)
    | RemoveEdge(from: string, to: string)

  function Fail(b: Build, e: BuildError): Build {
    b.(err := Some(e))
  }

  function Insert(b: Build, id: string, n: Node): Build {
    b.(nodes := b.nodes[id := n], order := b.order + [id])
  }

  function Added(b: Build, id: string, exec: Exec): Build {
    match exec
    case AgentExec(name, submit) => Insert(b, id, if name != "" then AgentNode(submit) else NoKind)
    case FnExec(fn) => Insert(b, id, FnNode(fn))
    case GraphExec(sub, maxIterations) => Insert(b, id, SubNode(sub, maxIterations))
    case OtherExec => Fail(b, UnsupportedKind(id))
    case _ => Fail(b, NilExec(id))
  }

  predicate Touches(e: GraphEdge, id: string) {
    e.from == id || e.to == id
  }

  /** The edges that do not touch `id`, in order. */
  function Keep(edges: seq<GraphEdge>, id: string): seq<GraphEdge> {
    if edges == [] then []
    else
      var front := Keep(edges[..|edges| - 1], id);
      if Touches(edges[|edges| - 1], id) then front else front + [edges[|edges| - 1]]
  }

  lemma KeepNext(edges: seq<GraphEdge>, i: nat, id: string)
    requires i < |edges|
    ensures Keep(edges[..i + 1], id) == Keep(edges[..i], id) + if Touches(edges[i], id) then [] else [edges[i]]
  {
    assert edges[..i + 1][..i] == edges[..i];
  }

  function Without<T(==)>(s: seq<T>, x: T): seq<T> {
    if s == [] then [] else if s[0] == x then s[1..] else [s[0]] + Without(s[1..], x)
  }

  function DropFirst(edges: seq<GraphEdge>, from: string, to: string): seq<GraphEdge> {
    if edges == [] then []
    else if edges[0].from == from && edges[0].to == to then edges[1..]
    else [edges[0]] + DropFirst(edges[1..], from, to)
  }

  function Apply(b: Build, c: Call): Build {
    match c
    case AddNode(id, exec) =>
      if b.err.Some? then b
      else if id == "" then Fail(b, EmptyNodeId)
      else if id in b.nodes then Fail(b, DuplicateNode(id))
      else if |b.nodes| >= MAX_NODES then Fail(b, NodeCapExceeded)
      else Added(b, id, exec)
    case AddEdge(from, to, cond) =>
      if b.err.Some? then b
      else if from == "" || to == "" then Fail(b, EmptyEndpoint)
      else if |b.edges| >= MAX_EDGES then Fail(b, EdgeCapExceeded)
      else b.(edges := b.edges + [GraphEdge(from, to, cond)])
    case RemoveNode(id) =>
      if id !in b.nodes then b
      else b.(nodes := b.nodes - {id}, order := Without(b.order, id), edges := Keep(b.edges, id))
    case RemoveEdge(from, to) => b.(edges := DropFirst(b.edges, from, to))
  }

  function ApplyAll(b: Build, calls: seq<Call>): Build {
    if calls == [] then b else Apply(ApplyAll(b, calls[..|calls| - 1]), calls[|calls| - 1])
  }

  const EMPTY_BUILD := Build(map[], [], [], None)

  /** Nested graphs handed to the builder come from builders themselves. */
  ghost predicate GoodExec(exec: Exec) {
    exec.GraphExec? ==> WellBuilt(exec.sub)
  }

  ghost predicate BuildInv(b: Build) {
    && Lists(b.order, b.nodes.Keys)
    && "" !in b.nodes
    && |b.nodes| <= MAX_NODES && |b.edges| <= MAX_EDGES
    && (forall id :: id in b.nodes && b.nodes[id].SubNode? ==> WellBuilt(b.nodes[id].sub))
  }

  // ---- what the removals do --------------------------------------------------------------

  lemma {:induction false} WithoutLists(s: seq<string>, whole: set<string>, x: string)
    requires Lists(s, whole)
    ensures Lists(Without(s, x), whole - {x})
    decreases |s|
  {
    if s != [] {
      var rest := s[1..];
      assert s == [s[0]] + rest;
      assert s[0] !in rest;
      assert Elements(rest) == whole - {s[0]};
      WithoutLists(rest, whole - {s[0]}, x);
      if s[0] == x {
        assert whole - {x} == whole - {s[0]};
      } else {
        var tail := Without(rest, x);
        assert Without(s, x) == [s[0]] + tail;
        assert s[0] !in Elements(tail);
        assert Elements([s[0]] + tail) == {s[0]} + Elements(tail);
      }
    }
  }

  /** Removing a node keeps exactly the edges that do not touch it, with their multiplicity. */
  lemma {:induction false} KeepExact(edges: seq<GraphEdge>, id: string)
    ensures |Keep(edges, id)| <= |edges|
    ensures forall e :: multiset(Keep(edges, id))[e] == if Touches(e, id) then 0 else multiset(edges)[e]
    decreases |edges|
  {
    if edges != [] {
      assert edges == edges[..|edges| - 1] + [edges[|edges| - 1]];
      KeepExact(edges[..|edges| - 1], id);
    }
  }

  /** RemoveEdge drops the first matching edge and nothing else. */
  lemma {:induction false} DropFirstExact(edges: seq<GraphEdge>, from: string, to: string) returns (i: nat)
    ensures i <= |edges| && forall j :: 0 <= j < i ==> edges[j].from != from || edges[j].to != to
    ensures if i == |edges| then DropFirst(edges, from, to) == edges
            else edges[i].from == from && edges[i].to == to && DropFirst(edges, from, to) == edges[..i] + edges[i + 1..]
    decreases |edges|
  {
    if edges == [] || (edges[0].from == from && edges[0].to == to) {
      i := 0;
    } else {
      var rest := edges[1..];
      var k := DropFirstExact(rest, from, to);
      i := k + 1;
      assert forall j :: 0 < j < |edges| ==> edges[j] == rest[j - 1];
      assert edges == [edges[0]] + rest;
      assert k < |rest| ==> [edges[0]] + (rest[..k] + rest[k + 1..]) == edges[..i] + edges[i + 1..];
    }
  }

  predicate Joins(e: GraphEdge, from: string, to: string) {
    e.from == from && e.to == to
  }

  ghost predicate NoMatch(edges: seq<GraphEdge>, from: string, to: string, n: nat)
    requires n <= |edges|
  {
    forall j :: 0 <= j < n ==> !Joins(edges[j], from, to)
  }

  /** The first match is what RemoveEdge drops. */
  lemma FirstMatch(edges: seq<GraphEdge>, from: string, to: string, at: nat)
    requires at <= |edges| && NoMatch(edges, from, to, at)
    requires at < |edges| ==> Joins(edges[at], from, to)
    ensures DropFirst(edges, from, to) == if at == |edges| then edges else edges[..at] + edges[at + 1..]
  {
    var i := DropFirstExact(edges, from, to);
    assert i >= at;
    assert i <= at;
  }

  lemma NoMatchNext(edges: seq<GraphEdge>, from: string, to: string, n: nat)
    requires n < |edges| && NoMatch(edges, from, to, n) && !Joins(edges[n], from, to)
    ensures NoMatch(edges, from, to, n + 1)
  {
  }

  lemma ListsPush(s: seq<string>, whole: set<string>, x: string)
    requires Lists(s, whole) && x !in whole
    ensures Lists(s + [x], whole + {x})
  {
    assert x !in Elements(s);
    assert Elements(s + [x]) == Elements(s) + {x};
  }

  lemma InsertKeepsInv(b: Build, id: string, n: Node)
    requires BuildInv(b) && id !in b.nodes && id != "" && |b.nodes| < MAX_NODES
    requires n.SubNode? ==> WellBuilt(n.sub)
    ensures BuildInv(Insert(b, id, n))
  {
    var nodes := b.nodes[id := n];
    assert nodes.Keys == b.nodes.Keys + {id};
    assert Lists(b.order + [id], nodes.Keys) by {
      ListsPush(b.order, b.nodes.Keys, id);
    }
  }

  lemma AddedKeepsInv(b: Build, id: string, exec: Exec)
    requires BuildInv(b) && GoodExec(exec) && id !in b.nodes && id != "" && |b.nodes| < MAX_NODES
    ensures BuildInv(Added(b, id, exec))
  {
    match exec
    case AgentExec(name, submit) => InsertKeepsInv(b, id, if name != "" then AgentNode(submit) else NoKind);
    case FnExec(fn) => InsertKeepsInv(b, id, FnNode(fn));
    case GraphExec(sub, maxIterations) => InsertKeepsInv(b, id, SubNode(sub, maxIterations));
    case _ =>
  }

  lemma RemoveNodeKeepsInv(b: Build, id: string)
    requires BuildInv(b) && id in b.nodes
    ensures BuildInv(Apply(b, RemoveNode(id)))
  {
    WithoutLists(b.order, b.nodes.Keys, id);
    KeepExact(b.edges, id);
    assert (b.nodes - {id}).Keys == b.nodes.Keys - {id};
    SubsetSize(b.nodes.Keys - {id}, b.nodes.Keys);
  }

  /** One call keeps the invariant, and never replaces a recorded error. */
  lemma CallKeepsInv(b: Build, c: Call)
    requires BuildInv(b) && (c.AddNode? ==> GoodExec(c.exec))
    ensures BuildInv(Apply(b, c))
    ensures b.err.Some? ==> Apply(b, c).err == b.err
  {
    match c
    case AddNode(id, exec) =>
      if b.err.None? && id != "" && id !in b.nodes && |b.nodes| < MAX_NODES {
        AddedKeepsInv(b, id, exec);
      }
    case AddEdge(_, _, _) =>
    case RemoveNode(id) =>
      if id in b.nodes {
        RemoveNodeKeepsInv(b, id);
      }
    case RemoveEdge(from, to) =>
      var i := DropFirstExact(b.edges, from, to);
  }

  /** Whatever sequence of calls built the graph: `order` lists the nodes without duplicates,
      the caps hold, and the first error recorded is the one that stays. */
  lemma {:induction false} BuilderInvariant(calls: seq<Call>, n: nat)
    requires n <= |calls|
    requires forall c :: c in calls && c.AddNode? ==> GoodExec(c.exec)
    ensures BuildInv(ApplyAll(EMPTY_BUILD, calls))
    ensures ApplyAll(EMPTY_BUILD, calls[..n]).err.Some? ==>
              ApplyAll(EMPTY_BUILD, calls).err == ApplyAll(EMPTY_BUILD, calls[..n]).err
    decreases |calls|
  {
    if calls == [] {
      assert Elements(EMPTY_BUILD.order) == EMPTY_BUILD.nodes.Keys;
    } else {
      var front := calls[..|calls| - 1];
      if n < |calls| {
        BuilderInvariant(front, n);
        assert front[..n] == calls[..n];
      } else {
        BuilderInvariant(front, 0);
        assert calls[..n] == calls;
      }
      CallKeepsInv(ApplyAll(EMPTY_BUILD, front), calls[|calls| - 1]);
    }
  }

  // ---- what a snapshot records -------------------------------------------------------------

  function TosOf(edges: seq<GraphEdge>, from: string): seq<string> {
    if edges == [] then []
    else
      var front, e := TosOf(edges[..|edges| - 1], from), edges[|edges| - 1];
      if e.from == from then front + [e.to] else front
  }

  function FromsOf(edges: seq<GraphEdge>, to: string): seq<string> {
    if edges == [] then []
    else
      var front, e := FromsOf(edges[..|edges| - 1], to), edges[|edges| - 1];
      if e.to == to then front + [e.from] else front
  }

  /** The condition of the last-added edge between the pair. */
  function LastCond(edges: seq<GraphEdge>, from: string, to: string): Option<Cond> {
    if edges == [] then None
    else if edges[|edges| - 1].from == from && edges[|edges| - 1].to == to then edges[|edges| - 1].cond
    else LastCond(edges[..|edges| - 1], from, to)
  }

  function CountEdges(edges: seq<GraphEdge>, from: string, to: string): nat {
    if edges == [] then 0
    else CountEdges(edges[..|edges| - 1], from, to) + if Joins(edges[|edges| - 1], from, to) then 1 else 0
  }

  /** Both adjacency lists carry each edge exactly as often as it was added. */
  lemma {:induction false} AdjacencyAgrees(edges: seq<GraphEdge>, from: string, to: string)
    ensures multiset(TosOf(edges, from))[to] == CountEdges(edges, from, to) == multiset(FromsOf(edges, to))[from]
    decreases |edges|
  {
    if edges != [] {
      AdjacencyAgrees(edges[..|edges| - 1], from, to);
    }
  }

  /** A snapshot of a build. */
  ghost predicate SnapshotOf(b: Build, snap: Snapshot) {
    && snap.nodes == b.nodes && snap.order == b.order
    && (forall v :: v in snap.outs ==> snap.outs[v] != [])
    && (forall v :: Outs(snap, v) == TosOf(b.edges, v))
    && (forall v :: Ins(snap, v) == FromsOf(b.edges, v))
    && (forall v, w :: CondOf(snap, (v, w)) == LastCond(b.edges, v, w))
  }

  lemma SnapshotWellBuilt(b: Build, snap: Snapshot)
    requires BuildInv(b) && SnapshotOf(b, snap)
    ensures WellBuilt(snap)
  {
    forall v, w
      ensures v in Ins(snap, w) <==> w in Outs(snap, v)
    {
      AdjacencyAgrees(b.edges, v, w);
      assert v in Ins(snap, w) <==> multiset(Ins(snap, w))[v] > 0;
      assert w in Outs(snap, v) <==> multiset(Outs(snap, v))[w] > 0;
    }
  }

  /** The maps that listing these edges one after the other fills. */
  ghost predicate Listed(edges: seq<GraphEdge>, outs: map<string, seq<string>>, ins: map<string, seq<string>>,
                         conds: map<Edge, Option<Cond>>)
  {
    && (forall v :: v in outs ==> outs[v] != [])
    && (forall v :: PredsOf(outs, v) == TosOf(edges, v))
    && (forall v :: PredsOf(ins, v) == FromsOf(edges, v))
    && (forall v, w :: (if (v, w) in conds then conds[(v, w)] else None) == LastCond(edges, v, w))
  }

  lemma ListEdge(edges: seq<GraphEdge>, e: GraphEdge, outs: map<string, seq<string>>, ins: map<string, seq<string>>,
                 conds: map<Edge, Option<Cond>>)
    requires Listed(edges, outs, ins, conds)
    ensures Listed(edges + [e], outs[e.from := PredsOf(outs, e.from) + [e.to]],
              ins[e.to := PredsOf(ins, e.to) + [e.from]],
                   conds[(e.from, e.to) := e.cond])
  {
    var longer := edges + [e];
    assert longer[..|edges|] == edges && longer[|edges|] == e;
    var outs', ins' := outs[e.from := PredsOf(outs, e.from) + [e.to]], ins[e.to := PredsOf(ins, e.to) + [e.from]];
    var conds' := conds[(e.from, e.to) := e.cond];
    forall v
      ensures PredsOf(outs', v) == TosOf(longer, v) && PredsOf(ins', v) == FromsOf(longer, v)
    {
      assert PredsOf(outs, v) == TosOf(edges, v) && PredsOf(ins, v) == FromsOf(edges, v);
    }
    forall v, w
      ensures (if (v, w) in conds' then conds'[(v, w)] else None) == LastCond(longer, v, w)
    {
      assert (v, w) == (e.from, e.to) <==> v == e.from && w == e.to;
    }
  }

  /** Only edges put keys in the outgoing map, so closed edges keep it within the nodes. */
  lemma ClosedSources(b: Build, snap: Snapshot)
    requires SnapshotOf(b, snap) && Closed(snap)
    ensures snap.outs.Keys <= snap.nodes.Keys
  {
    forall v | v in snap.outs
      ensures v in snap.nodes
    {
      assert snap.outs[v][0] in Outs(snap, v);
    }
  }

  // ---- the class ---------------------------------------------------------------------------

  class Graph {
    var nodes: map<string, Node>
    var order: seq<string>
    var edges: array<GraphEdge>
    var numEdges: nat
    var router: Option<(string, State, int) -> string>
    var maxIterations: int
    var buildErr: Option<BuildError>

    constructor ()
      ensures Valid() && fresh(edges) && Contents() == EMPTY_BUILD && router == None
    {
      nodes, order, numEdges := map[], [], 0;
      edges := new GraphEdge[0](_ => GraphEdge("", "", None));
      router, maxIterations, buildErr := None, 0, None;
      new;
      assert Elements(order) == nodes.Keys;
    }

    function Contents(): Build
      requires numEdges <= edges.Length
      reads this, edges
    {
      Build(nodes, order, edges[..numEdges], buildErr)
    }

    ghost predicate Valid()
      reads this, edges
    {
      numEdges <= edges.Length && BuildInv(Contents())
    }

    method AddNode(id: string, exec: Exec)
      requires Valid() && GoodExec(exec)
      modifies this
      ensures Valid() && edges == old(edges) && router == old(router) && maxIterations == old(maxIterations)
      ensures Contents() == Apply(old(Contents()), Call.AddNode(id, exec))
    {
      CallKeepsInv(Contents(), Call.AddNode(id, exec));
      if buildErr.Some? {
        return;
      }
      if id == "" {
        buildErr := Some(EmptyNodeId);
        return;
      }
      if id in nodes {
        buildErr := Some(DuplicateNode(id));
        return;
      }
      if |nodes| >= MAX_NODES {
        buildErr := Some(NodeCapExceeded);
        return;
      }
      var n := NoKind;
      match exec {
        case AgentExec(name, submit) =>
          if name != "" {
            n := AgentNode(submit);
          }
        case FnExec(fn) =>
          n := FnNode(fn);
        case GraphExec(sub, maxIter) =>
          n := SubNode(sub, maxIter);
        case OtherExec =>
          buildErr := Some(UnsupportedKind(id));
          return;
        case _ =>
          buildErr := Some(NilExec(id));
          return;
      }
      nodes := nodes[id := n];
      order := order + [id];
    }

    method AddEdge(from: string, to: string, cond: Option<Cond>)
      requires Valid()
      modifies this, edges
      ensures Valid() && (edges == old(edges) || fresh(edges)) && router == old(router)
      ensures maxIterations == old(maxIterations)
      ensures Contents() == Apply(old(Contents()), Call.AddEdge(from, to, cond))
    {
      CallKeepsInv(Contents(), Call.AddEdge(from, to, cond));
      if buildErr.Some? {
        return;
      }
      if from == "" || to == "" {
        buildErr := Some(EmptyEndpoint);
        return;
      }
      if numEdges >= MAX_EDGES {
        buildErr := Some(EdgeCapExceeded);
        return;
      }
      if numEdges == edges.Length {
        Grow();
      }
      edges[numEdges] := GraphEdge(from, to, cond);
      numEdges := numEdges + 1;
    }

    /** What append does when the buffer is full: move to a larger one. */
    method Grow()
      requires numEdges <= edges.Length
      modifies this`edges
      ensures fresh(edges) && numEdges < edges.Length && Contents() == old(Contents())
    {
      var bigger := new GraphEdge[2 * edges.Length + 1](_ => GraphEdge("", "", None));
      for i := 0 to numEdges
        invariant edges == old(edges) && bigger[..i] == edges[..i]
      {
        bigger[i] := edges[i];
      }
      edges := bigger;
    }

    method RemoveNode(id: string)
      requires Valid()
      modifies this, edges
      ensures Valid() && edges == old(edges) && router == old(router) && maxIterations == old(maxIterations)
      ensures Contents() == Apply(old(Contents()), Call.RemoveNode(id))
    {
      CallKeepsInv(Contents(), Call.RemoveNode(id));
      if id !in nodes {
        return;
      }
      nodes := nodes - {id};
      RemoveFromOrder(id);
      CompactEdges(id);
    }

    /** Splice the id out of the insertion order. */
    method RemoveFromOrder(id: string)
      modifies this`order
      ensures order == Without(old(order), id)
    {
      for i := 0 to |order|
        invariant order == old(order) && id !in order[..i]
        invariant Without(order, id) == order[..i] + Without(order[i..], id)
      {
        if order[i] == id {
          order := order[..i] + order[i + 1..];
          return;
        }
        assert order[i..] == [order[i]] + order[i + 1..];
        assert order[..i] + [order[i]] == order[..i + 1];
      }
      assert order[|order|..] == [] && order[..|order|] == order;
    }

    /** The edges that stay are written over the front of the same buffer they are read from. */
    method CompactEdges(id: string)
      requires numEdges <= edges.Length
      modifies this`numEdges, edges
      ensures numEdges <= edges.Length && edges[..numEdges] == Keep(old(edges[..numEdges]), id)
    {
      ghost var was := edges[..numEdges];
      var kept := 0;
      for i := 0 to numEdges
        invariant numEdges == old(numEdges) && kept <= i && edges[..kept] == Keep(was[..i], id)
        invariant edges[i..numEdges] == was[i..]
      {
        var e := edges[i];
        assert e == edges[i..numEdges][0] == was[i..][0] == was[i];
        assert edges[i + 1..numEdges] == edges[i..numEdges][1..] == was[i + 1..];
        KeepNext(was, i, id);
        if e.from != id && e.to != id {
          edges[kept] := e;
          kept := kept + 1;
          assert edges[..kept] == edges[..kept - 1] + [e];
        }
      }
      assert was[..numEdges] == was;
      numEdges := kept;
    }

    method RemoveEdge(from: string, to: string)
      requires Valid()
      modifies this, edges
      ensures Valid() && edges == old(edges) && router == old(router) && maxIterations == old(maxIterations)
      ensures Contents() == Apply(old(Contents()), Call.RemoveEdge(from, to))
    {
      CallKeepsInv(Contents(), Call.RemoveEdge(from, to));
      var at := FindEdge(from, to);
      if at < numEdges {
        ShiftLeft(at);
      }
    }

    /** The search loop of RemoveEdge: the position it stops at, or the end. */
    method FindEdge(from: string, to: string) returns (at: nat)
      requires numEdges <= edges.Length
      ensures at <= numEdges
      ensures var was := edges[..numEdges];
              DropFirst(was, from, to) == if at == numEdges then was else was[..at] + was[at + 1..]
    {
      ghost var was := edges[..numEdges];
      at := numEdges;
      for i := 0 to numEdges
        invariant at == |was| && NoMatch(was, from, to, i)
      {
        var e := edges[i];
        assert e == was[i];
        if e.from == from && e.to == to {
          at := i;
          break;
        }
        NoMatchNext(was, from, to, i);
      }
      FirstMatch(was, from, to, at);
    }

    /** append(edges[:i], edges[i+1:]...): the tail moves one place to the left. */
    method ShiftLeft(i: nat)
      requires i < numEdges <= edges.Length
      modifies this`numEdges, edges
      ensures numEdges == old(numEdges) - 1 && edges[..numEdges] == old(edges[..i] + edges[i + 1..numEdges])
    {
      ghost var was := edges[..numEdges];
      for k := i to numEdges - 1
        invariant numEdges == old(numEdges) && edges[..k] == was[..i] + was[i + 1..k + 1]
        invariant edges[k + 1..numEdges] == was[k + 1..]
      {
        assert edges[k + 1] == was[k + 1];
        edges[k] := edges[k + 1];
      }
      numEdges := numEdges - 1;
    }

    method SetRouter(fn: Option<(string, State, int) -> string>)
      requires Valid()
      modifies this`router
      ensures Valid() && router == fn && Contents() == old(Contents())
    {
      router := fn;
    }

    /** The immutable view a run executes against. */
    method TakeSnapshot() returns (snap: Snapshot)
      requires Valid()
      ensures SnapshotOf(Contents(), snap) && WellBuilt(snap) && snap.router == router
    {
      var outs: map<string, seq<string>> := map[];
      var ins: map<string, seq<string>> := map[];
      var conds: map<Edge, Option<Cond>> := map[];
      ghost var listed := edges[..numEdges];
      for i := 0 to numEdges
        invariant Listed(listed[..i], outs, ins, conds)
      {
        var e := edges[i];
        assert listed[..i + 1] == listed[..i] + [e];
        ListEdge(listed[..i], e, outs, ins, conds);
        outs := outs[e.from := PredsOf(outs, e.from) + [e.to]];
        ins := ins[e.to := PredsOf(ins, e.to) + [e.from]];
        conds := conds[(e.from, e.to) := e.cond];
      }
      assert listed[..numEdges] == listed;
      snap := Snapshot(nodes, order, outs, ins, conds, router);
      SnapshotWellBuilt(Contents(), snap);
    }
  }
}
