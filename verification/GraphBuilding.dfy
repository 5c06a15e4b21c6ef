/** What building a graph does to what a run sees: each call, read off the snapshots taken before
    and after it. */
module GraphBuilding {
  import opened Basics
  import opened GraphModel
  import opened GraphBuilder

  /** Nothing changed but, perhaps, the recorded error. */
  ghost predicate SameGraph(s: Snapshot, t: Snapshot) {
    && t.nodes == s.nodes && t.order == s.order
    && (forall v :: Outs(t, v) == Outs(s, v) && Ins(t, v) == Ins(s, v))
    && (forall e :: CondOf(t, e) == CondOf(s, e))
  }

  // ---- edges -----------------------------------------------------------------------------------

  lemma LastEdge(edges: seq<GraphEdge>, e: GraphEdge, v: string, w: string)
    ensures TosOf(edges + [e], v) == TosOf(edges, v) + if e.from == v then [e.to] else []
    ensures FromsOf(edges + [e], v) == FromsOf(edges, v) + if e.to == v then [e.from] else []
    ensures LastCond(edges + [e], v, w) == if Joins(e, v, w) then e.cond else LastCond(edges, v, w)
  {
    assert (edges + [e])[..|edges|] == edges;
  }

  /** `t` is `s` with one more edge, at the end of both lists, and the pair's condition replaced. */
  ghost predicate EdgeAdded(s: Snapshot, t: Snapshot, from: string, to: string, cond: Option<Cond>) {
    && t.nodes == s.nodes && t.order == s.order
    && Outs(t, from) == Outs(s, from) + [to] && (forall v :: v != from ==> Outs(t, v) == Outs(s, v))
    && Ins(t, to) == Ins(s, to) + [from] && (forall v :: v != to ==> Ins(t, v) == Ins(s, v))
    && CondOf(t, (from, to)) == cond && (forall e :: e != (from, to) ==> CondOf(t, e) == CondOf(s, e))
  }

  lemma EdgeAppears(b: Build, from: string, to: string, cond: Option<Cond>, s: Snapshot, t: Snapshot)
    requires SnapshotOf(b, s) && SnapshotOf(b.(edges := b.edges + [GraphEdge(from, to, cond)]), t)
    ensures EdgeAdded(s, t, from, to, cond)
  {
    var added := GraphEdge(from, to, cond);
    forall v
      ensures Outs(t, v) == Outs(s, v) + if from == v then [to] else []
      ensures Ins(t, v) == Ins(s, v) + if to == v then [from] else []
    {
      LastEdge(b.edges, added, v, v);
    }
    forall e: Edge
      ensures CondOf(t, e) == if e == (from, to) then cond else CondOf(s, e)
    {
      LastEdge(b.edges, added, e.0, e.1);
      assert e == (e.0, e.1);
    }
  }

  lemma SameEdges(b: Build, err: Option<BuildError>, s: Snapshot, t: Snapshot)
    requires SnapshotOf(b, s) && SnapshotOf(b.(err := err), t)
    ensures SameGraph(s, t)
  {
    forall e
      ensures CondOf(t, e) == CondOf(s, e)
    {
      assert e == (e.0, e.1);
    }
  }

  /** AddEdge leads from its first argument to its second. Refused are edges beyond the 4096th and
      those with an empty end, and all of them after an error. */
  lemma EdgeIsListed(b: Build, from: string, to: string, cond: Option<Cond>, s: Snapshot, t: Snapshot)
    returns (err: Option<BuildError>)
    requires SnapshotOf(b, s) && SnapshotOf(Apply(b, AddEdge(from, to, cond)), t)
    ensures err == Apply(b, AddEdge(from, to, cond)).err
    ensures err.None? ==> EdgeAdded(s, t, from, to, cond)
    ensures err.Some? ==> SameGraph(s, t)
    ensures err == if b.err.Some? then b.err
                   else if from == "" || to == "" then Some(EmptyEndpoint)
                   else if |b.edges| >= 4096 then Some(EdgeCapExceeded)
                   else None
  {
    err := Apply(b, AddEdge(from, to, cond)).err;
    if err.None? {
      EdgeAppears(b, from, to, cond, s, t);
    } else {
      assert Apply(b, AddEdge(from, to, cond)) == b.(err := err);
      SameEdges(b, err, s, t);
    }
  }

  // ---- nodes -----------------------------------------------------------------------------------

  /** `t` is `s` with one more node, at the end of the order. */
  ghost predicate NodeAdded(s: Snapshot, t: Snapshot, id: string, exec: Exec) {
    && t.order == s.order + [id] && t.nodes.Keys == s.nodes.Keys + {id}
    && Runs(t.nodes[id], exec) && (forall j :: j in s.nodes ==> t.nodes[j] == s.nodes[j])
    && SameGraph(s, t.(nodes := s.nodes, order := s.order))
  }

  /** What a run executes for the given value. */
  ghost predicate Runs(n: Node, exec: Exec) {
    match exec
    case AgentExec(name, submit) => if name == "" then n == NoKind else n == AgentNode(submit)
    case FnExec(fn) => n == FnNode(fn)
    case GraphExec(sub, maxIterations) => n == SubNode(sub, maxIterations)
    case _ => false
  }

  lemma NodeAppears(b: Build, id: string, exec: Exec, s: Snapshot, t: Snapshot)
    requires SnapshotOf(b, s) && SnapshotOf(Added(b, id, exec), t) && Added(b, id, exec).err.None?
    requires b.err.None? && id !in b.nodes
    ensures NodeAdded(s, t, id, exec)
  {
    SameEdges(b, None, s, t.(nodes := s.nodes, order := s.order));
  }

  /** AddNode puts one node of the right kind at the end of the order, and no edge. Refused are
      nodes beyond the 1024th, without a name or with one that is taken, and nil or unsupported
      values, and all of them after an error. */
  lemma NodeIsListed(b: Build, id: string, exec: Exec, s: Snapshot, t: Snapshot) returns (err: Option<BuildError>)
    requires SnapshotOf(b, s) && SnapshotOf(Apply(b, AddNode(id, exec)), t)
    ensures err == Apply(b, AddNode(id, exec)).err
    ensures err.None? ==> NodeAdded(s, t, id, exec)
    ensures err.Some? ==> SameGraph(s, t)
    ensures err == if b.err.Some? then b.err
                   else if id == "" then Some(EmptyNodeId)
                   else if id in s.nodes then Some(DuplicateNode(id))
                   else if |s.nodes| >= 1024 then Some(NodeCapExceeded)
                   else if exec.OtherExec? then Some(UnsupportedKind(id))
                   else if exec.NilAgent? || exec.NilFn? || exec.NilGraph? then Some(NilExec(id))
                   else None
  {
    var b' := Apply(b, AddNode(id, exec));
    err := b'.err;
    if err.None? {
      NodeAppears(b, id, exec, s, t);
    } else {
      assert b' == b.(err := err);
      SameEdges(b, err, s, t);
    }
  }

  // ---- removals ----------------------------------------------------------------------------------

  /** `after` is `before` without its first `x`. */
  ghost predicate FirstGone(before: seq<string>, x: string, after: seq<string>) {
    exists i :: 0 <= i < |before| && before[i] == x && x !in before[..i] && after == before[..i] + before[i + 1..]
  }

  lemma {:induction false} WithoutFirst(s: seq<string>, x: string) returns (i: nat)
    requires x in s
    ensures i < |s| && s[i] == x && x !in s[..i] && Without(s, x) == s[..i] + s[i + 1..]
    decreases |s|
  {
    if s[0] == x {
      i := 0;
    } else {
      var rest := s[1..];
      var k := WithoutFirst(rest, x);
      i := k + 1;
      assert s[..i] == [s[0]] + rest[..k] && s[i + 1..] == rest[k + 1..];
      assert Without(s, x) == [s[0]] + (rest[..k] + rest[k + 1..]) == ([s[0]] + rest[..k]) + rest[k + 1..];
    }
  }

  function Others(ids: seq<string>, x: string): seq<string> {
    if ids == [] then []
    else Others(ids[..|ids| - 1], x) + if ids[|ids| - 1] == x then [] else [ids[|ids| - 1]]
  }

  lemma OthersNext(ids: seq<string>, id: string, x: string)
    ensures Others(ids + [id], x) == Others(ids, x) + if id == x then [] else [id]
  {
    assert (ids + [id])[..|ids|] == ids;
  }

  lemma {:induction false} KeptEdges(edges: seq<GraphEdge>, x: string, v: string, w: string)
    ensures TosOf(Keep(edges, x), v) == if v == x then [] else Others(TosOf(edges, v), x)
    ensures FromsOf(Keep(edges, x), v) == if v == x then [] else Others(FromsOf(edges, v), x)
    ensures LastCond(Keep(edges, x), v, w) == if v == x || w == x then None else LastCond(edges, v, w)
    decreases |edges|
  {
    if edges == [] {
    } else {
      var front, e := edges[..|edges| - 1], edges[|edges| - 1];
      KeptEdges(front, x, v, w);
      assert edges == front + [e];
      LastEdge(front, e, v, w);
      LastEdge(Keep(front, x), e, v, w);
      OthersNext(TosOf(front, v), e.to, x);
      OthersNext(FromsOf(front, v), e.from, x);
    }
  }

  /** `t` is `s` without any edge at `id`. */
  ghost predicate EdgesGone(s: Snapshot, t: Snapshot, id: string) {
    && Outs(t, id) == [] && Ins(t, id) == []
    && (forall v :: v != id ==> Outs(t, v) == Others(Outs(s, v), id))
    && (forall v :: v != id ==> Ins(t, v) == Others(Ins(s, v), id))
    && (forall v, w :: CondOf(t, (v, w)) == if v == id || w == id then None else CondOf(s, (v, w)))
  }

  lemma EdgesDisappear(edges: seq<GraphEdge>, id: string, b: Build, b': Build, s: Snapshot, t: Snapshot)
    requires SnapshotOf(b, s) && SnapshotOf(b', t) && b.edges == edges && b'.edges == Keep(edges, id)
    ensures EdgesGone(s, t, id)
  {
    forall v
      ensures Outs(t, v) == if v == id then [] else Others(Outs(s, v), id)
      ensures Ins(t, v) == if v == id then [] else Others(Ins(s, v), id)
    {
      KeptEdges(edges, id, v, v);
    }
    forall v, w
      ensures CondOf(t, (v, w)) == if v == id || w == id then None else CondOf(s, (v, w))
    {
      KeptEdges(edges, id, v, w);
    }
  }

  /** RemoveNode takes the node out of the order and out of every list of successors and sources,
      and nothing else. */
  lemma NodeIsUnlisted(b: Build, id: string, s: Snapshot, t: Snapshot)
    requires BuildInv(b) && SnapshotOf(b, s) && SnapshotOf(Apply(b, RemoveNode(id)), t) && id in s.nodes
    ensures t.nodes == s.nodes - {id} && FirstGone(s.order, id, t.order) && Lists(t.order, t.nodes.Keys)
    ensures EdgesGone(s, t, id) && Apply(b, RemoveNode(id)).err == b.err
  {
    WithoutLists(b.order, b.nodes.Keys, id);
    assert id in Elements(b.order);
    var i := WithoutFirst(b.order, id);
    EdgesDisappear(b.edges, id, b, Apply(b, RemoveNode(id)), s, t);
  }

  lemma {:induction false} EdgesJoin(a: seq<GraphEdge>, c: seq<GraphEdge>, v: string)
    ensures TosOf(a + c, v) == TosOf(a, v) + TosOf(c, v)
    ensures FromsOf(a + c, v) == FromsOf(a, v) + FromsOf(c, v)
    decreases |c|
  {
    if c == [] {
      assert a + c == a;
    } else {
      var front, e := c[..|c| - 1], c[|c| - 1];
      assert a + c == (a + front) + [e] && c == front + [e];
      EdgesJoin(a, front, v);
      LastEdge(a + front, e, v, v);
      LastEdge(front, e, v, v);
    }
  }

  lemma DropsOne(front: seq<string>, x: string, back: seq<string>)
    requires x !in front
    ensures FirstGone(front + [x] + back, x, front + back)
  {
    var all, i := front + [x] + back, |front|;
    assert all[i] == x && all[..i] == front && all[i + 1..] == back;
  }

  lemma {:induction false} NoneBefore(edges: seq<GraphEdge>, from: string, to: string)
    requires forall j :: 0 <= j < |edges| ==> edges[j].from != from || edges[j].to != to
    ensures to !in TosOf(edges, from) && from !in FromsOf(edges, to) && LastCond(edges, from, to) == None
    decreases |edges|
  {
    if edges != [] {
      NoneBefore(edges[..|edges| - 1], from, to);
    }
  }

  /** One edge out of the middle. */
  lemma EdgeTaken(front: seq<GraphEdge>, e: GraphEdge, back: seq<GraphEdge>, v: string)
    requires forall j :: 0 <= j < |front| ==> front[j].from != e.from || front[j].to != e.to
    ensures v != e.from ==> TosOf(front + [e] + back, v) == TosOf(front + back, v)
    ensures v != e.to ==> FromsOf(front + [e] + back, v) == FromsOf(front + back, v)
    ensures v == e.from ==> FirstGone(TosOf(front + [e] + back, v), e.to, TosOf(front + back, v))
    ensures v == e.to ==> FirstGone(FromsOf(front + [e] + back, v), e.from, FromsOf(front + back, v))
  {
    EdgesJoin(front + [e], back, v);
    EdgesJoin(front, back, v);
    LastEdge(front, e, v, v);
    NoneBefore(front, e.from, e.to);
    if v == e.from {
      DropsOne(TosOf(front, v), e.to, TosOf(back, v));
    }
    if v == e.to {
      DropsOne(FromsOf(front, v), e.from, FromsOf(back, v));
    }
  }

  lemma {:induction false} CondsJoin(a: seq<GraphEdge>, c: seq<GraphEdge>, v: string, w: string)
    ensures LastCond(a + c, v, w) == if w in TosOf(c, v) then LastCond(c, v, w) else LastCond(a, v, w)
    decreases |c|
  {
    if c == [] {
      assert a + c == a;
    } else {
      var front, e := c[..|c| - 1], c[|c| - 1];
      assert a + c == (a + front) + [e] && c == front + [e];
      CondsJoin(a, front, v, w);
      LastEdge(a + front, e, v, w);
      LastEdge(front, e, v, w);
    }
  }

  /** The pair keeps the condition of its last edge while it has one; other pairs keep theirs. */
  lemma CondTaken(front: seq<GraphEdge>, e: GraphEdge, back: seq<GraphEdge>, v: string, w: string)
    requires forall j :: 0 <= j < |front| ==> front[j].from != e.from || front[j].to != e.to
    ensures LastCond(front + back, v, w) ==
            if Joins(e, v, w) && w !in TosOf(front + back, v) then None else LastCond(front + [e] + back, v, w)
  {
    CondsJoin(front, back, v, w);
    CondsJoin(front + [e], back, v, w);
    LastEdge(front, e, v, w);
    EdgesJoin(front, back, v);
    NoneBefore(front, e.from, e.to);
  }

  /** RemoveEdge takes the first entry for the target off the source's successors, and the other way
      round, and nothing else; without such an edge it does nothing. */
  lemma EdgeIsUnlisted(b: Build, from: string, to: string, s: Snapshot, t: Snapshot)
    requires SnapshotOf(b, s) && SnapshotOf(Apply(b, RemoveEdge(from, to)), t)
    ensures t.nodes == s.nodes && t.order == s.order && Apply(b, RemoveEdge(from, to)).err == b.err
    ensures forall v :: v != from ==> Outs(t, v) == Outs(s, v)
    ensures forall v :: v != to ==> Ins(t, v) == Ins(s, v)
    ensures if to !in Outs(s, from) then SameGraph(s, t)
            else FirstGone(Outs(s, from), to, Outs(t, from)) && FirstGone(Ins(s, to), from, Ins(t, to))
    ensures forall v, w :: CondOf(t, (v, w)) ==
                if (v, w) == (from, to) && to !in Outs(t, from) then None else CondOf(s, (v, w))
  {
    var at := DropFirstExact(b.edges, from, to);
    if at == |b.edges| {
      assert Apply(b, RemoveEdge(from, to)) == b.(err := b.err);
      SameEdges(b, b.err, s, t);
      NoneBefore(b.edges, from, to);
    } else {
      var front, e, back := b.edges[..at], b.edges[at], b.edges[at + 1..];
      assert b.edges == front + [e] + back;
      EdgeTaken(front, e, back, from);
      EdgeTaken(front, e, back, to);
      forall v
        ensures v != from ==> Outs(t, v) == Outs(s, v)
        ensures v != to ==> Ins(t, v) == Ins(s, v)
      {
        EdgeTaken(front, e, back, v);
      }
      forall v, w
        ensures CondOf(t, (v, w)) == if (v, w) == (from, to) && to !in Outs(t, from) then None else CondOf(s, (v, w))
      {
        CondTaken(front, e, back, v, w);
      }
      assert Outs(s, from) == TosOf(b.edges, from) && FirstGone(Outs(s, from), to, Outs(t, from));
    }
  }
}
