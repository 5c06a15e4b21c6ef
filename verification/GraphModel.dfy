/** The vocabulary of the graph engine: nodes, snapshots, the bookkeeping of one run,
    and what each engine function does to that bookkeeping, as functions on values. */
module GraphModel {
  import opened Basics
  import opened Digraph

  /** A dynamic value: the engine only ever asks whether it is a string. */
  datatype Value = Text(text: string) | Other(ref: int)

  type State = map<string, Value>
  type Edge = (string, string)
  type Cond = State -> bool

  /** User code is arbitrary: the extra `int` argument stands for everything it may observe
      besides its input, so the same node may answer differently each time it runs. */
  datatype FnResult = FnErr | FnOk(after: State)
  datatype Submission = SubmitErr | SubmitOk(output: Option<string>)

  datatype Node =
    | AgentNode(submit: (string, int) -> Submission)
    | FnNode(fn: (State, int) -> FnResult)
    | SubNode(sub: Snapshot, maxIterations: int)
    | NoKind

  datatype Snapshot = Snapshot(
    nodes: map<string, Node>,
    order: seq<string>,
    outs: map<string, seq<string>>,
    ins: map<string, seq<string>>,
    conds: map<Edge, Option<Cond>>,
    router: Option<(string, State, int) -> string>)

  datatype Run = Run(
    state: State,
    done: set<string>,
    skipped: set<string>,
    failed: set<string>,
    iter: map<string, nat>,
    dead: set<Edge>,
    lastDone: string)

  const DEFAULT_MAX_ITERATIONS := 100

  function OrDefault(v: int): (bound: nat)
    ensures bound >= 1 && (v >= 1 ==> bound == v) && (v < 1 ==> bound == 100)
  {
    if v <= 0 then DEFAULT_MAX_ITERATIONS else v
  }

  function FreshRun(state: State): Run {
    Run(state, {}, {}, {}, map[], {}, "")
  }

  function Ins(snap: Snapshot, id: string): seq<string> {
    PredsOf(snap.ins, id)
  }

  function Outs(snap: Snapshot, id: string): seq<string> {
    PredsOf(snap.outs, id)
  }

  function CondOf(snap: Snapshot, e: Edge): Option<Cond> {
    if e in snap.conds then snap.conds[e] else None
  }

  function IterOf(r: Run, id: string): nat {
    if id in r.iter then r.iter[id] else 0
  }

  /** What every snapshot taken from a builder satisfies: `order` lists the nodes, no id is
      empty, both adjacency maps describe the same edges; nested graphs likewise. Endpoints
      may be unknown: only `ValidateGraph` rules that out, and only at the top level. */
  ghost predicate WellBuilt(snap: Snapshot) {
    && Lists(snap.order, snap.nodes.Keys)
    && "" !in snap.nodes
    && (forall a, b {:trigger a in Ins(snap, b)} {:trigger b in Outs(snap, a)} :: a in Ins(snap, b) <==>
          b in Outs(snap, a))
    && (forall id :: id in snap.nodes && snap.nodes[id].SubNode? ==> WellBuilt(snap.nodes[id].sub))
  }

  /** Every edge endpoint is a node. */
  ghost predicate Closed(snap: Snapshot) {
    forall a, b {:trigger b in Outs(snap, a)} :: b in Outs(snap, a) ==> a in snap.nodes && b in snap.nodes
  }

  // ---- settling and readiness -------------------------------------------------------

  predicate Settled(r: Run, id: string) {
    id in r.done || id in r.skipped || id in r.failed
  }

  ghost predicate Pending(snap: Snapshot, r: Run, id: string) {
    id in snap.order && !Settled(r, id)
  }

  predicate AllDead(snap: Snapshot, dead: set<Edge>, id: string) {
    Ins(snap, id) != [] && forall from | from in Ins(snap, id) :: (from, id) in dead
  }

  function ToSkip(snap: Snapshot, r: Run): set<string> {
    set id | id in snap.order && !Settled(r, id) && AllDead(snap, r.dead, id)
  }

  function SettleSkips(snap: Snapshot, r: Run): Run {
    r.(skipped := r.skipped + ToSkip(snap, r))
  }

  predicate Blocked(snap: Snapshot, r: Run, id: string) {
    exists from | from in Ins(snap, id) :: !Settled(r, from)
  }

  predicate Live(snap: Snapshot, r: Run, id: string) {
    exists from | from in Ins(snap, id) :: (from, id) !in r.dead
  }

  /** The JoinAll rule: unsettled, under the cap, every source settled, and a live edge
      unless the node is a root. */
  predicate Runnable(snap: Snapshot, r: Run, maxIter: nat, id: string) {
    && !Settled(r, id)
    && IterOf(r, id) < maxIter
    && !Blocked(snap, r, id)
    && (Ins(snap, id) == [] || Live(snap, r, id))
  }

  function Select(snap: Snapshot, r: Run, maxIter: nat, ids: seq<string>): (ready: seq<string>)
    ensures forall id :: id in ready <==> id in ids && Runnable(snap, r, maxIter, id)
    ensures NoDup(ids) ==> NoDup(ready)
  {
    if ids == [] then []
    else
      var rest := Select(snap, r, maxIter, ids[..|ids| - 1]);
      var id := ids[|ids| - 1];
      assert ids == ids[..|ids| - 1] + [id];
      if Runnable(snap, r, maxIter, id) then rest + [id] else rest
  }

  function ReadySet(snap: Snapshot, r: Run, maxIter: nat): seq<string> {
    Select(snap, r, maxIter, snap.order)
  }

  predicate CanRun(snap: Snapshot, r: Run, maxIter: nat, id: string) {
    id in snap.nodes && id !in r.skipped && id !in r.failed && IterOf(r, id) < maxIter
  }

  // ---- outgoing edges ---------------------------------------------------------------

  predicate CondFails(snap: Snapshot, state: State, e: Edge) {
    CondOf(snap, e).Some? && !CondOf(snap, e).value(state)
  }

  function NewlyDead(snap: Snapshot, r: Run, id: string): set<Edge> {
    set to | to in Outs(snap, id) && (CondFails(snap, r.state, (id, to)) || id in r.failed || id in r.skipped) ::
        (id, to)
  }

  function EvaluateOutgoing(snap: Snapshot, r: Run, id: string): Run {
    r.(dead := r.dead + NewlyDead(snap, r, id))
  }

  /** An edge that `r`'s state (or its source's failure) kills. */
  ghost predicate Killed(snap: Snapshot, r: Run, e: Edge) {
    e.1 in Outs(snap, e.0) && (CondFails(snap, r.state, e) || e.0 in r.failed || e.0 in r.skipped)
  }

  /** The loop over a round's completions. */
  function FoldOutgoing(snap: Snapshot, r: Run, completions: seq<string>): Run {
    if completions == [] then r
    else EvaluateOutgoing(snap, FoldOutgoing(snap, r, completions[..|completions| - 1]), completions[|completions| - 1])
  }

  /** After the loop the first completion seeds the router. */
  function EvaluateAll(snap: Snapshot, r: Run, completions: seq<string>): Run {
    var r' := FoldOutgoing(snap, r, completions);
    if completions == [] then r' else r'.(lastDone := completions[0])
  }

  lemma OutgoingExact(snap: Snapshot, r: Run, dead: set<Edge>, id: string)
    ensures var r' := EvaluateOutgoing(snap, r.(dead := dead), id);
            r' == r.(dead := r'.dead) && forall e :: e in r'.dead <==> e in dead || (e.0 == id && Killed(snap, r, e))
  {
    forall e
      ensures e in NewlyDead(snap, r.(dead := dead), id) <==> e.0 == id && Killed(snap, r, e)
    {
      assert e == (e.0, e.1);
    }
  }

  /** What the loop leaves behind: only the set of completions matters for the dead edges. */
  lemma {:induction false} FoldOutgoingExact(snap: Snapshot, r: Run, completions: seq<string>)
    ensures var r' := FoldOutgoing(snap, r, completions);
            r' == r.(dead := r'.dead) && forall e :: e in r'.dead <==>
                e in r.dead || (e.0 in completions && Killed(snap, r, e))
    decreases |completions|
  {
    if completions != [] {
      var front := completions[..|completions| - 1];
      var last := completions[|completions| - 1];
      FoldOutgoingExact(snap, r, front);
      OutgoingExact(snap, r, FoldOutgoing(snap, r, front).dead, last);
      assert forall id :: id in completions <==> id in front || id == last by {
        assert completions == front + [last];
      }
    }
  }

  /** Evaluating a round's completions in any two orders kills the same edges. */
  lemma EvaluateAllOrderIndependent(snap: Snapshot, r: Run, xs: seq<string>, ys: seq<string>)
    requires Elements(xs) == Elements(ys)
    ensures EvaluateAll(snap, r, xs).(lastDone := "") == EvaluateAll(snap, r, ys).(lastDone := "")
  {
    FoldOutgoingExact(snap, r, xs);
    FoldOutgoingExact(snap, r, ys);
    assert forall id :: id in xs <==> id in Elements(xs);
    assert forall id :: id in ys <==> id in Elements(ys);
    assert FoldOutgoing(snap, r, xs).dead == FoldOutgoing(snap, r, ys).dead;
  }
}
