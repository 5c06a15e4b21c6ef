/** Running a built graph: snapshot, validation, rounds. */
module GraphApi {
  import opened Basics
  import opened Digraph
  import opened GraphModel
  import opened GraphRuns
  import opened GraphNesting
  import opened GraphEngine
  import opened GraphBuilder

  datatype ValidationError = NoNodes | UnknownSource(id: string) | UnknownTarget(id: string)

  datatype Report =
    | NilGraph
    | BuildFailed(build: BuildError)
    | Invalid(validation: ValidationError)
    | Ran(final: Run, err: Option<Error>)

  /** Sources are visited in map order, so which unknown endpoint is named is arbitrary. */
  method ValidateGraph(snap: Snapshot) returns (err: Option<ValidationError>)
    ensures err.None? <==> snap.nodes != map[] && Closed(snap) && snap.outs.Keys <= snap.nodes.Keys
    ensures err == Some(NoNodes) <==> |snap.nodes| == 0
    ensures err.Some? && err.value.UnknownSource? ==> err.value.id in snap.outs && err.value.id !in snap.nodes
    ensures err.Some? && err.value.UnknownTarget? ==>
              err.value.id !in snap.nodes && exists v :: v in snap.nodes && err.value.id in Outs(snap, v)
  {
    if |snap.nodes| == 0 {
      return Some(NoNodes);
    }
    var left := snap.outs.Keys;
    while left != {}
      invariant left <= snap.outs.Keys
      invariant forall v :: v in snap.outs && v !in left ==> v in snap.nodes && forall w :: w in Outs(snap, v) ==>
                w in snap.nodes
      decreases left
    {
      var from :| from in left;
      left := left - {from};
      if from !in snap.nodes {
        return Some(UnknownSource(from));
      }
      var tos := snap.outs[from];
      for i := 0 to |tos|
        invariant forall k :: 0 <= k < i ==> tos[k] in snap.nodes
      {
        if tos[i] !in snap.nodes {
          assert tos[i] in Outs(snap, from);
          return Some(UnknownTarget(tos[i]));
        }
      }
    }
    return None;
  }

  /** A run starts exactly from an error-free build with nodes whose edges join them; on an
      acyclic graph a run that ends without error has every node done or skipped, and never a
      failed one; on any graph without a router it leaves exactly the stuck nodes. */
  method RunGraph(g: Graph?) returns (report: Report, ghost snap: Snapshot)
    requires g != null ==> g.Valid()
    ensures report.NilGraph? <==> g == null
    ensures g != null ==> SnapshotOf(g.Contents(), snap) && WellBuilt(snap) && snap.router == g.router
    ensures g != null ==> (report.BuildFailed? <==> g.buildErr.Some?)
    ensures report.BuildFailed? ==> Some(report.build) == g.buildErr
    ensures report.Ran? <==> g != null && g.buildErr.None? && Closed(snap) && snap.nodes != map[]
    ensures report.Ran? ==> exists cs ::
              Returns(snap, OrDefault(g.maxIterations), map[], cs, report.final, report.err)
              && Genuine(false, snap, OrDefault(g.maxIterations), map[], cs)
    ensures report.Ran? && report.err.None? && Acyclic(snap.ins) ==>
              report.final.done + report.final.skipped == g.nodes.Keys
              && report.final.done !! report.final.skipped && report.final.failed == {}
    ensures report.Ran? && report.err.None? && g.router.None? ==>
              forall id :: Pending(snap, report.final, id) <==> id in snap.nodes && Stuck(snap, id)
  {
    if g == null {
      snap := Snapshot(map[], [], map[], map[], map[], None);
      return Report.NilGraph, snap;
    }
    var taken := g.TakeSnapshot();
    snap := taken;
    if g.buildErr.Some? {
      return BuildFailed(g.buildErr.value), snap;
    }
    var invalid := ValidateGraph(taken);
    if invalid.Some? {
      if Closed(snap) {
        ClosedSources(g.Contents(), snap);
      }
      return Invalid(invalid.value), snap;
    }
    var run := new GraphRun(map[]);
    var bound := OrDefault(g.maxIterations);
    var err, cs := run.RunGraphRounds(taken, bound);
    report := Ran(run.Model(), err);
    if err.None? && Acyclic(snap.ins) {
      AcyclicRunCompletes(snap, bound, map[], cs, report.final);
    }
    if err.None? {
      ExactlyStuckPending(snap, bound, map[], cs, report.final);
    }
  }
}
