/** The wait loop: one array of pending nodes, filtered in place on every scan, and the whole
    run around it. The ghost log records every task state the loop ever looked at. */
module CollabWait {
  import opened Basics
  import opened CollabIds
  import opened Janitor
  import opened CollabRun

  datatype Observation = Saw(node: string, state: TaskState, output: string)

  datatype WaitError = ReadFailed(node: string) | NodesFailed(names: seq<string>) | TimedOut | Canceled

  predicate Settles(o: Observation) {
    o.state.Completed? || o.state.Failed?
  }

  /** What the log says: the outputs collected, the nodes seen failed, the nodes seen unsettled. */
  function OutputsIn(log: seq<Observation>): map<string, string> {
    if log == [] then map[]
    else
      var o := log[|log| - 1];
      var before := OutputsIn(log[..|log| - 1]);
      if Settles(o) then before[o.node := o.output] else before
  }

  function FailedIn(log: seq<Observation>): seq<string> {
    if log == [] then []
    else
      var o := log[|log| - 1];
      FailedIn(log[..|log| - 1]) + if o.state.Failed? then [o.node] else []
  }

  predicate SawCompleted(log: seq<Observation>) {
    exists i :: 0 <= i < |log| && log[i].state.Completed?
  }

  function UnsettledIn(log: seq<Observation>): seq<string> {
    if log == [] then []
    else
      var o := log[|log| - 1];
      UnsettledIn(log[..|log| - 1]) + if Settles(o) then [] else [o.node]
  }

  function Nodes(log: seq<Observation>): set<string> {
    set i | 0 <= i < |log| :: log[i].node
  }

  ghost predicate Distinct(log: seq<Observation>) {
    forall i, j :: 0 <= i < j < |log| ==> log[i].node != log[j].node
  }

  // ---- the log as a whole ------------------------------------------------------------------------

  /** The three readings of a log, one observation at a time. */
  lemma LogNext(log: seq<Observation>, o: Observation)
    ensures OutputsIn(log + [o]) == if Settles(o) then OutputsIn(log)[o.node := o.output] else OutputsIn(log)
    ensures FailedIn(log + [o]) == FailedIn(log) + if o.state.Failed? then [o.node] else []
    ensures UnsettledIn(log + [o]) == UnsettledIn(log) + if Settles(o) then [] else [o.node]
  {
    assert (log + [o])[..|log + [o]| - 1] == log;
  }

  lemma {:induction false} OutputsJoin(a: seq<Observation>, b: seq<Observation>)
    ensures OutputsIn(a + b) == OutputsIn(a) + OutputsIn(b)
    decreases |b|
  {
    if b == [] {
      assert a + b == a;
    } else {
      var front := b[..|b| - 1];
      assert (a + b)[..|a + b| - 1] == a + front;
      OutputsJoin(a, front);
    }
  }

  lemma {:induction false} FailedJoin(a: seq<Observation>, b: seq<Observation>)
    ensures FailedIn(a + b) == FailedIn(a) + FailedIn(b)
    decreases |b|
  {
    if b == [] {
      assert a + b == a;
    } else {
      var front := b[..|b| - 1];
      assert (a + b)[..|a + b| - 1] == a + front;
      FailedJoin(a, front);
    }
  }

  /** Failures are exactly the nodes some observation saw failed. */
  lemma {:induction false} FailedExact(log: seq<Observation>)
    ensures forall n :: n in FailedIn(log) <==> exists i :: 0 <= i < |log| && log[i].node == n && log[i].state.Failed?
    decreases |log|
  {
    if log != [] {
      var front, last := log[..|log| - 1], log[|log| - 1];
      FailedExact(front);
      assert forall i :: 0 <= i < |front| ==> front[i] == log[i];
      forall n
        ensures n in FailedIn(log) <==> exists i :: 0 <= i < |log| && log[i].node == n && log[i].state.Failed?
      {
        if n in FailedIn(front) {
          var i :| 0 <= i < |front| && front[i].node == n && front[i].state.Failed?;
          assert log[i].node == n;
        }
      }
    }
  }

  /** One scan splits the nodes it looked at: settled ones have outputs, the others remain. */
  lemma {:induction false} ScanSplits(log: seq<Observation>)
    requires Distinct(log)
    ensures OutputsIn(log).Keys !! Elements(UnsettledIn(log))
    ensures OutputsIn(log).Keys + Elements(UnsettledIn(log)) == Nodes(log)
    decreases |log|
  {
    if log != [] {
      var front, last := log[..|log| - 1], log[|log| - 1];
      ScanSplits(front);
      NodesNext(front, last);
      assert log == front + [last];
      if Settles(last) {
        assert OutputsIn(log).Keys == OutputsIn(front).Keys + {last.node};
      } else {
        assert Elements(UnsettledIn(log)) == Elements(UnsettledIn(front)) + {last.node};
      }
    }
  }

  lemma NodesNext(log: seq<Observation>, o: Observation)
    ensures Nodes(log + [o]) == Nodes(log) + {o.node}
    ensures Distinct(log + [o]) ==> Distinct(log) && o.node !in Nodes(log)
  {
    var longer := log + [o];
    assert longer[|log|] == o && forall i :: 0 <= i < |log| ==> longer[i] == log[i];
    forall n | n in Nodes(log) + {o.node}
      ensures n in Nodes(longer)
    {
      if n != o.node {
        var i :| 0 <= i < |log| && log[i].node == n;
        assert longer[i].node == n;
      } else {
        assert longer[|log|].node == n;
      }
    }
  }

  lemma {:induction false} UnsettledDistinct(log: seq<Observation>)
    requires Distinct(log)
    ensures NoDup(UnsettledIn(log)) && Elements(UnsettledIn(log)) <= Nodes(log)
    decreases |log|
  {
    if log != [] {
      var front, last := log[..|log| - 1], log[|log| - 1];
      assert log == front + [last];
      NodesNext(front, last);
      UnsettledDistinct(front);
    }
  }

  /** What a scan drops from the pending list is counted. */
  lemma {:induction false} ScanShrinks(log: seq<Observation>)
    ensures |UnsettledIn(log)| <= |log|
    ensures |UnsettledIn(log)| == |log| <==> forall i :: 0 <= i < |log| ==> !Settles(log[i])
    decreases |log|
  {
    if log != [] {
      var front, last := log[..|log| - 1], log[|log| - 1];
      ScanShrinks(front);
      LogNext(front, last);
      assert log == front + [last];
    }
  }

  /** Every output collected was seen on a settled task. */
  lemma {:induction false} OutputsSeen(log: seq<Observation>, n: string) returns (i: nat)
    requires n in OutputsIn(log)
    ensures i < |log| && Settles(log[i]) && log[i].node == n && log[i].output == OutputsIn(log)[n]
    decreases |log|
  {
    var front, last := log[..|log| - 1], log[|log| - 1];
    LogNext(front, last);
    assert log == front + [last];
    if Settles(last) && last.node == n {
      i := |log| - 1;
    } else {
      i := OutputsSeen(front, n);
    }
  }

  // ---- the log as a sequence of scans --------------------------------------------------------------

  /** The log reads the first of the nodes `names`, in their order. */
  ghost predicate ReadsInOrder(log: seq<Observation>, names: seq<string>) {
    |log| <= |names| && forall i :: 0 <= i < |log| ==> log[i].node == names[i]
  }

  /** The log reads the nodes `names`, in their order. */
  ghost predicate ReadsAll(log: seq<Observation>, names: seq<string>) {
    |log| == |names| && ReadsInOrder(log, names)
  }

  function TaskOf(taskIds: map<string, string>, node: string): string {
    if node in taskIds then taskIds[node] else ""
  }

  /** The lookups that a log stands for. */
  function LookupsOf(log: seq<Observation>, taskIds: map<string, string>): seq<Lookup> {
    if log == [] then []
    else
      var o := log[|log| - 1];
      LookupsOf(log[..|log| - 1], taskIds) + [Lookup(TaskOf(taskIds, o.node), Some(Task(o.state, o.output)))]
  }

  function Joined(scans: seq<seq<Observation>>): seq<Observation> {
    if scans == [] then [] else Joined(scans[..|scans| - 1]) + scans[|scans| - 1]
  }

  /** The nodes left to read: all of them at first, then those the last scan saw unsettled. */
  function LeftAfter(ids: seq<string>, scans: seq<seq<Observation>>): seq<string> {
    if scans == [] then ids else UnsettledIn(scans[|scans| - 1])
  }

  /** Every scan reads exactly the nodes left, in order, and only the last may see a failure. */
  ghost predicate FullScans(ids: seq<string>, scans: seq<seq<Observation>>) {
    if scans == [] then true
    else
      var front := scans[..|scans| - 1];
      && FullScans(ids, front) && ReadsAll(scans[|scans| - 1], LeftAfter(ids, front))
      && (front != [] ==> FailedIn(front[|front| - 1]) == [])
  }

  /** The log ends in a scan of exactly the nodes without an output, at least one, and none of them
      was completed or failed. */
  ghost predicate EndsQuiet(ids: seq<string>, scans: seq<seq<Observation>>, outputs: map<string, string>) {
    && scans != [] && FullScans(ids, scans)
    && var log := scans[|scans| - 1];
       && log != [] && (forall i :: 0 <= i < |log| ==> !Settles(log[i]))
       && Nodes(log) == Elements(ids) - outputs.Keys
       && Nodes(Joined(scans)) == Elements(ids)
  }

  /** A task that was completed or failed in `before` is seen so. */
  ghost predicate Attentive(log: seq<Observation>, before: map<string, Task>, taskIds: map<string, string>) {
    forall i :: 0 <= i < |log| && Over(before, TaskOf(taskIds, log[i].node)) ==> Settles(log[i])
  }

  predicate Over(tasks: map<string, Task>, id: string) {
    id in tasks && (tasks[id].state.Completed? || tasks[id].state.Failed?)
  }

  lemma LookupsNext(asked: seq<Lookup>, log: seq<Observation>, o: Observation, taskIds: map<string, string>)
    ensures asked + LookupsOf(log, taskIds) + [Lookup(TaskOf(taskIds, o.node), Some(Task(o.state, o.output)))] ==
              asked + LookupsOf(log + [o], taskIds)
  {
    assert (log + [o])[..|log + [o]| - 1] == log;
  }

  lemma {:induction false} LookupsJoin(a: seq<Observation>, b: seq<Observation>, taskIds: map<string, string>)
    ensures LookupsOf(a + b, taskIds) == LookupsOf(a, taskIds) + LookupsOf(b, taskIds)
    decreases |b|
  {
    if b == [] {
      assert a + b == a;
    } else {
      var front := b[..|b| - 1];
      assert (a + b)[..|a + b| - 1] == a + front;
      LookupsJoin(a, front, taskIds);
    }
  }

  /** A later scan's lookups follow those of the earlier ones. */
  lemma LookupsFollow(asked: seq<Lookup>, a: seq<Observation>, b: seq<Observation>, taskIds: map<string, string>)
    ensures asked + LookupsOf(a, taskIds) + LookupsOf(b, taskIds) == asked + LookupsOf(a + b, taskIds)
  {
    LookupsJoin(a, b, taskIds);
  }

  lemma JoinedNext(scans: seq<seq<Observation>>, log: seq<Observation>)
    ensures Joined(scans + [log]) == Joined(scans) + log
  {
    assert (scans + [log])[..|scans|] == scans;
  }

  lemma FullScansNext(ids: seq<string>, scans: seq<seq<Observation>>, log: seq<Observation>)
    requires FullScans(ids, scans) && ReadsAll(log, LeftAfter(ids, scans))
    requires scans != [] ==> FailedIn(scans[|scans| - 1]) == []
    ensures FullScans(ids, scans + [log]) && LeftAfter(ids, scans + [log]) == UnsettledIn(log)
  {
    assert (scans + [log])[..|scans|] == scans;
  }

  // ---- one scan ----------------------------------------------------------------------------------

  /** The tasks of the nodes are the run's own. */
  ghost predicate Own(mine: set<string>, taskIds: map<string, string>) {
    forall n :: n in taskIds ==> taskIds[n] in mine
  }

  /** A settled observation stays true of the fabric. */
  ghost predicate Truthful(log: seq<Observation>, tasks: map<string, Task>, taskIds: map<string, string>) {
    forall i :: 0 <= i < |log| && Settles(log[i]) ==>
      log[i].node in taskIds && taskIds[log[i].node] in tasks
          && tasks[taskIds[log[i].node]] == Task(log[i].state, log[i].output)
  }

  /** Read one task; the fabric moves on meanwhile. */
  method ReadOne(f: Fabric, mine: set<string>, id: string) returns (tk: Option<Task>)
    modifies f`tasks, f`lookups
    ensures Evolves(mine, old(f.tasks), f.tasks)
    ensures tk == if id in f.tasks then Some(f.tasks[id]) else None
    ensures f.lookups == old(f.lookups) + [Lookup(id, tk)]
  {
    f.Tick(mine);
    tk := f.Get(id);
  }

  lemma EvolvesFurther(mine: set<string>, a: map<string, Task>, b: map<string, Task>, c: map<string, Task>)
    requires Evolves(mine, a, b) && Evolves(mine, b, c)
    ensures Evolves(mine, a, c)
  {
  }

  /** What a scan that began on `start` keeps while the fabric moves on to `tasks`. */
  ghost predicate Watched(mine: set<string>, log: seq<Observation>, start: map<string, Task>, tasks: map<string, Task>,
                          taskIds: map<string, string>)
  {
    Evolves(mine, start, tasks) && Truthful(log, tasks, taskIds) && Attentive(log, start, taskIds)
  }

  lemma WatchedLater(mine: set<string>, log: seq<Observation>, start: map<string, Task>, before: map<string, Task>,
                     tasks: map<string, Task>, taskIds: map<string, string>)
    requires Own(mine, taskIds) && Watched(mine, log, start, before, taskIds) && Evolves(mine, before, tasks)
    ensures Watched(mine, log, start, tasks, taskIds)
  {
    EvolvesFurther(mine, start, before, tasks);
  }

  lemma WatchedNext(mine: set<string>, log: seq<Observation>, start: map<string, Task>, tasks: map<string, Task>,
                    taskIds: map<string, string>, o: Observation)
    requires Own(mine, taskIds) && Watched(mine, log, start, tasks, taskIds)
    requires o.node in taskIds && taskIds[o.node] in tasks && tasks[taskIds[o.node]] == Task(o.state, o.output)
    ensures Watched(mine, log + [o], start, tasks, taskIds)
  {
  }

  /** Write the element at the read position back at the write position, never ahead of it. */
  method KeepPending(pending: array<string>, still: nat, i: nat)
    requires still <= i < pending.Length
    modifies pending
    ensures pending[..still + 1] == old(pending[..still] + [pending[i]])
    ensures pending[i + 1..] == old(pending[i + 1..])
  {
    pending[still] := pending[i];
  }

  /** The scan's running results are what its log says. */
  ghost predicate Tallied(log: seq<Observation>, outputs0: map<string, string>, outputs: map<string, string>,
                          progressed: bool, failedNodes: seq<string>)
  {
    outputs == outputs0 + OutputsIn(log) && failedNodes == FailedIn(log) && (progressed <==> SawCompleted(log))
  }

  lemma TalliedNext(log: seq<Observation>, o: Observation, outputs0: map<string, string>, outputs: map<string, string>,
                    progressed: bool, failedNodes: seq<string>)
    requires Tallied(log, outputs0, outputs, progressed, failedNodes)
    ensures Tallied(log + [o], outputs0, if Settles(o) then outputs[o.node := o.output] else outputs,
                    progressed || o.state.Completed?, failedNodes + if o.state.Failed? then [o.node] else [])
  {
    LogNext(log, o);
    assert (log + [o])[|log|] == o;
    assert forall i :: 0 <= i < |log| ==> (log + [o])[i] == log[i];
  }

  lemma TruthfulJoin(mine: set<string>, a: seq<Observation>, b: seq<Observation>, before: map<string, Task>,
                     tasks: map<string, Task>, taskIds: map<string, string>)
    requires Own(mine, taskIds) && Truthful(a, before, taskIds) && Evolves(mine, before, tasks)
    requires Truthful(b, tasks, taskIds)
    ensures Truthful(a + b, tasks, taskIds)
    ensures Nodes(a + b) == Nodes(a) + Nodes(b)
  {
    var c := a + b;
    assert forall i :: 0 <= i < |a| ==> c[i] == a[i];
    assert forall i :: 0 <= i < |b| ==> c[|a| + i] == b[i];
    forall n | n in Nodes(a) + Nodes(b)
      ensures n in Nodes(c)
    {
      if n in Nodes(a) {
        var i :| 0 <= i < |a| && a[i].node == n;
        assert c[i].node == n;
      } else {
        var i :| 0 <= i < |b| && b[i].node == n;
        assert c[|a| + i].node == n;
      }
    }
  }

  /** After `i` reads the unsettled nodes seen so far are at the front of the array, and what is
      still unread is untouched. */
  ghost predicate Scanned(was: seq<string>, now: seq<string>, i: nat, still: nat, log: seq<Observation>) {
    && i <= |was| == |now| && |log| == i && still <= i
    && now[..still] == UnsettledIn(log) && now[i..] == was[i..]
    && forall k :: 0 <= k < i ==> log[k].node == was[k]
  }

  lemma ScannedNext(was: seq<string>, now: seq<string>, now': seq<string>, i: nat, still: nat, log: seq<Observation>,
                    o: Observation)
    requires Scanned(was, now, i, still, log) && i < |was| && o.node == was[i] && |now'| == |now|
    requires Settles(o) ==> now' == now
    requires !Settles(o) ==> now'[..still + 1] == now[..still] + [now[i]] && now'[i + 1..] == now[i + 1..]
    ensures Scanned(was, now', i + 1, still + if Settles(o) then 0 else 1, log + [o])
  {
    LogNext(log, o);
    assert now[i] == now[i..][0] == was[i..][0] == was[i];
    assert now[i + 1..] == now[i..][1..] == was[i + 1..];
  }

  /** The switch of the scan: note a settled node's output, and a failed node's name; keep any other
      node pending. */
  method Classify(nid: string, tk: Task, pending: array<string>, still: nat, i: nat, outputs: map<string, string>,
                  progressed: bool, failedNodes: seq<string>)
    returns (outputs': map<string, string>, still': nat, progressed': bool, failed': seq<string>)
    requires still <= i < pending.Length
    modifies pending
    ensures var o := Saw(nid, tk.state, tk.output);
            && outputs' == (if Settles(o) then outputs[nid := tk.output] else outputs)
            && still' == still + (if Settles(o) then 0 else 1)
            && progressed' == (progressed || tk.state.Completed?)
            && failed' == failedNodes + (if tk.state.Failed? then [nid] else [])
            && (Settles(o) ==> pending[..] == old(pending[..]))
            && (!Settles(o) ==>
                  pending[..][..still + 1] == old(pending[..][..still] + [pending[..][i]])
                  && pending[..][i + 1..] == old(pending[..][i + 1..]))
  {
    outputs', still', progressed', failed' := outputs, still, progressed, failedNodes;
    match tk.state {
      case Completed =>
        outputs' := outputs[nid := tk.output];
        progressed' := true;
      case Failed =>
        outputs' := outputs[nid := tk.output];
        failed' := failedNodes + [nid];
      case _ =>
        KeepPending(pending, still, i);
        still' := still + 1;
        assert pending[..][..still + 1] == pending[..still + 1] && pending[..][i + 1..] == pending[i + 1..];
    }
  }

  /** One pass over the pending nodes. Those not settled are written back over the front of the
      array being read; nothing still unread is overwritten. */
  method Scan(f: Fabric, mine: set<string>, taskIds: map<string, string>, pending: array<string>, n: nat,
              outputs0: map<string, string>)
    returns (missing: Option<string>, outputs: map<string, string>, still: nat, progressed: bool,
             failedNodes: seq<string>, ghost log: seq<Observation>)
    requires n <= pending.Length && (forall i :: 0 <= i < n ==> pending[i] in taskIds) && Own(mine, taskIds)
    modifies f`tasks, f`lookups, pending
    ensures Watched(mine, log, old(f.tasks), f.tasks, taskIds)
    ensures missing.None? ==> f.lookups == old(f.lookups) + LookupsOf(log, taskIds)
    ensures missing.Some? ==>
              f.lookups == old(f.lookups) + LookupsOf(log, taskIds) + [Lookup(TaskOf(taskIds, missing.value), None)]
    ensures |log| <= n && forall i :: 0 <= i < |log| ==> log[i].node == old(pending[i])
    ensures missing.Some? ==> |log| < n && missing.value == old(pending[|log|])
    ensures Tallied(log, outputs0, outputs, progressed, failedNodes)
    ensures missing.None? ==> |log| == n && still <= n && pending[..still] == UnsettledIn(log)
    ensures missing.Some? ==> TaskOf(taskIds, missing.value) !in f.tasks
  {
    ghost var was, start, asked := pending[..], f.tasks, f.lookups;
    missing, outputs, still, progressed, failedNodes, log := None, outputs0, 0, false, [], [];
    for i := 0 to n
      invariant Scanned(was, pending[..], i, still, log)
      invariant Watched(mine, log, start, f.tasks, taskIds) && f.lookups == asked + LookupsOf(log, taskIds)
      invariant Tallied(log, outputs0, outputs, progressed, failedNodes)
    {
      var nid := pending[i];
      assert nid == pending[..][i..][0] == was[i..][0] == was[i];
      ghost var before, now := f.tasks, pending[..];
      var tk := ReadOne(f, mine, taskIds[nid]);
      WatchedLater(mine, log, start, before, f.tasks, taskIds);
      if tk.None? {
        return Some(nid), outputs, still, progressed, failedNodes, log;
      }
      ghost var o := Saw(nid, tk.value.state, tk.value.output);
      WatchedNext(mine, log, start, f.tasks, taskIds, o);
      TalliedNext(log, o, outputs0, outputs, progressed, failedNodes);
      LookupsNext(asked, log, o, taskIds);
      ghost var kept := still;
      outputs, still, progressed, failedNodes :=
        Classify(nid, tk.value, pending, still, i, outputs, progressed, failedNodes);
      ScannedNext(was, now, pending[..], i, kept, log, o);
      log := log + [o];
    }
    assert pending[..still] == pending[..][..still];
  }

  // ---- the loop ----------------------------------------------------------------------------------

  /** Every node is either still pending or has an output, never both; and every output is that
      of a task that is, and stays, completed. */
  ghost predicate Partitioned(ids: seq<string>, pending: seq<string>, outputs: map<string, string>) {
    NoDup(pending) && outputs.Keys !! Elements(pending) && outputs.Keys + Elements(pending) == Elements(ids)
  }

  ghost predicate AllCompleted(outputs: map<string, string>, tasks: map<string, Task>, taskIds: map<string, string>) {
    forall n :: n in outputs ==> n in taskIds && taskIds[n] in tasks && tasks[taskIds[n]] == Task(Completed, outputs[n])
  }

  lemma ScanKeepsPartition(ids: seq<string>, was: seq<string>, outputs: map<string, string>, log: seq<Observation>)
    requires Partitioned(ids, was, outputs) && ReadsAll(log, was)
    ensures Partitioned(ids, UnsettledIn(log), outputs + OutputsIn(log))
    ensures Distinct(log) && Nodes(log) == Elements(was)
  {
    assert Distinct(log);
    ScanSplits(log);
    UnsettledDistinct(log);
    assert Nodes(log) == Elements(was) by {
      assert forall x :: x in was ==> exists i :: 0 <= i < |log| && log[i].node == x;
    }
    assert (outputs + OutputsIn(log)).Keys == outputs.Keys + OutputsIn(log).Keys;
  }

  /** Without a failure among them, what a truthful scan adds are outputs of completed tasks. */
  lemma ScanKeepsCompleted(mine: set<string>, outputs: map<string, string>, log: seq<Observation>,
                           before: map<string, Task>, tasks: map<string, Task>, taskIds: map<string, string>)
    requires Own(mine, taskIds) && AllCompleted(outputs, before, taskIds) && Evolves(mine, before, tasks)
    requires Truthful(log, tasks, taskIds) && FailedIn(log) == []
    ensures AllCompleted(outputs + OutputsIn(log), tasks, taskIds)
  {
    FailedExact(log);
    forall n | n in OutputsIn(log)
      ensures n in taskIds && taskIds[n] in tasks && tasks[taskIds[n]] == Task(Completed, OutputsIn(log)[n])
    {
      var i := OutputsSeen(log, n);
      assert log[i].node !in FailedIn(log);
    }
  }

  /** What holds before every scan. */
  ghost predicate WaitInv(ids: seq<string>, pending: seq<string>, outputs: map<string, string>,
                          history: seq<Observation>, tasks: map<string, Task>, taskIds: map<string, string>)
  {
    && Partitioned(ids, pending, outputs) && AllCompleted(outputs, tasks, taskIds)
    && outputs == OutputsIn(history) && FailedIn(history) == []
    && Truthful(history, tasks, taskIds) && Nodes(history) <= Elements(ids)
  }

  /** What a scan leaves: the partition, the log joined to the history, fewer pending nodes
      unless nothing settled; and the invariant again when nothing failed. */
  lemma AfterScan(mine: set<string>, ids: seq<string>, pending: seq<string>, outputs: map<string, string>,
                  history: seq<Observation>, before: map<string, Task>, tasks: map<string, Task>,
                  taskIds: map<string, string>, log: seq<Observation>)
    requires WaitInv(ids, pending, outputs, history, before, taskIds)
    requires Own(mine, taskIds) && Evolves(mine, before, tasks) && Truthful(log, tasks, taskIds)
    requires ReadsAll(log, pending)
    ensures outputs + OutputsIn(log) == OutputsIn(history + log) && FailedIn(history + log) == FailedIn(log)
    ensures Truthful(history + log, tasks, taskIds) && Nodes(history + log) <= Elements(ids)
    ensures Partitioned(ids, UnsettledIn(log), outputs + OutputsIn(log))
    ensures FailedIn(log) == [] ==>
              WaitInv(ids, UnsettledIn(log), outputs + OutputsIn(log), history + log, tasks, taskIds)
    ensures |UnsettledIn(log)| <= |pending|
    ensures FailedIn(log) == [] ==> (|UnsettledIn(log)| < |pending| <==> SawCompleted(log))
  {
    ScanKeepsPartition(ids, pending, outputs, log);
    OutputsJoin(history, log);
    FailedJoin(history, log);
    TruthfulJoin(mine, history, log, before, tasks, taskIds);
    ScanShrinks(log);
    if FailedIn(log) == [] {
      ScanKeepsCompleted(mine, outputs, log, before, tasks, taskIds);
      FailedExact(log);
      assert forall i :: 0 <= i < |log| && log[i].state.Failed? ==> log[i].node in FailedIn(log);
    }
  }

  /** A scan cut short by an unreadable task still reports only what it saw. */
  lemma PartialScan(mine: set<string>, ids: seq<string>, pending: seq<string>, outputs: map<string, string>,
                    history: seq<Observation>, before: map<string, Task>, tasks: map<string, Task>,
                    taskIds: map<string, string>, log: seq<Observation>)
    requires WaitInv(ids, pending, outputs, history, before, taskIds)
    requires Own(mine, taskIds) && Evolves(mine, before, tasks) && Truthful(log, tasks, taskIds)
    requires ReadsInOrder(log, pending)
    ensures outputs + OutputsIn(log) == OutputsIn(history + log)
    ensures Truthful(history + log, tasks, taskIds) && Nodes(history + log) <= Elements(ids)
    ensures (outputs + OutputsIn(log)).Keys <= Elements(ids)
  {
    OutputsJoin(history, log);
    TruthfulJoin(mine, history, log, before, tasks, taskIds);
    assert Nodes(log) <= Elements(pending);
    forall n | n in OutputsIn(log)
      ensures n in Nodes(log)
    {
      var i := OutputsSeen(log, n);
    }
  }

  method ListPending(ids: seq<string>) returns (pending: array<string>)
    ensures fresh(pending) && pending[..] == ids
  {
    pending := new string[|ids|];
    for i := 0 to |ids|
      invariant pending[..i] == ids[..i]
    {
      pending[i] := ids[i];
    }
  }

  // ---- which scans there were ------------------------------------------------------------------------

  lemma {:induction false} OutputsHold(log: seq<Observation>, i: nat)
    requires i < |log| && Settles(log[i])
    ensures log[i].node in OutputsIn(log)
    decreases |log|
  {
    if i < |log| - 1 {
      OutputsHold(log[..|log| - 1], i);
    }
  }

  /** Whatever was over when the wait began has its output. */
  ghost predicate Noticed(ids: seq<string>, start: map<string, Task>, taskIds: map<string, string>,
                          outputs: map<string, string>)
  {
    forall n :: n in ids && Over(start, TaskOf(taskIds, n)) ==> n in outputs
  }

  /** What the scans add to the invariant: they are full, they leave the pending nodes, and the first
      of them notices whatever was over at the start. */
  ghost predicate ScansInv(ids: seq<string>, pending: seq<string>, outputs: map<string, string>,
                           history: seq<Observation>, scans: seq<seq<Observation>>, start: map<string, Task>,
                           taskIds: map<string, string>)
  {
    && history == Joined(scans) && FullScans(ids, scans) && pending == LeftAfter(ids, scans)
    && (scans != [] ==> FailedIn(scans[|scans| - 1]) == [] && Noticed(ids, start, taskIds, outputs))
  }

  /** A full scan of all nodes notices whatever was over at the start. */
  lemma ScanNotices(mine: set<string>, ids: seq<string>, start: map<string, Task>, before: map<string, Task>,
                    taskIds: map<string, string>, log: seq<Observation>)
    requires Own(mine, taskIds) && Evolves(mine, start, before) && Attentive(log, before, taskIds)
    requires ReadsAll(log, ids) && forall n :: n in ids ==> n in taskIds
    ensures Noticed(ids, start, taskIds, OutputsIn(log))
  {
    forall n | n in ids && Over(start, TaskOf(taskIds, n))
      ensures n in OutputsIn(log)
    {
      var i :| 0 <= i < |ids| && ids[i] == n;
      assert Over(before, TaskOf(taskIds, log[i].node));
      OutputsHold(log, i);
    }
  }

  lemma ScansNext(mine: set<string>, ids: seq<string>, pending: seq<string>, outputs: map<string, string>,
                  history: seq<Observation>, scans: seq<seq<Observation>>, start: map<string, Task>,
                  before: map<string, Task>, taskIds: map<string, string>, log: seq<Observation>)
    requires ScansInv(ids, pending, outputs, history, scans, start, taskIds)
    requires Own(mine, taskIds) && Evolves(mine, start, before) && Attentive(log, before, taskIds)
    requires ReadsAll(log, pending)
    requires forall n :: n in ids ==> n in taskIds
    ensures history + log == Joined(scans + [log]) && FullScans(ids, scans + [log])
    ensures Noticed(ids, start, taskIds, outputs + OutputsIn(log))
    ensures FailedIn(log) == [] ==>
              ScansInv(ids, UnsettledIn(log), outputs + OutputsIn(log), history + log, scans + [log], start, taskIds)
  {
    JoinedNext(scans, log);
    FullScansNext(ids, scans, log);
    if scans == [] {
      ScanNotices(mine, ids, start, before, taskIds, log);
    }
  }

  lemma {:induction false} NoneSettled(log: seq<Observation>)
    requires forall i :: 0 <= i < |log| ==> !Settles(log[i])
    ensures OutputsIn(log) == map[]
    decreases |log|
  {
    if log != [] {
      NoneSettled(log[..|log| - 1]);
    }
  }

  /** A scan that settled nothing read exactly the nodes without an output. */
  lemma QuietScan(ids: seq<string>, pending: seq<string>, outputs: map<string, string>, log: seq<Observation>)
    requires Partitioned(ids, pending, outputs) && ReadsAll(log, pending)
    requires FailedIn(log) == [] && !SawCompleted(log)
    ensures forall i :: 0 <= i < |log| ==> !Settles(log[i])
    ensures Nodes(log) == Elements(ids) - (outputs + OutputsIn(log)).Keys
  {
    ScanKeepsPartition(ids, pending, outputs, log);
    FailedExact(log);
    assert forall i :: 0 <= i < |log| && log[i].state.Failed? ==> log[i].node in FailedIn(log);
    NoneSettled(log);
    assert outputs + OutputsIn(log) == outputs;
  }

  /** What was collected or read last was read. */
  lemma AllRead(ids: seq<string>, all: seq<Observation>, log: seq<Observation>)
    requires Nodes(log) == Elements(ids) - OutputsIn(all + log).Keys && Nodes(all + log) <= Elements(ids)
    ensures Nodes(all + log) == Elements(ids)
  {
    forall n | n in Elements(ids)
      ensures n in Nodes(all + log)
    {
      if n in OutputsIn(all + log) {
        var i := OutputsSeen(all + log, n);
      } else {
        assert n in Nodes(log);
        var i :| 0 <= i < |log| && log[i].node == n;
        assert (all + log)[|all| + i].node == n;
      }
    }
  }

  lemma QuietEnd(ids: seq<string>, pending: seq<string>, outputs: map<string, string>,
                 history: seq<Observation>, scans: seq<seq<Observation>>, log: seq<Observation>)
    requires Partitioned(ids, pending, outputs) && ReadsAll(log, pending) && pending != []
    requires FailedIn(log) == [] && !SawCompleted(log)
    requires FullScans(ids, scans + [log]) && Joined(scans + [log]) == history
    requires OutputsIn(history) == outputs + OutputsIn(log) && Nodes(history) <= Elements(ids)
    ensures EndsQuiet(ids, scans + [log], OutputsIn(history))
  {
    QuietScan(ids, pending, outputs, log);
    JoinedNext(scans, log);
    AllRead(ids, Joined(scans), log);
  }

  /** The node whose read failed is the next one that the scan, cut short, had to read. */
  ghost predicate CutShort(left: seq<string>, part: seq<Observation>, node: string) {
    |part| < |left| && ReadsInOrder(part, left) && node == left[|part|]
  }

  /** All that was read are `scans`, each of them full, and then `part` of another; outputs are what
      was read. */
  ghost predicate Reported(ids: seq<string>, taskIds: map<string, string>, tasks: map<string, Task>,
                           outputs: map<string, string>, history: seq<Observation>, scans: seq<seq<Observation>>,
                           part: seq<Observation>)
  {
    && Truthful(history, tasks, taskIds) && Nodes(history) <= Elements(ids)
    && history == Joined(scans) + part && FullScans(ids, scans)
    && outputs == OutputsIn(history) && outputs.Keys <= Elements(ids)
  }

  /** How a wait may end, given all it read. On a nil return every node is completed; a failure names
      exactly the nodes seen failed, all in the last scan; time only runs out after a scan of
      exactly the nodes without an output that found none of them settled. */
  ghost predicate WaitEnded(ids: seq<string>, taskIds: map<string, string>, tasks: map<string, Task>,
                            outputs: map<string, string>, err: Option<WaitError>, history: seq<Observation>,
                            scans: seq<seq<Observation>>, part: seq<Observation>)
  {
    && Reported(ids, taskIds, tasks, outputs, history, scans, part)
    && match err
       case None =>
         && part == [] && FailedIn(history) == []
         && outputs.Keys == Elements(ids) && AllCompleted(outputs, tasks, taskIds)
       case Some(NodesFailed(names)) =>
         && part == [] && scans != []
         && names == FailedIn(history) == FailedIn(scans[|scans| - 1]) && names != []
       case Some(ReadFailed(node)) =>
         node in ids && CutShort(LeftAfter(ids, scans), part, node) && TaskOf(taskIds, node) !in tasks
       case Some(_) =>
         && part == [] && FailedIn(history) == []
         && AllCompleted(outputs, tasks, taskIds) && EndsQuiet(ids, scans, outputs)
  }

  /** The loop's whole invariant. */
  ghost predicate WaitState(ids: seq<string>, pending: seq<string>, outputs: map<string, string>,
                            history: seq<Observation>, scans: seq<seq<Observation>>, start: map<string, Task>,
                            tasks: map<string, Task>, taskIds: map<string, string>)
  {
    && WaitInv(ids, pending, outputs, history, tasks, taskIds)
    && ScansInv(ids, pending, outputs, history, scans, start, taskIds)
  }

  /** What a full scan leaves in any case. */
  lemma ScanReported(mine: set<string>, ids: seq<string>, pending: seq<string>, outputs: map<string, string>,
                     history: seq<Observation>, scans: seq<seq<Observation>>, start: map<string, Task>,
                     before: map<string, Task>, tasks: map<string, Task>, taskIds: map<string, string>,
                     log: seq<Observation>)
    requires WaitState(ids, pending, outputs, history, scans, start, before, taskIds)
    requires Own(mine, taskIds) && Evolves(mine, start, before) && Watched(mine, log, before, tasks, taskIds)
    requires ReadsAll(log, pending) && forall n :: n in ids ==> n in taskIds
    ensures Reported(ids, taskIds, tasks, outputs + OutputsIn(log), history + log, scans + [log], [])
    ensures Noticed(ids, start, taskIds, outputs + OutputsIn(log))
    ensures FailedIn(history + log) == FailedIn(log)
  {
    AfterScan(mine, ids, pending, outputs, history, before, tasks, taskIds, log);
    ScansNext(mine, ids, pending, outputs, history, scans, start, before, taskIds, log);
    assert history + log == Joined(scans + [log]) + [];
  }

  /** A failure ends the wait. */
  lemma ScanFails(mine: set<string>, ids: seq<string>, pending: seq<string>, outputs: map<string, string>,
                  history: seq<Observation>, scans: seq<seq<Observation>>, start: map<string, Task>,
                  before: map<string, Task>, tasks: map<string, Task>, taskIds: map<string, string>,
                  log: seq<Observation>)
    requires WaitState(ids, pending, outputs, history, scans, start, before, taskIds)
    requires Own(mine, taskIds) && Evolves(mine, start, before) && Watched(mine, log, before, tasks, taskIds)
    requires ReadsAll(log, pending) && FailedIn(log) != [] && forall n :: n in ids ==> n in taskIds
    ensures WaitEnded(ids, taskIds, tasks, outputs + OutputsIn(log), Some(NodesFailed(FailedIn(log))), history + log,
              scans + [log], [])
  {
    ScanReported(mine, ids, pending, outputs, history, scans, start, before, tasks, taskIds, log);
  }

  /** Otherwise the invariant holds again. */
  lemma ScanGoesOn(mine: set<string>, ids: seq<string>, pending: seq<string>, outputs: map<string, string>,
                   history: seq<Observation>, scans: seq<seq<Observation>>, start: map<string, Task>,
                   before: map<string, Task>, tasks: map<string, Task>, taskIds: map<string, string>,
                   log: seq<Observation>)
    requires WaitState(ids, pending, outputs, history, scans, start, before, taskIds)
    requires Own(mine, taskIds) && Evolves(mine, start, before) && Watched(mine, log, before, tasks, taskIds)
    requires ReadsAll(log, pending) && FailedIn(log) == [] && forall n :: n in ids ==> n in taskIds
    ensures WaitState(ids, UnsettledIn(log), outputs + OutputsIn(log), history + log, scans + [log], start, tasks,
              taskIds)
    ensures |UnsettledIn(log)| <= |pending| && (|UnsettledIn(log)| < |pending| <==> SawCompleted(log))
  {
    AfterScan(mine, ids, pending, outputs, history, before, tasks, taskIds, log);
    ScansNext(mine, ids, pending, outputs, history, scans, start, before, taskIds, log);
  }

  /** If nothing settled at all the wait may run out of time. */
  lemma ScanQuiet(mine: set<string>, ids: seq<string>, pending: seq<string>, outputs: map<string, string>,
                  history: seq<Observation>, scans: seq<seq<Observation>>, start: map<string, Task>,
                  before: map<string, Task>, tasks: map<string, Task>, taskIds: map<string, string>,
                  log: seq<Observation>, err: WaitError)
    requires WaitState(ids, pending, outputs, history, scans, start, before, taskIds)
    requires Own(mine, taskIds) && Evolves(mine, start, before) && Watched(mine, log, before, tasks, taskIds)
    requires ReadsAll(log, pending) && pending != [] && forall n :: n in ids ==> n in taskIds
    requires FailedIn(log) == [] && !SawCompleted(log) && (err.TimedOut? || err.Canceled?)
    ensures WaitEnded(ids, taskIds, tasks, outputs + OutputsIn(log), Some(err), history + log, scans + [log], [])
  {
    ScanReported(mine, ids, pending, outputs, history, scans, start, before, tasks, taskIds, log);
    ScanKeepsCompleted(mine, outputs, log, before, tasks, taskIds);
    JoinedNext(scans, log);
    QuietEnd(ids, pending, outputs, history + log, scans, log);
  }

  lemma PartReported(mine: set<string>, ids: seq<string>, pending: seq<string>, outputs: map<string, string>,
                     history: seq<Observation>, scans: seq<seq<Observation>>, start: map<string, Task>,
                     before: map<string, Task>, tasks: map<string, Task>, taskIds: map<string, string>,
                     log: seq<Observation>)
    requires WaitState(ids, pending, outputs, history, scans, start, before, taskIds)
    requires Own(mine, taskIds) && Watched(mine, log, before, tasks, taskIds) && Evolves(mine, before, tasks)
    requires |log| < |pending| && ReadsInOrder(log, pending)
    ensures Reported(ids, taskIds, tasks, outputs + OutputsIn(log), history + log, scans, log)
  {
    PartialScan(mine, ids, pending, outputs, history, before, tasks, taskIds, log);
  }

  /** A failed read ends it in the middle of a scan. */
  lemma CutShortEnds(mine: set<string>, ids: seq<string>, pending: seq<string>, outputs: map<string, string>,
                     history: seq<Observation>, scans: seq<seq<Observation>>, start: map<string, Task>,
                     before: map<string, Task>, tasks: map<string, Task>, taskIds: map<string, string>,
                     log: seq<Observation>, node: string)
    requires WaitState(ids, pending, outputs, history, scans, start, before, taskIds)
    requires Own(mine, taskIds) && Watched(mine, log, before, tasks, taskIds)
    requires |log| < |pending| && ReadsInOrder(log, pending) && node == pending[|log|]
    requires TaskOf(taskIds, node) !in tasks
    ensures WaitEnded(ids, taskIds, tasks, outputs + OutputsIn(log), Some(ReadFailed(node)), history + log, scans, log)
  {
    PartReported(mine, ids, pending, outputs, history, scans, start, before, tasks, taskIds, log);
    assert node in Elements(pending) && Elements(pending) <= Elements(ids);
  }

  /** One pass of the loop, up to the decision to wait for the next tick. */
  method WaitTurn(f: Fabric, mine: set<string>, ids: seq<string>, taskIds: map<string, string>, pending: array<string>,
                  n: nat, outputs: map<string, string>, ghost history: seq<Observation>,
                  ghost scans: seq<seq<Observation>>, ghost start: map<string, Task>)
    returns (outputs': map<string, string>, still: nat, progressed: bool, err: Option<WaitError>,
             ghost log: seq<Observation>)
    requires 0 < n <= pending.Length && Own(mine, taskIds) && forall x :: x in ids ==> x in taskIds
    requires Evolves(mine, start, f.tasks)
    requires WaitState(ids, pending[..n], outputs, history, scans, start, f.tasks, taskIds)
    modifies f`tasks, f`lookups, pending
    ensures Evolves(mine, start, f.tasks) && still <= n
    ensures err.None? || err.value.NodesFailed? || err.value.ReadFailed?
    ensures err.Some? && err.value.ReadFailed? ==>
              && WaitEnded(ids, taskIds, f.tasks, outputs', err, history + log, scans, log)
              && TaskOf(taskIds, err.value.node) !in f.tasks
              && f.lookups ==
                 old(f.lookups) + LookupsOf(log, taskIds) + [Lookup(TaskOf(taskIds, err.value.node), None)]
    ensures err.None? || !err.value.ReadFailed? ==>
              && Noticed(ids, start, taskIds, outputs') && f.lookups == old(f.lookups) + LookupsOf(log, taskIds)
    ensures err.Some? && err.value.NodesFailed? ==>
              WaitEnded(ids, taskIds, f.tasks, outputs', err, history + log, scans + [log], [])
    ensures err.None? ==>
              && WaitState(ids, pending[..still], outputs', history + log, scans + [log], start, f.tasks, taskIds)
              && (progressed <==> still < n)
    ensures err.None? && !progressed ==>
              && WaitEnded(ids, taskIds, f.tasks, outputs', Some(TimedOut), history + log, scans + [log], [])
              && WaitEnded(ids, taskIds, f.tasks, outputs', Some(Canceled), history + log, scans + [log], [])
  {
    ghost var was, before := pending[..n], f.tasks;
    forall i | 0 <= i < n
      ensures pending[i] == was[i] && was[i] in ids
    {
      assert was[i] in Elements(was) && Elements(was) <= Elements(ids);
    }
    var missing, failedNodes;
    missing, outputs', still, progressed, failedNodes, log := Scan(f, mine, taskIds, pending, n, outputs);
    EvolvesFurther(mine, start, before, f.tasks);
    if missing.Some? {
      CutShortEnds(mine, ids, was, outputs, history, scans, start, before, f.tasks, taskIds, log, missing.value);
      return outputs', 0, progressed, Some(ReadFailed(missing.value)), log;
    }
    ScanReported(mine, ids, was, outputs, history, scans, start, before, f.tasks, taskIds, log);
    if |failedNodes| > 0 {
      ScanFails(mine, ids, was, outputs, history, scans, start, before, f.tasks, taskIds, log);
      return outputs', still, progressed, Some(NodesFailed(failedNodes)), log;
    }
    ScanGoesOn(mine, ids, was, outputs, history, scans, start, before, f.tasks, taskIds, log);
    if !progressed {
      ScanQuiet(mine, ids, was, outputs, history, scans, start, before, f.tasks, taskIds, log, TimedOut);
      ScanQuiet(mine, ids, was, outputs, history, scans, start, before, f.tasks, taskIds, log, Canceled);
    }
    return outputs', still, progressed, None, log;
  }

  /** Wait until every node settles, one fails, or time runs out (`ticks` more timer ticks at
      most: the wait always has a deadline). Whatever was over at the start has its output unless
      a read failed, and the fabric was asked for what the history says and nothing else. */
  method WaitForNodes(f: Fabric, mine: set<string>, ids: seq<string>, taskIds: map<string, string>, ticks: nat)
    returns (outputs: map<string, string>, err: Option<WaitError>, ghost history: seq<Observation>,
             ghost scans: seq<seq<Observation>>, ghost part: seq<Observation>)
    requires NoDup(ids) && (forall n :: n in ids ==> n in taskIds) && Own(mine, taskIds)
    modifies f`tasks, f`lookups
    ensures Evolves(mine, old(f.tasks), f.tasks)
    ensures WaitEnded(ids, taskIds, f.tasks, outputs, err, history, scans, part)
    ensures err.Some? && err.value.ReadFailed? ==>
              && TaskOf(taskIds, err.value.node) !in f.tasks
              && f.lookups ==
                 old(f.lookups) + LookupsOf(history, taskIds) + [Lookup(TaskOf(taskIds, err.value.node), None)]
    ensures err.None? || !err.value.ReadFailed? ==>
              && part == [] && Noticed(ids, old(f.tasks), taskIds, outputs)
              && f.lookups == old(f.lookups) + LookupsOf(history, taskIds)
  {
    var pending := ListPending(ids);
    var n, left := |ids|, ticks;
    outputs, history, scans, part := map[], [], [], [];
    ghost var start, asked := f.tasks, f.lookups;
    assert pending[..n] == ids;
    while n > 0
      invariant 0 <= n <= pending.Length && Evolves(mine, start, f.tasks)
      invariant WaitState(ids, pending[..n], outputs, history, scans, start, f.tasks, taskIds)
      invariant f.lookups == asked + LookupsOf(history, taskIds)
      decreases n, left
    {
      var outputs', still, progressed, stop, log :=
        WaitTurn(f, mine, ids, taskIds, pending, n, outputs, history, scans, start);
      LookupsFollow(asked, history, log, taskIds);
      outputs, n, history := outputs', still, history + log;
      if stop.Some? && stop.value.ReadFailed? {
        return outputs, stop, history, scans, log;
      }
      scans := scans + [log];
      if stop.Some? {
        return outputs, stop, history, scans, [];
      }
      if progressed {
        continue;
      }
      var expired: bool := *;
      if left == 0 || expired {
        var canceled: bool := *;
        return outputs, Some(if canceled then Canceled else TimedOut), history, scans, [];
      }
      left := left - 1;
    }
    assert pending[..0] == [];
    NothingLeft(ids, outputs, history, scans, start, f.tasks, taskIds);
    return outputs, None, history, scans, [];
  }

  /** No node pending: the wait is over. */
  lemma NothingLeft(ids: seq<string>, outputs: map<string, string>, history: seq<Observation>,
                    scans: seq<seq<Observation>>, start: map<string, Task>, tasks: map<string, Task>,
                    taskIds: map<string, string>)
    requires WaitState(ids, [], outputs, history, scans, start, tasks, taskIds)
    ensures WaitEnded(ids, taskIds, tasks, outputs, None, history, scans, [])
    ensures Noticed(ids, start, taskIds, outputs)
  {
    assert Elements<string>([]) == {};
    assert history == Joined(scans) + [];
    assert forall n :: n in ids ==> n in Elements(ids);
  }

  // ---- the whole run -------------------------------------------------------------------------------

  datatype RunError =
    | NotWired
    | Rejected(reason: SubmitError)
    | CreateRefused(node: string)
    | WaitFailed(cause: WaitError)

  function Creations(ids: seq<string>): seq<Call> {
    seq(|ids|, i requires 0 <= i < |ids| => Created(ids[i]))
  }

  function Deletions(ids: seq<string>): seq<Call> {
    seq(|ids|, i requires 0 <= i < |ids| => Deleted(ids[i]))
  }

  /** The run's own tasks: distinct, and named after its nodes. */
  ghost predicate OwnIds(created: seq<string>, r: RunId, nodes: seq<NodeSpec>) {
    NoDup(created) && forall id :: id in created ==> exists n :: n in nodes && id == TaskId(r, n.id)
  }

  /** One task for each of the first nodes, in their order. */
  ghost predicate MadeFor(r: RunId, nodes: seq<NodeSpec>, created: seq<string>) {
    |created| <= |nodes| && forall k :: 0 <= k < |created| ==> created[k] == TaskId(r, nodes[k].id)
  }

  /** The first `i` nodes have their tasks. */
  ghost predicate MadeSoFar(r: RunId, nodes: seq<NodeSpec>, i: nat, taskIds: map<string, string>, created: seq<string>,
                            tasks: map<string, Task>)
    requires i <= |nodes|
  {
    && NoDup(created) && (forall id :: id in created ==> id in tasks)
    && MadeFor(r, nodes, created) && |created| == i
    && (forall k :: 0 <= k < i ==> nodes[k].id in taskIds && taskIds[nodes[k].id] == TaskId(r, nodes[k].id))
    && (forall n :: n in taskIds ==> taskIds[n] in created)
  }

  lemma MadeStays(r: RunId, nodes: seq<NodeSpec>, i: nat, taskIds: map<string, string>, created: seq<string>,
                  tasks: map<string, Task>, tasks': map<string, Task>)
    requires i <= |nodes| && MadeSoFar(r, nodes, i, taskIds, created, tasks)
    requires Evolves((set id | id in created), tasks, tasks')
    ensures MadeSoFar(r, nodes, i, taskIds, created, tasks')
  {
  }

  lemma PushFresh<T>(s: seq<T>, x: T)
    requires NoDup(s) && x !in s
    ensures NoDup(s + [x]) && forall y :: y in s + [x] <==> y in s || y == x
  {
    assert forall k :: 0 <= k < |s| ==> (s + [x])[k] == s[k] && s[k] in s;
  }

  /** One more task. */
  lemma MadeNext(r: RunId, nodes: seq<NodeSpec>, i: nat, taskIds: map<string, string>, created: seq<string>,
                 tasks: map<string, Task>, tk: Task)
    requires i < |nodes| && MadeSoFar(r, nodes, i, taskIds, created, tasks) && TaskId(r, nodes[i].id) !in tasks
    ensures var tid := TaskId(r, nodes[i].id);
            MadeSoFar(r, nodes, i + 1, taskIds[nodes[i].id := tid], created + [tid], tasks[tid := tk])
  {
    var tid := TaskId(r, nodes[i].id);
    PushFresh(created, tid);
    forall k | 0 <= k < i + 1
      ensures (created + [tid])[k] == TaskId(r, nodes[k].id)
      ensures nodes[k].id in taskIds[nodes[i].id := tid]
      ensures taskIds[nodes[i].id := tid][nodes[k].id] == TaskId(r, nodes[k].id)
    {
      if nodes[k].id == nodes[i].id {
        assert taskIds[nodes[i].id := tid][nodes[k].id] == tid;
      } else {
        assert taskIds[nodes[i].id := tid][nodes[k].id] == taskIds[nodes[k].id];
      }
      assert k < i ==> (created + [tid])[k] == created[k];
    }
  }

  method CreateTasks(f: Fabric, r: RunId, nodes: seq<NodeSpec>)
    returns (refused: Option<string>, taskIds: map<string, string>, created: seq<string>)
    requires NodesOk(nodes)
    modifies f`tasks, f`calls
    ensures OwnIds(created, r, nodes) && forall id :: id in created ==> id in f.tasks
    ensures f.calls == old(f.calls) + Creations(created)
    ensures refused.None? ==> MadeSoFar(r, nodes, |nodes|, taskIds, created, f.tasks)
    ensures MadeFor(r, nodes, created)
    ensures refused.Some? ==>
              && |created| < |nodes| && refused.value == nodes[|created|].id
              && TaskId(r, refused.value) in f.tasks && TaskId(r, refused.value) !in created
  {
    refused, taskIds, created := None, map[], [];
    ghost var start := f.calls;
    for i := 0 to |nodes|
      invariant MadeSoFar(r, nodes, i, taskIds, created, f.tasks)
      invariant f.calls == start + Creations(created)
    {
      var ok, next := CreateOne(f, r, nodes, i, taskIds, created);
      if !ok {
        RefusedElsewhere(r, nodes, i, taskIds, created, f.tasks);
        return Some(nodes[i].id), next, created;
      }
      var tid := TaskId(r, nodes[i].id);
      CreationsPush(start, created, tid);
      taskIds, created := next, created + [tid];
    }
    MadeIsOwn(r, nodes, |nodes|, taskIds, created, f.tasks);
  }

  /** One turn of the creating loop, after some time has passed. */
  method CreateOne(f: Fabric, r: RunId, nodes: seq<NodeSpec>, i: nat, taskIds: map<string, string>,
                   created: seq<string>)
    returns (ok: bool, next: map<string, string>)
    requires i < |nodes| && MadeSoFar(r, nodes, i, taskIds, created, f.tasks)
    modifies f`tasks, f`calls
    ensures var tid := TaskId(r, nodes[i].id);
            && next == taskIds[nodes[i].id := tid] && tid in f.tasks
            && f.calls == (if ok then old(f.calls) + [Created(tid)] else old(f.calls))
            && (if ok then MadeSoFar(r, nodes, i + 1, next, created + [tid], f.tasks)
                  else MadeSoFar(r, nodes, i, taskIds, created, f.tasks))
  {
    ghost var before := f.tasks;
    f.Tick(set id | id in created);
    MadeStays(r, nodes, i, taskIds, created, before, f.tasks);
    var tid := TaskId(r, nodes[i].id);
    next := taskIds[nodes[i].id := tid];
    ghost var tasks := f.tasks;
    ok := f.Create(tid);
    if ok {
      MadeNext(r, nodes, i, taskIds, created, tasks, Task(Ready, ""));
    }
  }

  /** A refused id belongs to someone else. */
  lemma RefusedElsewhere(r: RunId, nodes: seq<NodeSpec>, i: nat, taskIds: map<string, string>, created: seq<string>,
                         tasks: map<string, Task>)
    requires NodesOk(nodes) && i < |nodes| && MadeSoFar(r, nodes, i, taskIds, created, tasks)
    ensures TaskId(r, nodes[i].id) !in created && OwnIds(created, r, nodes)
  {
    NotYetCreated(r, nodes, i, created);
    MadeIsOwn(r, nodes, i, taskIds, created, tasks);
  }

  lemma MadeIsOwn(r: RunId, nodes: seq<NodeSpec>, i: nat, taskIds: map<string, string>, created: seq<string>,
                  tasks: map<string, Task>)
    requires i <= |nodes| && MadeSoFar(r, nodes, i, taskIds, created, tasks)
    ensures OwnIds(created, r, nodes)
  {
    forall id | id in created
      ensures exists n :: n in nodes && id == TaskId(r, n.id)
    {
      var k :| 0 <= k < i && id == created[k];
      assert nodes[k] in nodes;
    }
  }

  lemma CreationsPush(start: seq<Call>, ids: seq<string>, id: string)
    ensures start + Creations(ids + [id]) == (start + Creations(ids)) + [Created(id)]
    ensures start + Deletions(ids + [id]) == (start + Deletions(ids)) + [Deleted(id)]
  {
  }

  /** Distinct nodes have distinct task ids, so a refusal is never the run's own doing. */
  lemma NotYetCreated(r: RunId, nodes: seq<NodeSpec>, i: nat, created: seq<string>)
    requires NodesOk(nodes) && i < |nodes|
    requires MadeFor(r, nodes, created) && |created| == i
    ensures TaskId(r, nodes[i].id) !in created
  {
    forall k | 0 <= k < i
      ensures TaskId(r, nodes[k].id) != TaskId(r, nodes[i].id)
    {
      SameRunDistinct(r, nodes[k].id, nodes[i].id);
    }
  }

  lemma SameRunDistinct(r: RunId, a: string, b: string)
    requires a != b
    ensures TaskId(r, a) != TaskId(r, b)
  {
    PrefixExtends(r, a);
    PrefixExtends(r, b);
    CancelLeft(Prefix(r), a, b);
  }

  /** The deferred cleanup: what can be deleted is, what is in flight finishes by itself. */
  method Cleanup(f: Fabric, created: seq<string>) returns (ghost dropped: seq<string>)
    requires NoDup(created)
    modifies f`tasks, f`calls
    ensures forall id :: id in f.tasks <==> id in old(f.tasks) && (id !in created || old(f.tasks)[id].state.InFlight?)
    ensures forall id :: id in f.tasks ==> f.tasks[id] == old(f.tasks)[id]
    ensures f.calls == old(f.calls) + Deletions(dropped) && forall id :: id in dropped ==> id in created
  {
    dropped := [];
    for i := 0 to |created|
      invariant forall id :: id in f.tasks <==>
                id in old(f.tasks) && (id !in created[..i] || old(f.tasks)[id].state.InFlight?)
      invariant forall id :: id in f.tasks ==> f.tasks[id] == old(f.tasks)[id]
      invariant f.calls == old(f.calls) + Deletions(dropped) && forall id :: id in dropped ==> id in created
    {
      assert created[..i + 1] == created[..i] + [created[i]];
      var ok := f.Delete(created[i]);
      if ok {
        CreationsPush(old(f.calls), dropped, created[i]);
        dropped := dropped + [created[i]];
      }
    }
    assert created[..|created|] == created;
  }

  /** What a run leaves of its calls and its tasks: it created only tasks of its nodes, deleted
      only what it created, and nothing of that is left but what is in flight. `last` is the
      fabric just before the cleanup, which touches no other task. */
  ghost predicate CleanedUp(before: seq<Call>, after: seq<Call>, created: seq<string>, dropped: seq<string>,
                            last: map<string, Task>, tasks: map<string, Task>, r: RunId, nodes: seq<NodeSpec>) {
    && OwnIds(created, r, nodes) && (forall id :: id in dropped ==> id in created)
    && after == before + Creations(created) + Deletions(dropped)
    && (forall id :: id in created && id in tasks ==> tasks[id].state.InFlight?)
    && (forall id :: id in tasks ==> id in last && tasks[id] == last[id])
    && (forall id :: id in last && id !in created ==> id in tasks)
  }

  function NodeNames(nodes: seq<NodeSpec>): (names: seq<string>)
    ensures |names| == |nodes| && forall i :: 0 <= i < |nodes| ==> names[i] == nodes[i].id
  {
    seq(|nodes|, i requires 0 <= i < |nodes| => nodes[i].id)
  }

  /** None of the run's tasks can go missing. */
  lemma ReadsSucceed(r: RunId, nodes: seq<NodeSpec>, taskIds: map<string, string>, created: seq<string>,
                     before: map<string, Task>, tasks: map<string, Task>)
    requires MadeSoFar(r, nodes, |nodes|, taskIds, created, before)
    requires Evolves((set id | id in created), before, tasks)
    ensures forall n :: n in NodeNames(nodes) ==> TaskOf(taskIds, n) in tasks
  {
    forall n | n in NodeNames(nodes)
      ensures TaskOf(taskIds, n) in tasks
    {
      var k :| 0 <= k < |nodes| && NodeNames(nodes)[k] == n;
      assert nodes[k].id in taskIds && taskIds[n] in created;
    }
  }

  /** The wait over all nodes of a submission; none of the run's tasks can go missing. */
  method WaitForAll(f: Fabric, r: RunId, nodes: seq<NodeSpec>, taskIds: map<string, string>, created: seq<string>,
                    ticks: nat)
    returns (outputs: map<string, string>, err: Option<WaitError>, ghost history: seq<Observation>,
             ghost scans: seq<seq<Observation>>)
    requires NodesOk(nodes) && MadeSoFar(r, nodes, |nodes|, taskIds, created, f.tasks)
    modifies f`tasks, f`lookups
    ensures WaitEnded(NodeNames(nodes), taskIds, f.tasks, outputs, err, history, scans, [])
    ensures (err.Some? ==> !err.value.ReadFailed?) && Noticed(NodeNames(nodes), old(f.tasks), taskIds, outputs)
    ensures f.lookups == old(f.lookups) + LookupsOf(history, taskIds)
  {
    var ids := NodeNames(nodes);
    ghost var before := f.tasks;
    var mine := set id | id in created;
    ghost var part;
    outputs, err, history, scans, part := WaitForNodes(f, mine, ids, taskIds, ticks);
    ReadsSucceed(r, nodes, taskIds, created, before, f.tasks);
  }

  /** How a run may end, `last` being the fabric just before the cleanup. Without a refusal every node
      has its task and the wait ended as it must; an id is refused only if it is taken by someone
      else. */
  ghost predicate RunEnded(r: RunId, nodes: seq<NodeSpec>, taskIds: map<string, string>, created: seq<string>,
                           last: map<string, Task>, outputs: map<string, string>, err: Option<RunError>,
                           history: seq<Observation>, scans: seq<seq<Observation>>)
  {
    && MadeFor(r, nodes, created)
    && match err
       case None =>
         && AllMade(r, nodes, taskIds, created)
         && WaitEnded(NodeNames(nodes), taskIds, last, outputs, None, history, scans, [])
       case Some(WaitFailed(cause)) =>
         && !cause.ReadFailed? && AllMade(r, nodes, taskIds, created)
         && WaitEnded(NodeNames(nodes), taskIds, last, outputs, Some(cause), history, scans, [])
       case Some(CreateRefused(node)) =>
         && |created| < |nodes| && node == nodes[|created|].id
         && TaskId(r, node) in last && TaskId(r, node) !in created && outputs == map[] && history == []
       case Some(_) => created == [] && outputs == map[] && history == []
  }

  ghost predicate AllMade(r: RunId, nodes: seq<NodeSpec>, taskIds: map<string, string>, created: seq<string>) {
    && |created| == |nodes|
    && forall n :: n in nodes ==> n.id in taskIds && taskIds[n.id] == TaskId(r, n.id) && TaskId(r, n.id) in created
  }

  lemma MadeMeansAll(r: RunId, nodes: seq<NodeSpec>, taskIds: map<string, string>, created: seq<string>,
                     tasks: map<string, Task>)
    requires MadeSoFar(r, nodes, |nodes|, taskIds, created, tasks)
    ensures AllMade(r, nodes, taskIds, created)
  {
    forall n | n in nodes
      ensures n.id in taskIds && taskIds[n.id] == TaskId(r, n.id) && TaskId(r, n.id) in created
    {
      var k :| 0 <= k < |nodes| && nodes[k] == n;
      assert created[k] == TaskId(r, nodes[k].id);
    }
  }

  lemma WaitEndsRun(r: RunId, nodes: seq<NodeSpec>, taskIds: map<string, string>, created: seq<string>,
                    made: map<string, Task>, last: map<string, Task>, outputs: map<string, string>,
                    cause: Option<WaitError>, err: Option<RunError>, history: seq<Observation>,
                    scans: seq<seq<Observation>>)
    requires MadeSoFar(r, nodes, |nodes|, taskIds, created, made) && (cause.Some? ==> !cause.value.ReadFailed?)
    requires WaitEnded(NodeNames(nodes), taskIds, last, outputs, cause, history, scans, [])
    requires err == if cause.Some? then Some(WaitFailed(cause.value)) else None
    ensures RunEnded(r, nodes, taskIds, created, last, outputs, err, history, scans)
  {
    MadeMeansAll(r, nodes, taskIds, created, made);
  }

  lemma RefusalEndsRun(r: RunId, nodes: seq<NodeSpec>, taskIds: map<string, string>, created: seq<string>,
                       last: map<string, Task>, node: string)
    requires MadeFor(r, nodes, created) && |created| < |nodes| && node == nodes[|created|].id
    requires TaskId(r, node) in last && TaskId(r, node) !in created
    ensures RunEnded(r, nodes, taskIds, created, last, map[], Some(CreateRefused(node)), [], [])
  {
  }

  /** The run between validation and cleanup. */
  method CreateAndWait(f: Fabric, r: RunId, nodes: seq<NodeSpec>, ticks: nat)
    returns (outputs: map<string, string>, taskIds: map<string, string>, created: seq<string>, err: Option<RunError>,
             ghost history: seq<Observation>, ghost scans: seq<seq<Observation>>)
    requires NodesOk(nodes)
    modifies f
    ensures OwnIds(created, r, nodes) && f.calls == old(f.calls) + Creations(created)
    ensures err.None? || err.value.CreateRefused? || err.value.WaitFailed?
    ensures RunEnded(r, nodes, taskIds, created, f.tasks, outputs, err, history, scans)
    ensures f.lookups == old(f.lookups) + LookupsOf(history, taskIds)
  {
    var refused;
    refused, taskIds, created := CreateTasks(f, r, nodes);
    if refused.Some? {
      RefusalEndsRun(r, nodes, taskIds, created, f.tasks, refused.value);
      return map[], taskIds, created, Some(CreateRefused(refused.value)), [], [];
    }
    ghost var made := f.tasks;
    var waitErr;
    outputs, waitErr, history, scans := WaitForAll(f, r, nodes, taskIds, created, ticks);
    err := if waitErr.Some? then Some(WaitFailed(waitErr.value)) else None;
    WaitEndsRun(r, nodes, taskIds, created, made, f.tasks, outputs, waitErr, err, history, scans);
  }

  /** A whole run. It leaves the active set, and the others stay in it; it creates and deletes its
      own tasks only, and none of them is left that is not in flight, whatever other runs and the
      janitor do meanwhile; a rejected submission never touches the fabric; and what it returns is
      what it read: on a nil error an output for every node, that of its completed task. */
  method RunCollabGraph(f: Fabric?, active: ActiveRuns, r: RunId, nodes: seq<NodeSpec>, edges: seq<EdgeSpec>,
                        ticks: nat)
    returns (outputs: map<string, string>, taskIds: map<string, string>, err: Option<RunError>,
             ghost history: seq<Observation>, ghost scans: seq<seq<Observation>>, ghost last: map<string, Task>,
             ghost created: seq<string>, ghost dropped: seq<string>)
    modifies active, f
    ensures active.runs == old(active.runs) - if f == null then {} else {r}
    ensures err == Some(NotWired) <==> f == null
    ensures f != null ==> CleanedUp(old(f.calls), f.calls, created, dropped, last, f.tasks, r, nodes)
    ensures f != null ==> (!Accepted(nodes, edges) <==> err.Some? && err.value.Rejected?)
    ensures f != null && !Accepted(nodes, edges) ==> f.tasks == old(f.tasks) && f.calls == old(f.calls)
    ensures RunEnded(r, nodes, taskIds, created, last, outputs, err, history, scans)
    ensures f != null ==> f.lookups == old(f.lookups) + LookupsOf(history, taskIds)
  {
    outputs, taskIds, history, scans, last, created, dropped := map[], map[], [], [], map[], [], [];
    if f == null {
      return outputs, taskIds, Some(NotWired), history, scans, last, created, dropped;
    }
    active.Mark(r);
    var invalid := ValidateSubmission(nodes, edges);
    if invalid.Some? {
      active.Unmark(r);
      return outputs, taskIds, Some(Rejected(invalid.value)), history, scans, f.tasks, created, dropped;
    }
    var made;
    outputs, taskIds, made, err, history, scans := CreateAndWait(f, r, nodes, ticks);
    created, last := made, f.tasks;
    dropped := Cleanup(f, made);
    active.Unmark(r);
  }
}
