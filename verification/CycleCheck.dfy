/** Kahn's algorithm as the submission check runs it: a stack as the queue, indegrees counted
    with multiplicity, map iteration in any order. */
module CycleCheck {
  import opened Basics
  import opened Digraph

  /** Dependencies not yet met, with multiplicity. */
  function Unmet(froms: seq<string>, met: set<string>): nat {
    if froms == [] then 0
    else Unmet(froms[..|froms| - 1], met) + if froms[|froms| - 1] in met then 0 else 1
  }

  lemma {:induction false} UnmetNone(froms: seq<string>)
    ensures Unmet(froms, {}) == |froms|
  {
    if froms != [] {
      UnmetNone(froms[..|froms| - 1]);
    }
  }

  /** Meeting one more dependency lowers the count by its multiplicity. */
  lemma {:induction false} UnmetDrops(froms: seq<string>, met: set<string>, id: string)
    requires id !in met
    ensures Unmet(froms, met) == Unmet(froms, met + {id}) + multiset(froms)[id]
  {
    if froms != [] {
      var front, last := froms[..|froms| - 1], froms[|froms| - 1];
      UnmetDrops(front, met, id);
      assert multiset(froms) == multiset(front) + multiset{last} by {
        assert froms == front + [last];
      }
    }
  }

  lemma {:induction false} UnmetZero(froms: seq<string>, met: set<string>)
    ensures Unmet(froms, met) == 0 <==> forall p :: p in froms ==> p in met
  {
    if froms != [] {
      var front, last := froms[..|froms| - 1], froms[|froms| - 1];
      UnmetZero(front, met);
      assert froms == front + [last];
    }
  }

  /** Both endpoints of every dependency are nodes. */
  ghost predicate KnownEndpoints(ids: set<string>, deps: Preds) {
    forall v :: v in deps ==> v in ids && forall p :: p in deps[v] ==> p in ids
  }

  /** How often `v` is listed under `u`. */
  function Times(g: Preds, u: string, v: string): nat {
    multiset(PredsOf(g, u))[v]
  }

  /** `adj` is `deps` turned around, with multiplicity, for the targets in `done`. */
  ghost predicate Reversed(deps: Preds, adj: Preds, done: set<string>) {
    forall u, v :: Times(adj, u, v) == if v in done then Times(deps, v, u) else 0
  }

  /** The inner loop: list `to` once under each of its dependencies. */
  method ListUnder(adj0: Preds, to: string, froms: seq<string>) returns (adj: Preds)
    ensures forall u, v :: Times(adj, u, v) == Times(adj0, u, v) + if v == to then multiset(froms)[u] else 0
  {
    adj := adj0;
    for i := 0 to |froms|
      invariant forall u, v :: Times(adj, u, v) == Times(adj0, u, v) + if v == to then multiset(froms[..i])[u] else 0
    {
      assert froms[..i + 1] == froms[..i] + [froms[i]];
      adj := adj[froms[i] := PredsOf(adj, froms[i]) + [to]];
    }
    assert froms[..|froms|] == froms;
  }

  method CountAndReverse(ids: set<string>, deps: Preds) returns (indegree: map<string, int>, adj: Preds)
    requires KnownEndpoints(ids, deps)
    ensures indegree.Keys == ids && forall v :: v in ids ==> indegree[v] == |PredsOf(deps, v)|
    ensures Reversed(deps, adj, deps.Keys)
  {
    indegree, adj := map id | id in ids :: 0, map[];
    var left := deps.Keys;
    while left != {}
      invariant left <= deps.Keys && indegree.Keys == ids
      invariant forall v :: v in ids ==> indegree[v] == if v in deps && v !in left then |deps[v]| else 0
      invariant Reversed(deps, adj, deps.Keys - left)
      decreases left
    {
      var to :| to in left;
      indegree := indegree[to := indegree[to] + |deps[to]|];
      adj := ListUnder(adj, to, deps[to]);
      left := left - {to};
    }
    assert deps.Keys - left == deps.Keys;
  }

  /** What holds whenever the work list is looked at: `met` has been resolved in the order
      `rank` records, and the work list holds exactly the unresolved nodes with nothing unmet. */
  ghost predicate Sorting(ids: set<string>, deps: Preds, indegree: map<string, int>, queue: seq<string>,
                          met: set<string>, rank: map<string, nat>)
  {
    && indegree.Keys == ids && met <= ids
    && NoDup(queue)
    && (forall v :: v in queue ==> v in ids && v !in met)
    && (forall v :: v in ids ==> indegree[v] == Unmet(PredsOf(deps, v), met))
    && (forall v :: v in ids && v !in met ==> (indegree[v] == 0 <==> v in queue))
    && Ranked(deps, met, rank)
  }

  /** Everything in `met` comes after its dependencies. */
  ghost predicate Ranked(deps: Preds, met: set<string>, rank: map<string, nat>) {
    && rank.Keys == met
    && (forall v, p {:trigger p in PredsOf(deps, v)} :: v in met && p in PredsOf(deps, v) ==>
          p in met && rank[p] < rank[v])
    && (forall v :: v in met ==> rank[v] < |met|)
  }

  lemma RankNext(deps: Preds, met: set<string>, rank: map<string, nat>, id: string)
    requires Ranked(deps, met, rank) && id !in met
    requires forall p :: p in PredsOf(deps, id) ==> p in met
    ensures Ranked(deps, met + {id}, rank[id := |met|])
  {
    assert |met + {id}| == |met| + 1;
  }

  /** Occurrences of `v` among `nexts[k..]`. */
  function Ahead(nexts: seq<string>, k: nat, v: string): nat
    requires k <= |nexts|
  {
    multiset(nexts[k..])[v]
  }

  lemma AheadNext(nexts: seq<string>, k: nat)
    requires k < |nexts|
    ensures forall v :: Ahead(nexts, k, v) == Ahead(nexts, k + 1, v) + if v == nexts[k] then 1 else 0
  {
    assert nexts[k..] == [nexts[k]] + nexts[k + 1..];
  }

  /** Every indegree exceeds `need` by what `nexts` will lower. */
  ghost predicate Ready(nexts: seq<string>, indegree: map<string, int>, queue: seq<string>, need: map<string, nat>,
                        met: set<string>)
  {
    && need.Keys == indegree.Keys && NoDup(queue)
    && (forall v :: v in nexts ==> v in indegree)
    && (forall v :: v in indegree ==> indegree[v] == need[v] + Ahead(nexts, 0, v))
    && (forall v :: v in indegree && v in met ==> indegree[v] == 0)
    && (forall v :: v in queue <==> v in indegree && v !in met && indegree[v] == 0)
  }

  ghost predicate Lowered(indegree: map<string, int>, queue: seq<string>, need: map<string, nat>, met: set<string>) {
    && indegree == need && NoDup(queue)
    && (forall v :: v in queue <==> v in indegree && v !in met && indegree[v] == 0)
  }

  /** Lower the indegree of each of `nexts`, pushing those that reach zero. `need` is what
      each indegree must end at; resolved nodes (`met`) are at zero already. */
  method LowerSuccessors(nexts: seq<string>, indegree0: map<string, int>, queue0: seq<string>,
                         ghost need: map<string, nat>, ghost met: set<string>)
    returns (indegree: map<string, int>, queue: seq<string>)
    requires Ready(nexts, indegree0, queue0, need, met)
    ensures Lowered(indegree, queue, need, met)
  {
    indegree, queue := indegree0, queue0;
    for k := 0 to |nexts|
      invariant indegree.Keys == indegree0.Keys && NoDup(queue)
      invariant forall v :: v in indegree ==> indegree[v] == need[v] + Ahead(nexts, k, v)
      invariant forall v :: v in indegree && v in met ==> indegree[v] == 0
      invariant forall v :: v in queue <==> v in indegree && v !in met && indegree[v] == 0
    {
      var nxt := nexts[k];
      AheadNext(nexts, k);
      indegree := indegree[nxt := indegree[nxt] - 1];
      if indegree[nxt] == 0 {
        queue := queue + [nxt];
      }
    }
    assert forall v :: Ahead(nexts, |nexts|, v) == 0;
  }

  /** Pop a node and resolve it. */
  method Resolve(ids: set<string>, deps: Preds, adj: Preds, indegree0: map<string, int>, queue0: seq<string>,
                 ghost met: set<string>, ghost rank: map<string, nat>)
    returns (indegree: map<string, int>, queue: seq<string>, ghost rank': map<string, nat>)
    requires KnownEndpoints(ids, deps) && Reversed(deps, adj, deps.Keys) && queue0 != []
    requires Sorting(ids, deps, indegree0, queue0, met, rank)
    ensures Sorting(ids, deps, indegree, queue, met + {queue0[|queue0| - 1]}, rank')
  {
    var id := queue0[|queue0| - 1];
    queue := queue0[..|queue0| - 1];
    rank' := rank[id := |met|];
    ghost var met' := met + {id};
    ghost var need := StillUnmet(ids, deps, met');
    ReadyToLower(ids, deps, adj, indegree0, queue0, met, rank);
    indegree, queue := LowerSuccessors(PredsOf(adj, id), indegree0, queue, need, met');
    LoweredIsSorting(ids, deps, indegree, queue, met', rank');
  }

  lemma LoweredIsSorting(ids: set<string>, deps: Preds, indegree: map<string, int>, queue: seq<string>,
                         met: set<string>, rank: map<string, nat>)
    requires Lowered(indegree, queue, StillUnmet(ids, deps, met), met) && Ranked(deps, met, rank) && met <= ids
    ensures Sorting(ids, deps, indegree, queue, met, rank)
  {
  }

  lemma ReadyToLower(ids: set<string>, deps: Preds, adj: Preds, indegree: map<string, int>, queue: seq<string>,
                     met: set<string>, rank: map<string, nat>)
    requires KnownEndpoints(ids, deps) && Reversed(deps, adj, deps.Keys) && queue != []
    requires Sorting(ids, deps, indegree, queue, met, rank)
    ensures var id, rest := queue[|queue| - 1], queue[..|queue| - 1];
            && Ready(PredsOf(adj, id), indegree, rest, StillUnmet(ids, deps, met + {id}), met + {id})
            && Ranked(deps, met + {id}, rank[id := |met|]) && met + {id} <= ids
  {
    var id := queue[|queue| - 1];
    PopReady(ids, deps, indegree, queue, met, rank);
    RankNext(deps, met, rank, id);
    BeforeLowering(ids, deps, adj, indegree, met, id);
  }

  ghost function StillUnmet(ids: set<string>, deps: Preds, met: set<string>): map<string, nat> {
    map v | v in ids :: Unmet(PredsOf(deps, v), met)
  }

  lemma BeforeLowering(ids: set<string>, deps: Preds, adj: Preds, indegree: map<string, int>, met: set<string>,
                       id: string)
    requires KnownEndpoints(ids, deps) && Reversed(deps, adj, deps.Keys) && id !in met
    requires indegree.Keys == ids && forall v :: v in ids ==> indegree[v] == Unmet(PredsOf(deps, v), met)
    ensures forall v :: v in PredsOf(adj, id) ==> v in ids
    ensures forall v :: v in ids ==> indegree[v] == StillUnmet(ids, deps, met + {id})[v] + Ahead(PredsOf(adj, id), 0, v)
  {
    SuccessorsOf(ids, deps, adj, met, id);
    assert PredsOf(adj, id)[0..] == PredsOf(adj, id);
  }

  lemma PopReady(ids: set<string>, deps: Preds, indegree: map<string, int>, queue: seq<string>, met: set<string>,
                 rank: map<string, nat>)
    requires Sorting(ids, deps, indegree, queue, met, rank) && queue != []
    ensures var id, rest := queue[|queue| - 1], queue[..|queue| - 1];
            && id in ids && id !in met && NoDup(rest)
            && (forall p :: p in PredsOf(deps, id) ==> p in met)
            && (forall v :: v in met + {id} ==> indegree[v] == 0)
            && (forall v :: v in rest <==> v in ids && v !in met + {id} && indegree[v] == 0)
  {
    var id, rest := queue[|queue| - 1], queue[..|queue| - 1];
    assert queue == rest + [id];
    assert id !in rest;
    UnmetZero(PredsOf(deps, id), met);
    forall v | v in met
      ensures Unmet(PredsOf(deps, v), met) == 0
    {
      UnmetZero(PredsOf(deps, v), met);
    }
  }

  /** The successors of `id`, with multiplicity, are what meeting `id` still has to lower. */
  lemma SuccessorsOf(ids: set<string>, deps: Preds, adj: Preds, met: set<string>, id: string)
    requires KnownEndpoints(ids, deps) && Reversed(deps, adj, deps.Keys) && id !in met
    ensures forall v :: Unmet(PredsOf(deps, v), met) == Unmet(PredsOf(deps, v), met + {id}) + Times(adj, id, v)
    ensures forall v :: v in PredsOf(adj, id) ==> v in ids
  {
    forall v
      ensures Unmet(PredsOf(deps, v), met) == Unmet(PredsOf(deps, v), met + {id}) + Times(adj, id, v)
    {
      UnmetDrops(PredsOf(deps, v), met, id);
      assert Times(adj, id, v) == if v in deps then Times(deps, v, id) else 0;
    }
    forall v | v in PredsOf(adj, id)
      ensures v in ids
    {
      assert Times(adj, id, v) > 0;
    }
  }

  /** The nodes without dependencies, in the order the map happens to yield them. */
  method InitialQueue(ids: set<string>, deps: Preds, indegree: map<string, int>) returns (queue: seq<string>)
    requires indegree.Keys == ids && forall v :: v in ids ==> indegree[v] == |PredsOf(deps, v)|
    ensures Sorting(ids, deps, indegree, queue, {}, map[])
  {
    queue := [];
    var left := ids;
    while left != {}
      invariant left <= ids && NoDup(queue)
      invariant forall v :: v in queue <==> v in ids && v !in left && indegree[v] == 0
      decreases left
    {
      var id :| id in left;
      left := left - {id};
      if indegree[id] == 0 {
        queue := queue + [id];
      }
    }
    forall v
      ensures Unmet(PredsOf(deps, v), {}) == |PredsOf(deps, v)|
    {
      UnmetNone(PredsOf(deps, v));
    }
  }

  /** "" exactly when the dependencies are acyclic; otherwise a node that is on a cycle or
      depends on one. Requires what the caller has checked: known endpoints, no empty id. */
  method FindCycle(ids: set<string>, deps: Preds) returns (r: string)
    requires "" !in ids && KnownEndpoints(ids, deps)
    ensures r == "" <==> Acyclic(deps)
    ensures r != "" ==> r in ids && TouchesCycle(deps, r)
  {
    var indegree, adj := CountAndReverse(ids, deps);
    var queue := InitialQueue(ids, deps, indegree);
    var resolved := 0;
    ghost var met: set<string>, rank: map<string, nat> := {}, map[];
    while |queue| > 0
      invariant Sorting(ids, deps, indegree, queue, met, rank)
      invariant resolved == |met|
      decreases ids - met
    {
      ghost var id := queue[|queue| - 1];
      indegree, queue, rank := Resolve(ids, deps, adj, indegree, queue, met, rank);
      met := met + {id};
      resolved := resolved + 1;
    }
    StuckNodesTouchCycles(ids, deps, indegree, met, rank);
    if resolved == |ids| {
      AllResolved(ids, deps, met, rank);
      return "";
    }
    r := FirstStuck(indegree);
    TouchesCycleRefutes(deps, r);
  }

  /** The last loop names some node that is still waiting, and falls through to "" only when
      there is none. */
  method FirstStuck(indegree: map<string, int>) returns (r: string)
    requires "" !in indegree
    ensures r != "" ==> r in indegree && indegree[r] > 0
    ensures r == "" ==> forall v :: v in indegree ==> indegree[v] <= 0
  {
    var left := indegree.Keys;
    while left != {}
      invariant left <= indegree.Keys
      invariant forall v :: v in indegree && v !in left ==> indegree[v] <= 0
      decreases left
    {
      var id :| id in left;
      left := left - {id};
      if indegree[id] > 0 {
        return id;
      }
    }
    return "";
  }

  /** An exhausted work list leaves only nodes with a positive indegree, which wait for
      each other. */
  lemma StuckNodesFeedEachOther(ids: set<string>, deps: Preds, indegree: map<string, int>, met: set<string>,
                                rank: map<string, nat>)
    requires KnownEndpoints(ids, deps) && Sorting(ids, deps, indegree, [], met, rank)
    ensures forall v :: v in ids ==> (indegree[v] > 0 <==> v !in met)
    ensures SelfFeeding(deps, ids - met)
  {
    forall v | v in ids
      ensures indegree[v] > 0 <==> v !in met
      ensures v !in met ==> FedFrom(deps, v, ids - met)
    {
      UnmetZero(PredsOf(deps, v), met);
    }
  }

  lemma StuckNodesTouchCycles(ids: set<string>, deps: Preds, indegree: map<string, int>, met: set<string>,
                              rank: map<string, nat>)
    requires KnownEndpoints(ids, deps) && Sorting(ids, deps, indegree, [], met, rank)
    ensures forall v :: v in ids && indegree[v] > 0 ==> TouchesCycle(deps, v)
    ensures met != ids ==> exists v :: v in ids && indegree[v] > 0
  {
    StuckNodesFeedEachOther(ids, deps, indegree, met, rank);
    forall v | v in ids && indegree[v] > 0
      ensures TouchesCycle(deps, v)
    {
      SelfFeedingTouchesCycle(deps, ids - met, v);
    }
    if met != ids {
      var v :| v in ids && v !in met;
      assert indegree[v] > 0;
    }
  }

  /** When as many nodes were resolved as there are, all were, in dependency order. */
  lemma AllResolved(ids: set<string>, deps: Preds, met: set<string>, rank: map<string, nat>)
    requires KnownEndpoints(ids, deps) && met <= ids && |met| == |ids| && Ranked(deps, met, rank)
    ensures met == ids && Acyclic(deps)
  {
    assert |ids - met| == |ids| - |met|;
    assert ids - met == {};
    assert met == ids - (ids - met);
    forall v, p {:trigger p in PredsOf(deps, v)} | p in PredsOf(deps, v)
      ensures p in rank && v in rank && rank[p] < rank[v]
    {
      assert v in met;
    }
    RankedIsAcyclic(deps, rank);
  }

  /** An accepted submission never wedges: while some node is incomplete, some incomplete
      node has all its dependencies complete. */
  lemma AcceptedNeverWedges(ids: set<string>, deps: Preds, completed: set<string>)
    requires KnownEndpoints(ids, deps) && Acyclic(deps) && completed < ids
    ensures exists v :: v in ids && v !in completed && forall p :: p in PredsOf(deps, v) ==> p in completed
  {
    var next :| next in ids && next !in completed;
    assert next in ids - completed;
    AcyclicHasSource(deps, ids - completed);
    var v :| v in ids - completed && !FedFrom(deps, v, ids - completed);
    assert forall p :: p in PredsOf(deps, v) ==> p in completed;
  }
}
