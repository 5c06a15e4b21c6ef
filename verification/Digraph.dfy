/** Predecessor graphs: dependency walks, cycles, and why a set closed under
    "has a predecessor inside" must contain a cycle. Used for both graph engines. */
module Digraph {
  import opened Basics

  type Preds = map<string, seq<string>>

  function PredsOf(g: Preds, v: string): seq<string> {
    if v in g then g[v] else []
  }

  /** `w` goes backwards along dependencies: every element depends on the next one. */
  ghost predicate Walk(g: Preds, w: seq<string>) {
    forall i :: 0 <= i < |w| - 1 ==> Hop(g, w, i)
  }

  ghost predicate Hop(g: Preds, w: seq<string>, i: nat)
    requires i + 1 < |w|
  {
    w[i + 1] in PredsOf(g, w[i])
  }

  /** A walk of at least one step that returns to where it began. */
  ghost predicate Cycle(g: Preds, w: seq<string>) {
    |w| >= 2 && w[0] == w[|w| - 1] && Walk(g, w)
  }

  ghost predicate Acyclic(g: Preds) {
    forall w :: !Cycle(g, w)
  }

  /** `v` is on a cycle or depends, through some walk, on a node that is. */
  ghost predicate TouchesCycle(g: Preds, v: string) {
    exists w, c :: |w| >= 1 && w[0] == v && Walk(g, w) && Cycle(g, c) && c[0] == w[|w| - 1]
  }

  /** Some walk leads from `v` back to `x`, at least the one that stays there. */
  ghost predicate DependsOn(g: Preds, v: string, x: string) {
    exists w :: WalksTo(g, w, v, x)
  }

  ghost predicate WalksTo(g: Preds, w: seq<string>, v: string, x: string) {
    |w| >= 1 && w[0] == v && w[|w| - 1] == x && Walk(g, w)
  }

  /** Every member of `s` has a predecessor in `s`. */
  ghost predicate SelfFeeding(g: Preds, s: set<string>) {
    forall v {:trigger FedFrom(g, v, s)} :: v in s ==> FedFrom(g, v, s)
  }

  ghost predicate FedFrom(g: Preds, v: string, s: set<string>) {
    exists p :: p in PredsOf(g, v) && p in s
  }

  /** In a self-feeding set one can walk backwards for as long as one likes. */
  lemma {:induction false} LongWalk(g: Preds, s: set<string>, v: string, n: nat) returns (w: seq<string>)
    requires v in s && SelfFeeding(g, s)
    ensures |w| == n + 1 && w[0] == v && Walk(g, w) && Elements(w) <= s
    decreases n
  {
    if n == 0 {
      w := [v];
    } else {
      assert FedFrom(g, v, s);
      var p :| p in PredsOf(g, v) && p in s;
      var rest := LongWalk(g, s, p, n - 1);
      w := [v] + rest;
      forall i | 0 <= i < |w| - 1
        ensures Hop(g, w, i)
      {
        if i > 0 {
          assert Hop(g, rest, i - 1);
        }
      }
    }
  }

  /** Pigeonhole: a node of a self-feeding set reaches a cycle going backwards. */
  lemma {:induction false} SelfFeedingTouchesCycle(g: Preds, s: set<string>, v: string)
    requires v in s && SelfFeeding(g, s)
    ensures TouchesCycle(g, v)
  {
    var w := LongWalk(g, s, v, |s|);
    if NoDup(w) {
      NoDupBound(w, s);
      assert false;
    }
    var i, j :| 0 <= i < j < |w| && w[i] == w[j];
    var c := w[i..j + 1];
    var lead := w[..i + 1];
    PartOfWalk(g, w, i, j + 1);
    PartOfWalk(g, w, 0, i + 1);
    assert c[0] == w[i] == lead[|lead| - 1] && c[|c| - 1] == w[j];
    assert Cycle(g, c);
  }

  lemma PartOfWalk(g: Preds, w: seq<string>, from: nat, to: nat)
    requires Walk(g, w) && from <= to <= |w|
    ensures Walk(g, w[from..to])
  {
    var part := w[from..to];
    forall k | 0 <= k < |part| - 1
      ensures Hop(g, part, k)
    {
      assert Hop(g, w, from + k);
      assert part[k] == w[from + k] && part[k + 1] == w[from + k + 1];
    }
  }

  /** In an acyclic graph every non-empty set has a member with no predecessor in the set. */
  lemma {:induction false} AcyclicHasSource(g: Preds, s: set<string>)
    requires Acyclic(g) && s != {}
    ensures exists v :: v in s && !FedFrom(g, v, s)
  {
    if SelfFeeding(g, s) {
      var v :| v in s;
      SelfFeedingTouchesCycle(g, s, v);
      assert false;
    }
  }

  /** Dependencies of ranked nodes are ranked, strictly below them. */
  ghost predicate RanksFall(g: Preds, rank: map<string, nat>) {
    forall v, p {:trigger p in PredsOf(g, v)} :: v in rank && p in PredsOf(g, v) ==> p in rank && rank[p] < rank[v]
  }

  lemma {:induction false} WalkFalls(g: Preds, rank: map<string, nat>, w: seq<string>, n: nat)
    requires RanksFall(g, rank) && Walk(g, w) && n < |w| && w[0] in rank
    ensures w[n] in rank && rank[w[n]] + n <= rank[w[0]]
    decreases n
  {
    if n > 0 {
      WalkFalls(g, rank, w, n - 1);
      assert Hop(g, w, n - 1);
    }
  }

  /** Going back from a ranked node one stays among them and meets no cycle. */
  lemma RankedAvoidsCycles(g: Preds, rank: map<string, nat>, v: string)
    requires RanksFall(g, rank) && v in rank
    ensures !TouchesCycle(g, v)
    ensures forall x :: DependsOn(g, v, x) ==> x in rank
  {
    forall x | DependsOn(g, v, x)
      ensures x in rank
    {
      var w :| WalksTo(g, w, v, x);
      WalkFalls(g, rank, w, |w| - 1);
    }
    if TouchesCycle(g, v) {
      var w, c :| |w| >= 1 && w[0] == v && Walk(g, w) && Cycle(g, c) && c[0] == w[|w| - 1];
      WalkFalls(g, rank, w, |w| - 1);
      WalkFalls(g, rank, c, |c| - 1);
    }
  }

  /** A ranking that grows along every dependency excludes cycles. */
  lemma {:induction false} RankedIsAcyclic(g: Preds, rank: map<string, nat>)
    requires forall v, p {:trigger p in PredsOf(g, v)} :: p in PredsOf(g, v) ==>
              p in rank && v in rank && rank[p] < rank[v]
    ensures Acyclic(g)
  {
    forall w
      ensures !Cycle(g, w)
    {
      if Cycle(g, w) {
        assert Hop(g, w, 0);
        WalkFalls(g, rank, w, |w| - 1);
      }
    }
  }

  /** A node that touches a cycle refutes acyclicity, and conversely. */
  lemma TouchesCycleRefutes(g: Preds, v: string)
    requires TouchesCycle(g, v)
    ensures !Acyclic(g)
  {
    var w, c :| |w| >= 1 && w[0] == v && Walk(g, w) && Cycle(g, c) && c[0] == w[|w| - 1];
    assert Cycle(g, c);
  }

  lemma DependsOnItself(g: Preds, v: string)
    ensures DependsOn(g, v, v)
  {
    assert WalksTo(g, [v], v, v);
  }

  /** One more step at the front of a walk. */
  lemma WalkFrom(g: Preds, v: string, w: seq<string>)
    requires |w| >= 1 && Walk(g, w) && w[0] in PredsOf(g, v)
    ensures Walk(g, [v] + w)
  {
    var longer := [v] + w;
    forall i | 0 <= i < |longer| - 1
      ensures Hop(g, longer, i)
    {
      if i > 0 {
        assert Hop(g, w, i - 1);
      }
    }
  }

  lemma DependsOnThrough(g: Preds, v: string, p: string, x: string)
    requires p in PredsOf(g, v) && DependsOn(g, p, x)
    ensures DependsOn(g, v, x)
  {
    var w :| WalksTo(g, w, p, x);
    WalkFrom(g, v, w);
    assert WalksTo(g, [v] + w, v, x);
  }

  /** A walk of at least one step, without its first. */
  lemma StepBack(g: Preds, w: seq<string>)
    requires |w| >= 2 && Walk(g, w)
    ensures w[1] in PredsOf(g, w[0]) && Walk(g, w[1..])
  {
    assert Hop(g, w, 0);
    PartOfWalk(g, w, 1, |w|);
    assert w[1..] == w[1..|w|];
  }

  /** Whatever depends on another node does so through one of its predecessors. */
  lemma DependsVia(g: Preds, v: string, x: string) returns (p: string)
    requires DependsOn(g, v, x) && v != x
    ensures p in PredsOf(g, v) && DependsOn(g, p, x)
  {
    var w :| WalksTo(g, w, v, x);
    StepBack(g, w);
    p := w[1];
    assert WalksTo(g, w[1..], p, x);
  }

  /** Whatever depends on a node that touches a cycle does so too. */
  lemma TouchesThrough(g: Preds, v: string, p: string)
    requires p in PredsOf(g, v) && TouchesCycle(g, p)
    ensures TouchesCycle(g, v)
  {
    var w, c :| |w| >= 1 && w[0] == p && Walk(g, w) && Cycle(g, c) && c[0] == w[|w| - 1];
    WalkFrom(g, v, w);
    var longer := [v] + w;
    assert longer[|longer| - 1] == c[0];
  }

  /** The way back to a cycle begins with a predecessor that touches it. */
  lemma BeforeCycle(g: Preds, v: string) returns (p: string)
    requires TouchesCycle(g, v)
    ensures p in PredsOf(g, v) && TouchesCycle(g, p)
  {
    var w, c :| |w| >= 1 && w[0] == v && Walk(g, w) && Cycle(g, c) && c[0] == w[|w| - 1];
    if |w| >= 2 {
      StepBack(g, w);
      p := w[1];
      assert w[1..][|w[1..]| - 1] == c[0];
    } else {
      StepBack(g, c);
      p := c[1];
      assert c[1..][|c[1..]| - 1] == c[0];
    }
  }

  /** A set closed under predecessors is never left by walking back from it. */
  lemma {:induction false} WalkStays(g: Preds, s: set<string>, w: seq<string>, n: nat)
    requires Walk(g, w) && n < |w| && w[0] in s
    requires forall v, p {:trigger p in PredsOf(g, v)} :: v in s && p in PredsOf(g, v) ==> p in s
    ensures w[n] in s
    decreases n
  {
    if n > 0 {
      WalkStays(g, s, w, n - 1);
      assert Hop(g, w, n - 1);
    }
  }

  lemma DependsWithin(g: Preds, s: set<string>, v: string, x: string)
    requires v in s && DependsOn(g, v, x)
    requires forall u, p {:trigger p in PredsOf(g, u)} :: u in s && p in PredsOf(g, u) ==> p in s
    ensures x in s
  {
    var w :| WalksTo(g, w, v, x);
    WalkStays(g, s, w, |w| - 1);
  }
}
