/** Greedy packing of blocks into contiguous groups, and why no other split does better. */
module Packing {
  import opened Markdown

  function Cost(b: Block): nat {
    ByteLen(b.text) + 2
  }

  function Weight(blocks: seq<Block>): nat {
    if blocks == [] then 0 else Weight(blocks[..|blocks| - 1]) + Cost(blocks[|blocks| - 1])
  }

  function Flatten(groups: seq<seq<Block>>): seq<Block> {
    if groups == [] then [] else Flatten(groups[..|groups| - 1]) + groups[|groups| - 1]
  }

  /** A group is one block, however large, or fits. */
  predicate Fits(group: seq<Block>, maxChars: int) {
    |group| == 1 || (|group| > 1 && Weight(group) <= maxChars)
  }

  /** A split of `blocks` into contiguous groups that fit. */
  ghost predicate Splits(groups: seq<seq<Block>>, blocks: seq<Block>, maxChars: int) {
    Flatten(groups) == blocks && forall k :: 0 <= k < |groups| ==> Fits(groups[k], maxChars)
  }

  /** No group could have taken the block after it. */
  ghost predicate Maximal(groups: seq<seq<Block>>, maxChars: int) {
    forall k :: 0 <= k < |groups| - 1 ==> Full(groups, k, maxChars)
  }

  ghost predicate Full(groups: seq<seq<Block>>, k: nat, maxChars: int)
    requires k + 1 < |groups|
  {
    groups[k + 1] != [] && Weight(groups[k] + [groups[k + 1][0]]) > maxChars
  }

  lemma {:induction false} WeightJoin(a: seq<Block>, b: seq<Block>)
    ensures Weight(a + b) == Weight(a) + Weight(b)
    decreases |b|
  {
    if b == [] {
      assert a + b == a;
    } else {
      assert (a + b)[..|a + b| - 1] == a + b[..|b| - 1];
      WeightJoin(a, b[..|b| - 1]);
    }
  }

  lemma WeightWithin(blocks: seq<Block>, i: nat, j: nat, k: nat, l: nat)
    requires i <= j <= k <= l <= |blocks|
    ensures Weight(blocks[j..k]) <= Weight(blocks[i..l])
  {
    assert blocks[i..l] == blocks[i..j] + (blocks[j..k] + blocks[k..l]);
    WeightJoin(blocks[i..j], blocks[j..k] + blocks[k..l]);
    WeightJoin(blocks[j..k], blocks[k..l]);
  }

  /** Where group `k` starts. */
  function Cut(groups: seq<seq<Block>>, k: nat): nat
    requires k <= |groups|
  {
    |Flatten(groups[..k])|
  }

  lemma CutNext(groups: seq<seq<Block>>, k: nat)
    requires k < |groups|
    ensures Cut(groups, k + 1) == Cut(groups, k) + |groups[k]|
    ensures Flatten(groups[..k + 1]) == Flatten(groups[..k]) + groups[k]
  {
    assert groups[..k + 1][..k] == groups[..k];
  }

  lemma {:induction false} FlattenPrefix(groups: seq<seq<Block>>, k: nat)
    requires k <= |groups|
    ensures Cut(groups, k) <= |Flatten(groups)| && Flatten(groups)[..Cut(groups, k)] == Flatten(groups[..k])
    decreases |groups| - k
  {
    if k == |groups| {
      assert groups[..k] == groups;
    } else {
      FlattenPrefix(groups, k + 1);
      CutNext(groups, k);
      var all := Flatten(groups);
      assert all[..Cut(groups, k)] == all[..Cut(groups, k + 1)][..Cut(groups, k)];
    }
  }

  /** Group `k` is the slice between its cuts. */
  lemma GroupIsSlice(groups: seq<seq<Block>>, k: nat)
    requires k < |groups|
    ensures Cut(groups, k) <= Cut(groups, k + 1) <= |Flatten(groups)|
    ensures groups[k] == Flatten(groups)[Cut(groups, k)..Cut(groups, k + 1)]
  {
    FlattenPrefix(groups, k + 1);
    CutNext(groups, k);
    var all := Flatten(groups);
    assert all[..Cut(groups, k + 1)] == Flatten(groups[..k]) + groups[k];
    assert all[Cut(groups, k)..Cut(groups, k + 1)] == all[..Cut(groups, k + 1)][Cut(groups, k)..];
  }

  /** A slice around one that is too heavy, and longer than one block, does not fit. */
  lemma TooHeavy(blocks: seq<Block>, lo: nat, i: nat, j: nat, hi: nat, maxChars: int)
    requires lo <= i < j < hi <= |blocks| && Weight(blocks[i..j + 1]) > maxChars
    ensures !Fits(blocks[lo..hi], maxChars)
  {
    WeightWithin(blocks, lo, i, j + 1, hi);
  }

  /** What a full group and the block after it weigh, as a slice. */
  lemma FullSlice(groups: seq<seq<Block>>, blocks: seq<Block>, maxChars: int, k: nat)
    requires Splits(groups, blocks, maxChars) && Maximal(groups, maxChars) && k + 1 < |groups|
    ensures Cut(groups, k) < Cut(groups, k + 1) < |blocks|
    ensures Weight(blocks[Cut(groups, k)..Cut(groups, k + 1) + 1]) > maxChars
  {
    assert Fits(groups[k], maxChars) && Fits(groups[k + 1], maxChars) && Full(groups, k, maxChars);
    GroupIsSlice(groups, k);
    GroupIsSlice(groups, k + 1);
    CutNext(groups, k);
    CutNext(groups, k + 1);
    assert groups[k] + [groups[k + 1][0]] == blocks[Cut(groups, k)..Cut(groups, k + 1) + 1];
  }

  /** The maximal split stays ahead: its first `k` groups reach at least as far as any other's. */
  lemma {:induction false} StaysAhead(groups: seq<seq<Block>>, other: seq<seq<Block>>, blocks: seq<Block>,
                                      maxChars: int, k: nat)
    requires Splits(groups, blocks, maxChars) && Maximal(groups, maxChars)
    requires Splits(other, blocks, maxChars)
    requires k <= |groups| && k <= |other|
    ensures Cut(groups, k) >= Cut(other, k)
    decreases k
  {
    if k > 0 {
      StaysAhead(groups, other, blocks, maxChars, k - 1);
      GroupIsSlice(other, k - 1);
      assert Fits(other[k - 1], maxChars);
      if k == |groups| {
        assert groups[..k] == groups;
      } else {
        FullSlice(groups, blocks, maxChars, k - 1);
        if Cut(other, k) > Cut(groups, k) {
          TooHeavy(blocks, Cut(other, k - 1), Cut(groups, k - 1), Cut(groups, k), Cut(other, k), maxChars);
        }
      }
    }
  }

  /** No valid split into contiguous groups uses fewer groups than a maximal one. */
  lemma MaximalIsOptimal(groups: seq<seq<Block>>, other: seq<seq<Block>>, blocks: seq<Block>, maxChars: int)
    requires Splits(groups, blocks, maxChars) && Maximal(groups, maxChars)
    requires Splits(other, blocks, maxChars)
    ensures |groups| <= |other|
  {
    if |other| < |groups| {
      var k := |other|;
      assert Fits(groups[k], maxChars);
      GroupIsSlice(groups, k);
      CutNext(groups, k);
      assert other[..k] == other;
      StaysAhead(groups, other, blocks, maxChars, k);
    }
  }

  /** In particular blocks that fit together stay together. */
  lemma FittingStaysWhole(groups: seq<seq<Block>>, blocks: seq<Block>, maxChars: int)
    requires Splits(groups, blocks, maxChars) && Maximal(groups, maxChars)
    requires Fits(blocks, maxChars)
    ensures groups == [blocks]
  {
    var whole := [blocks];
    assert Flatten(whole) == Flatten(whole[..0]) + blocks == blocks;
    MaximalIsOptimal(groups, whole, blocks, maxChars);
    assert groups != [];
    assert groups == [groups[0]];
    assert Flatten(groups) == Flatten(groups[..0]) + groups[0] == groups[0];
  }

  /** What the current group weighs. */
  function Load(blocks: seq<Block>, start: nat, i: nat): nat
    requires start <= i <= |blocks|
  {
    Weight(blocks[start..i])
  }

  lemma LoadNext(blocks: seq<Block>, start: nat, i: nat)
    requires start <= i < |blocks|
    ensures Load(blocks, start, i + 1) == Load(blocks, start, i) + Cost(blocks[i])
    ensures Load(blocks, i, i) == 0
  {
    assert blocks[start..i + 1][..i - start] == blocks[start..i];
  }

  /** Before block `i`: the closed groups split what precedes `start`, and the current group
      fits so far. */
  ghost predicate Packing(groups: seq<seq<Block>>, blocks: seq<Block>, start: nat, i: nat, maxChars: int) {
    && start <= i <= |blocks| && (i > 0 ==> start < i)
    && Splits(groups, blocks[..start], maxChars) && Maximal(groups, maxChars)
    && (i - start > 1 ==> Load(blocks, start, i) <= maxChars)
    && (groups != [] ==> start < |blocks| && Weight(groups[|groups| - 1] + [blocks[start]]) > maxChars)
  }

  lemma CloseGroup(groups: seq<seq<Block>>, blocks: seq<Block>, start: nat, i: nat, maxChars: int)
    requires Packing(groups, blocks, start, i, maxChars) && start < i < |blocks|
    requires Load(blocks, start, i + 1) > maxChars
    ensures Packing(groups + [blocks[start..i]], blocks, i, i + 1, maxChars)
  {
    WithNext(blocks, start, i);
    Append(groups, blocks, start, i, maxChars);
  }

  /** The current group with the next block. */
  lemma WithNext(blocks: seq<Block>, start: nat, i: nat)
    requires start <= i < |blocks|
    ensures Weight(blocks[start..i] + [blocks[i]]) == Load(blocks, start, i + 1)
  {
    assert blocks[start..i] + [blocks[i]] == blocks[start..i + 1];
  }

  lemma GrowGroup(groups: seq<seq<Block>>, blocks: seq<Block>, start: nat, i: nat, maxChars: int)
    requires Packing(groups, blocks, start, i, maxChars) && i < |blocks|
    requires i == start || Load(blocks, start, i + 1) <= maxChars
    ensures Packing(groups, blocks, start, i + 1, maxChars)
  {
  }

  lemma LastGroup(groups: seq<seq<Block>>, blocks: seq<Block>, start: nat, maxChars: int)
    requires blocks != [] && Packing(groups, blocks, start, |blocks|, maxChars)
    ensures Splits(groups + [blocks[start..]], blocks, maxChars) && Maximal(groups + [blocks[start..]], maxChars)
  {
    Append(groups, blocks, start, |blocks|, maxChars);
    assert blocks[start..|blocks|] == blocks[start..];
    assert blocks[..|blocks|] == blocks;
  }

  /** One pass, closing a group only when the next block would overflow it. */
  method GroupBlocks(blocks: seq<Block>, maxChars: int) returns (groups: seq<seq<Block>>)
    ensures Splits(groups, blocks, maxChars) && Maximal(groups, maxChars)
  {
    groups := [];
    if |blocks| == 0 {
      return;
    }
    var start := 0;
    var curLen := 0;
    assert blocks[..0] == [];
    for i := 0 to |blocks|
      invariant Packing(groups, blocks, start, i, maxChars)
      invariant curLen == Load(blocks, start, i)
    {
      var blockLen := Cost(blocks[i]);
      LoadNext(blocks, start, i);
      if i > start && curLen + blockLen > maxChars {
        CloseGroup(groups, blocks, start, i, maxChars);
        groups := groups + [blocks[start..i]];
        start := i;
        curLen := 0;
        LoadNext(blocks, start, i);
      } else {
        GrowGroup(groups, blocks, start, i, maxChars);
      }
      curLen := curLen + blockLen;
    }
    LastGroup(groups, blocks, start, maxChars);
    groups := groups + [blocks[start..]];
  }

  /** Closing the current group extends the split and keeps it maximal. */
  lemma Append(groups: seq<seq<Block>>, blocks: seq<Block>, start: nat, i: nat, maxChars: int)
    requires start < i <= |blocks|
    requires Splits(groups, blocks[..start], maxChars) && Maximal(groups, maxChars)
    requires Fits(blocks[start..i], maxChars)
    requires groups != [] ==> Weight(groups[|groups| - 1] + [blocks[start]]) > maxChars
    ensures Splits(groups + [blocks[start..i]], blocks[..i], maxChars) && Maximal(groups + [blocks[start..i]], maxChars)
  {
    var longer := groups + [blocks[start..i]];
    assert longer[..|longer| - 1] == groups;
    assert blocks[..start] + blocks[start..i] == blocks[..i];
    forall k | 0 <= k < |longer| - 1
      ensures Full(longer, k, maxChars)
    {
      if k + 1 < |groups| {
        assert Full(groups, k, maxChars);
      }
    }
  }
}
