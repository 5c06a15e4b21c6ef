/** Heading-delimited sections and their breadcrumbs: a stack of open headings, popped down to
    the level of each new one. */
module Sections {
  import opened Markdown

  datatype Section = Section(path: seq<string>, level: nat, blocks: seq<Block>)

  function Headings(blocks: seq<Block>): seq<Block> {
    if blocks == [] then []
    else
      var rest, b := Headings(blocks[..|blocks| - 1]), blocks[|blocks| - 1];
      if b.kind.Heading? then rest + [b] else rest
  }

  // ---- which headings are open -----------------------------------------------------------------

  /** Every later heading is strictly deeper. */
  predicate Exposed(hs: seq<Block>, i: nat)
    requires i < |hs|
  {
    forall j | i < j < |hs| :: hs[i].level < hs[j].level
  }

  function VisibleUpTo(hs: seq<Block>, n: nat): seq<Block>
    requires n <= |hs|
  {
    if n == 0 then [] else VisibleUpTo(hs, n - 1) + if Exposed(hs, n - 1) then [hs[n - 1]] else []
  }

  /** The headings still open after `hs`: exactly the exposed ones, in order. */
  function Visible(hs: seq<Block>): seq<Block> {
    VisibleUpTo(hs, |hs|)
  }

  function Shallower(stack: seq<Block>, level: nat): seq<Block> {
    if stack == [] then []
    else
      var rest, b := Shallower(stack[..|stack| - 1], level), stack[|stack| - 1];
      if b.level < level then rest + [b] else rest
  }

  ghost predicate Increasing(stack: seq<Block>) {
    forall i, j :: 0 <= i < j < |stack| ==> stack[i].level < stack[j].level
  }

  lemma PushShallower(stack: seq<Block>, b: Block, level: nat)
    ensures Shallower(stack + [b], level) == Shallower(stack, level) + if b.level < level then [b] else []
  {
    assert (stack + [b])[..|stack|] == stack;
  }

  lemma {:induction false} VisibleAfter(hs: seq<Block>, b: Block, n: nat)
    requires n <= |hs|
    ensures VisibleUpTo(hs + [b], n) == Shallower(VisibleUpTo(hs, n), b.level)
    decreases n
  {
    if n > 0 {
      VisibleAfter(hs, b, n - 1);
      var longer := hs + [b];
      assert longer[|hs|] == b && forall j :: 0 <= j < |hs| ==> longer[j] == hs[j];
      assert Exposed(longer, n - 1) <==> Exposed(hs, n - 1) && hs[n - 1].level < b.level;
      var before := VisibleUpTo(hs, n - 1);
      assert (before + [hs[n - 1]])[..|before|] == before;
      assert before + [] == before;
      if Exposed(hs, n - 1) {
        PushShallower(before, hs[n - 1], b.level);
      }
    }
  }

  /** A new heading closes every open one that is not strictly shallower, and opens itself. */
  lemma PushVisible(hs: seq<Block>, b: Block)
    ensures Visible(hs + [b]) == Shallower(Visible(hs), b.level) + [b]
  {
    VisibleAfter(hs, b, |hs|);
    assert (hs + [b])[|hs|] == b;
  }

  lemma {:induction false} VisibleIncreases(hs: seq<Block>, n: nat)
    requires n <= |hs|
    ensures Increasing(VisibleUpTo(hs, n))
    ensures forall k, m :: 0 <= k < |VisibleUpTo(hs, n)| && n <= m < |hs| ==> VisibleUpTo(hs, n)[k].level < hs[m].level
    ensures forall b :: b in VisibleUpTo(hs, n) ==> b in hs
    decreases n
  {
    if n > 0 {
      VisibleIncreases(hs, n - 1);
    }
  }

  lemma {:induction false} IncreasingDepth(stack: seq<Block>, k: nat)
    requires Increasing(stack) && k < |stack| && stack[0].level >= 1
    ensures stack[k].level >= k + 1
    decreases k
  {
    if k > 0 {
      IncreasingDepth(stack, k - 1);
    }
  }

  /** Open headings have strictly increasing levels, so with levels 1 to 6 at most six. */
  lemma BreadcrumbDepth(hs: seq<Block>)
    ensures Increasing(Visible(hs))
    ensures (forall b :: b in hs ==> 1 <= b.level <= 6) ==> |Visible(hs)| <= 6
  {
    var stack := Visible(hs);
    VisibleIncreases(hs, |hs|);
    if (forall b :: b in hs ==> 1 <= b.level <= 6) && stack != [] {
      assert stack[0] in hs && stack[|stack| - 1] in hs;
      IncreasingDepth(stack, |stack| - 1);
    }
  }

  // ---- the stack of the code ----------------------------------------------------------------------

  lemma PopKeeps(stack: seq<Block>, level: nat)
    requires stack != [] && stack[|stack| - 1].level >= level
    ensures Shallower(stack, level) == Shallower(stack[..|stack| - 1], level)
  {
  }

  lemma {:induction false} NothingToPop(stack: seq<Block>, level: nat)
    requires Increasing(stack) && (stack == [] || stack[|stack| - 1].level < level)
    ensures Shallower(stack, level) == stack
    decreases |stack|
  {
    if stack != [] {
      NothingToPop(stack[..|stack| - 1], level);
    }
  }

  /** Pop every heading that is not strictly shallower than `b`, then push `b`. */
  method OpenHeading(stack0: seq<Block>, b: Block) returns (stack: seq<Block>)
    requires Increasing(stack0)
    ensures stack == Shallower(stack0, b.level) + [b] && Increasing(stack)
  {
    stack := stack0;
    while |stack| > 0 && stack[|stack| - 1].level >= b.level
      invariant Increasing(stack) && Shallower(stack, b.level) == Shallower(stack0, b.level)
    {
      PopKeeps(stack, b.level);
      stack := stack[..|stack| - 1];
    }
    NothingToPop(stack, b.level);
    stack := stack + [b];
  }

  // ---- breadcrumbs ----------------------------------------------------------------------------------

  function Titles(stack: seq<Block>): seq<string> {
    if stack == [] then [] else Titles(stack[..|stack| - 1]) + [stack[|stack| - 1].title]
  }

  /** The titles of the open headings; the document title comes first unless it is the top one's. */
  function Breadcrumb(title: string, stack: seq<Block>): seq<string> {
    (if stack == [] || stack[0].title != title then [title] else []) + Titles(stack)
  }

  method HeadingPath(title: string, stack: seq<Block>) returns (path: seq<string>)
    ensures path == Breadcrumb(title, stack)
  {
    path := [];
    if |stack| == 0 || stack[0].title != title {
      path := path + [title];
    }
    ghost var head := path;
    for i := 0 to |stack|
      invariant path == head + Titles(stack[..i])
    {
      assert stack[..i + 1][..i] == stack[..i];
      path := path + [stack[i].title];
    }
    assert stack[..|stack|] == stack;
  }

  /** A breadcrumb always begins with the document title, and never repeats it at the top. */
  lemma {:induction false} BreadcrumbStartsWithTitle(title: string, stack: seq<Block>)
    ensures Breadcrumb(title, stack) != [] && Breadcrumb(title, stack)[0] == title
    ensures |Breadcrumb(title, stack)| == |stack| + if stack != [] && stack[0].title == title then 0 else 1
  {
    TitlesExact(stack);
  }

  lemma {:induction false} TitlesExact(stack: seq<Block>)
    ensures |Titles(stack)| == |stack| && forall k :: 0 <= k < |stack| ==> Titles(stack)[k] == stack[k].title
    decreases |stack|
  {
    if stack != [] {
      TitlesExact(stack[..|stack| - 1]);
    }
  }

  // ---- sections -------------------------------------------------------------------------------------

  function BlocksOf(sections: seq<Section>): seq<Block> {
    if sections == [] then [] else BlocksOf(sections[..|sections| - 1]) + sections[|sections| - 1].blocks
  }

  /** A section starting at block `off`: one heading and what follows up to the next, under the
      breadcrumb of the headings open there; or the preamble. */
  ghost predicate SectionOk(title: string, blocks: seq<Block>, off: nat, sec: Section) {
    && sec.blocks != [] && off < |blocks|
    && (forall j :: 0 < j < |sec.blocks| ==> !sec.blocks[j].kind.Heading?)
    && if sec.blocks[0].kind.Heading?
       then sec.level == sec.blocks[0].level && sec.path == Breadcrumb(title, Visible(Headings(blocks[..off + 1])))
       else off == 0 && sec.level == 0 && sec.path == [title]
  }

  ghost predicate SectionsOk(title: string, blocks: seq<Block>, sections: seq<Section>) {
    if sections == [] then true
    else
      var front := sections[..|sections| - 1];
      SectionsOk(title, blocks, front) && SectionOk(title, blocks, |BlocksOf(front)|, sections[|sections| - 1])
  }

  lemma SectionsNext(title: string, blocks: seq<Block>, sections: seq<Section>, sec: Section)
    requires SectionsOk(title, blocks, sections) && SectionOk(title, blocks, |BlocksOf(sections)|, sec)
    ensures SectionsOk(title, blocks, sections + [sec]) && BlocksOf(sections + [sec]) == BlocksOf(sections) + sec.blocks
  {
    assert (sections + [sec])[..|sections|] == sections;
  }

  /** The section being collected when block `i` is reached. */
  ghost predicate Open(title: string, blocks: seq<Block>, i: nat, sections: seq<Section>, cur: Section)
    requires i <= |blocks|
  {
    && SectionsOk(title, blocks, sections)
    && BlocksOf(sections) + cur.blocks == blocks[..i]
    && (cur.blocks != [] ==> SectionOk(title, blocks, |BlocksOf(sections)|, cur))
    && (cur.blocks == [] ==> i == 0 && cur.level == 0 && cur.path == [title])
  }

  /** The sections partition the blocks in order, each with its exact breadcrumb. */
  method SplitSections(title: string, blocks: seq<Block>) returns (sections: seq<Section>)
    ensures BlocksOf(sections) == blocks && SectionsOk(title, blocks, sections)
  {
    sections := [];
    var stack: seq<Block> := [];
    var cur := Section([title], 0, []);
    for i := 0 to |blocks|
      invariant Open(title, blocks, i, sections, cur)
      invariant stack == Visible(Headings(blocks[..i])) && Increasing(stack)
    {
      var b := blocks[i];
      assert blocks[..i + 1] == blocks[..i] + [b];
      assert blocks[..i + 1][..i] == blocks[..i];
      if !b.kind.Heading? {
        cur := AddBlock(title, blocks, i, sections, cur);
        continue;
      }
      sections := Flush(title, blocks, i, sections, cur);
      PushVisible(Headings(blocks[..i]), b);
      stack := OpenHeading(stack, b);
      var path := HeadingPath(title, stack);
      cur := Section(path, b.level, [b]);
    }
    assert blocks[..|blocks|] == blocks;
    sections := Flush(title, blocks, |blocks|, sections, cur);
  }

  method AddBlock(title: string, blocks: seq<Block>, i: nat, ghost sections: seq<Section>, cur: Section)
    returns (cur': Section)
    requires i < |blocks| && !blocks[i].kind.Heading? && Open(title, blocks, i, sections, cur)
    ensures Open(title, blocks, i + 1, sections, cur')
  {
    cur' := cur.(blocks := cur.blocks + [blocks[i]]);
    assert blocks[..i + 1] == blocks[..i] + [blocks[i]];
    if cur.blocks == [] {
      assert BlocksOf(sections) == [];
    }
  }

  method Flush(title: string, blocks: seq<Block>, i: nat, sections0: seq<Section>, cur: Section)
    returns (sections: seq<Section>)
    requires i <= |blocks| && Open(title, blocks, i, sections0, cur)
    ensures SectionsOk(title, blocks, sections) && BlocksOf(sections) == blocks[..i]
  {
    sections := sections0;
    if |cur.blocks| > 0 {
      SectionsNext(title, blocks, sections, cur);
      sections := sections + [cur];
    }
  }
}
