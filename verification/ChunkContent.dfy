/** What chunks read like: which texts their content is made of, in which order, and what stands
    between them. */
module ChunkContent {
  import opened Markdown
  import opened Sections
  import opened Packing
  import opened Chunker

  // ---- rendering ---------------------------------------------------------------------------------------

  function Texts(blocks: seq<Block>): seq<string> {
    seq(|blocks|, i requires 0 <= i < |blocks| => blocks[i].text)
  }

  /** The rendered text is the non-blank texts in document order, a blank line between any two
      neighbours. */
  lemma {:induction false} JoinLaysOut(blocks: seq<Block>) returns (off: seq<nat>)
    ensures LaidOut(JoinTexts(blocks), Texts(blocks), "\n\n", off)
    decreases |blocks|
  {
    if blocks == [] {
      off := [];
    } else if |blocks| == 1 {
      off := [0];
      LayOne(blocks[0].text, "\n\n");
      assert Texts(blocks) == [blocks[0].text];
    } else {
      var front, last := blocks[..|blocks| - 1], blocks[|blocks| - 1];
      off := JoinLaysOut(front);
      off := LayNext(JoinTexts(front), Texts(front), "\n\n", off, last.text);
      assert Texts(blocks) == Texts(front) + [last.text];
      assert JoinTexts(blocks) == JoinTexts(front) + "\n\n" + last.text;
    }
  }

  ghost predicate Picks(at: seq<nat>, i: nat) {
    exists k :: 0 <= k < |at| && at[k] == i
  }

  /** `at` lists the non-blank blocks, in order. */
  ghost predicate Inked(blocks: seq<Block>, at: seq<nat>) {
    && (forall k :: 0 <= k < |at| ==> at[k] < |blocks|)
    && (forall k, l :: 0 <= k < l < |at| ==> at[k] < at[l])
    && (forall i {:trigger Picks(at, i)} :: 0 <= i < |blocks| ==> (Picks(at, i) <==> !Blank(blocks[i].text)))
  }

  lemma PicksNext(at: seq<nat>, x: nat, i: nat)
    ensures Picks(at + [x], i) <==> Picks(at, i) || i == x
  {
    if Picks(at, i) {
      var k :| 0 <= k < |at| && at[k] == i;
      assert (at + [x])[k] == i;
    }
    assert (at + [x])[|at|] == x;
  }

  lemma InkedNext(blocks: seq<Block>, n: nat, at: seq<nat>)
    requires n < |blocks| && Inked(blocks[..n], at)
    ensures Inked(blocks[..n + 1], if Blank(blocks[n].text) then at else at + [n])
  {
    var at' := if Blank(blocks[n].text) then at else at + [n];
    forall i | 0 <= i < n + 1
      ensures Picks(at', i) <==> !Blank(blocks[..n + 1][i].text)
    {
      PicksNext(at, n, i);
      assert i < n ==> blocks[..n][i] == blocks[i];
    }
  }

  /** `picked` are the blocks at `at`. */
  ghost predicate PickedAt(blocks: seq<Block>, picked: seq<Block>, at: seq<nat>) {
    |at| == |picked| && forall k :: 0 <= k < |at| ==> at[k] < |blocks| && picked[k] == blocks[at[k]]
  }

  lemma PickedNext(blocks: seq<Block>, n: nat, picked: seq<Block>, at: seq<nat>)
    requires n < |blocks| && PickedAt(blocks[..n], picked, at)
    ensures PickedAt(blocks[..n + 1], picked, at) && PickedAt(blocks[..n + 1], picked + [blocks[n]], at + [n])
  {
  }

  lemma NonBlankNext(blocks: seq<Block>, n: nat)
    requires n < |blocks|
    ensures NonBlank(blocks[..n + 1]) == NonBlank(blocks[..n]) + if Blank(blocks[n].text) then [] else [blocks[n]]
  {
    assert blocks[..n + 1][..n] == blocks[..n];
  }

  lemma InOrderNext(blocks: seq<Block>, n: nat, at: seq<nat>)
    requires n < |blocks| && Inked(blocks[..n], at) && PickedAt(blocks[..n], NonBlank(blocks[..n]), at)
    ensures var at' := if Blank(blocks[n].text) then at else at + [n];
            Inked(blocks[..n + 1], at') && PickedAt(blocks[..n + 1], NonBlank(blocks[..n + 1]), at')
  {
    InkedNext(blocks, n, at);
    PickedNext(blocks, n, NonBlank(blocks[..n]), at);
    NonBlankNext(blocks, n);
    if Blank(blocks[n].text) {
      assert NonBlank(blocks[..n + 1]) == NonBlank(blocks[..n]);
    }
  }

  /** Which blocks are rendered: the non-blank ones, in their order. */
  lemma {:induction false} NonBlankInOrder(blocks: seq<Block>, n: nat) returns (at: seq<nat>)
    requires n <= |blocks|
    ensures Inked(blocks[..n], at) && PickedAt(blocks[..n], NonBlank(blocks[..n]), at)
    decreases n
  {
    at := [];
    if n > 0 {
      var before := NonBlankInOrder(blocks, n - 1);
      InOrderNext(blocks, n - 1, before);
      at := if Blank(blocks[n - 1].text) then before else before + [n - 1];
    }
  }

  // ---- grouping ----------------------------------------------------------------------------------------

  /** Where packing draws the line: two blocks share a group exactly if their bytes and two separators
      fit. */
  lemma PairPacked(groups: seq<seq<Block>>, a: Block, b: Block, maxChars: int)
    requires BestSplit(groups, [a, b], maxChars)
    ensures groups == if ByteLen(a.text) + ByteLen(b.text) + 4 <= maxChars then [[a, b]] else [[a], [b]]
  {
    PairWeight(a, b);
    FlattenLength(groups);
    if |groups| == 1 {
      assert groups[..0] == [] && Flatten(groups) == [] + groups[0];
      assert groups[0] == [a, b] && groups == [groups[0]];
    } else {
      PairSplit(groups, a, b);
      assert Full(groups, 0, maxChars) && [a] + [groups[1][0]] == [a, b];
    }
  }

  lemma PairSplit(groups: seq<seq<Block>>, a: Block, b: Block)
    requires Flatten(groups) == [a, b] && |groups| == 2 && groups[0] != [] && groups[1] != []
    ensures groups == [[a], [b]]
  {
    assert groups[..1] == [groups[0]] && groups[..1][..0] == [] && Flatten(groups[..1]) == groups[0];
    var x, y := groups[0], groups[1];
    assert x + y == [a, b];
    assert x == [(x + y)[0]] && y == [(x + y)[1]];
    assert groups == [x, y];
  }

  lemma PairWeight(a: Block, b: Block)
    ensures Weight([a, b]) == ByteLen(a.text) + ByteLen(b.text) + 4
  {
    assert [a][..0] == [] && Weight([a]) == Cost(a);
    assert [a, b][..1] == [a];
  }

  /** No group is empty. */
  lemma {:induction false} FlattenLength(groups: seq<seq<Block>>)
    requires forall k :: 0 <= k < |groups| ==> groups[k] != []
    ensures |groups| <= |Flatten(groups)| && (groups == [] <==> Flatten(groups) == [])
    decreases |groups|
  {
    if groups != [] {
      FlattenLength(groups[..|groups| - 1]);
    }
  }

  /** The group has some text to show. */
  predicate Shows(sec: Section, groups: seq<seq<Block>>, k: nat, cfg: Config)
    requires k < |groups|
  {
    ChunkText(SectionHeading(sec), cfg.chunkOverlap, k > 0, groups[k]) != ""
  }

  /** Chunk `j` of a section comes from group `at[j]`, a continuation unless that is the first. */
  ghost predicate FromGroups(sec: Section, groups: seq<seq<Block>>, origins: seq<Origin>, at: seq<nat>) {
    |at| == |origins|
    && forall j :: 0 <= j < |at| ==> at[j] < |groups| && origins[j] == Origin(sec, groups[at[j]], at[j] > 0)
  }

  /** `at` lists the groups among the first `n` that show something, in their order. */
  ghost predicate Shown(sec: Section, groups: seq<seq<Block>>, n: nat, cfg: Config, at: seq<nat>)
    requires n <= |groups|
  {
    && (forall j, k :: 0 <= j < k < |at| ==> at[j] < at[k]) && (forall j :: 0 <= j < |at| ==> at[j] < n)
    && (forall k :: 0 <= k < n ==> (Picks(at, k) <==> Shows(sec, groups, k, cfg)))
  }

  function Taken(sec: Section, groups: seq<seq<Block>>, n: nat, cfg: Config, at: seq<nat>): seq<nat>
    requires n < |groups|
  {
    if Shows(sec, groups, n, cfg) then at + [n] else at
  }

  lemma ShownNext(sec: Section, groups: seq<seq<Block>>, n: nat, cfg: Config, at: seq<nat>)
    requires n < |groups| && Shown(sec, groups, n, cfg, at)
    ensures Shown(sec, groups, n + 1, cfg, Taken(sec, groups, n, cfg, at))
  {
    forall k: nat
      ensures Picks(at + [n], k) <==> Picks(at, k) || k == n
    {
      PicksNext(at, n, k);
    }
  }

  lemma FromNext(sec: Section, groups: seq<seq<Block>>, n: nat, cfg: Config, origins: seq<Origin>, at: seq<nat>)
    requires n < |groups| && FromGroups(sec, groups, origins, at)
    ensures FromGroups(sec, groups, origins + EmitOne(sec, groups[n], n > 0, cfg),
              Taken(sec, groups, n, cfg, at))
  {
    var more := EmitOne(sec, groups[n], n > 0, cfg);
    if Shows(sec, groups, n, cfg) {
      assert more == [Origin(sec, groups[n], n > 0)];
      assert forall j :: 0 <= j < |at| ==> (at + [n])[j] == at[j] && (origins + more)[j] == origins[j];
    } else {
      assert origins + more == origins;
    }
  }

  lemma EmitNext(sec: Section, groups: seq<seq<Block>>, n: nat, cfg: Config, at: seq<nat>)
    requires n < |groups| && FromGroups(sec, groups, Emit(sec, groups, n, cfg), at)
    ensures FromGroups(sec, groups, Emit(sec, groups, n + 1, cfg), Taken(sec, groups, n, cfg, at))
  {
    FromNext(sec, groups, n, cfg, Emit(sec, groups, n, cfg), at);
    assert Emit(sec, groups, n + 1, cfg) == Emit(sec, groups, n, cfg) + EmitOne(sec, groups[n], n > 0, cfg);
  }

  /** Which groups become chunks: those that show something, in their order, and every one but the
      section's first group is a continuation. */
  lemma {:induction false} EmitInOrder(sec: Section, groups: seq<seq<Block>>, n: nat, cfg: Config)
    returns (at: seq<nat>)
    requires n <= |groups|
    ensures FromGroups(sec, groups, Emit(sec, groups, n, cfg), at) && Shown(sec, groups, n, cfg, at)
    decreases n
  {
    at := [];
    if n > 0 {
      var before := EmitInOrder(sec, groups, n - 1, cfg);
      ShownNext(sec, groups, n - 1, cfg, before);
      EmitNext(sec, groups, n - 1, cfg, before);
      at := Taken(sec, groups, n - 1, cfg, before);
    }
  }

  // ---- what a chunk reads like ------------------------------------------------------------------------

  /** The heading a continuation repeats: the section's own, or failing that the last of its path. */
  ghost predicate HeadingOf(sec: Section, heading: string) {
    if sec.blocks != [] && sec.blocks[0].kind.Heading? then heading == sec.blocks[0].text
    else if sec.path != [] then heading == sec.path[|sec.path| - 1]
    else heading == ""
  }

  /** What stands before the first block: nothing, or the heading cut to `n` characters when `n` is
      positive, and a blank line. */
  ghost predicate LeadIn(lead: string, heading: string, n: int, continued: bool) {
    if !continued || heading == "" then lead == ""
    else lead == heading[..if 0 < n < |heading| then n else |heading|] + "\n\n"
  }

  /** The texts of the blocks at `at`. */
  function TextsAt(blocks: seq<Block>, at: seq<nat>): seq<string>
    requires forall k :: 0 <= k < |at| ==> at[k] < |blocks|
  {
    seq(|at|, k requires 0 <= k < |at| => blocks[at[k]].text)
  }

  lemma RenderLaysOut(group: seq<Block>) returns (at: seq<nat>, off: seq<nat>)
    ensures Inked(group, at) && LaidOut(Render(group), TextsAt(group, at), "\n\n", off)
  {
    at := NonBlankInOrder(group, |group|);
    assert group[..|group|] == group;
    off := JoinLaysOut(NonBlank(group));
    assert Texts(NonBlank(group)) == TextsAt(group, at);
  }

  /** The content of every chunk of every document, but for white space at its ends: a continuation
      begins with its section's heading, and then come the texts of the group's non-blank blocks in
      document order, with a blank line between neighbours and nothing else. */
  lemma ChunkReads(chunks: seq<Chunk>, origins: seq<Origin>, cfg: Config, tags: seq<string>, i: nat)
    returns (heading: string, lead: string, body: string, at: seq<nat>, off: seq<nat>)
    requires AllMade(chunks, origins, 0, cfg, tags) && i < |chunks|
    ensures HeadingOf(origins[i].section, heading) && LeadIn(lead, heading, cfg.chunkOverlap, origins[i].continued)
    ensures Inked(origins[i].group, at) && LaidOut(body, TextsAt(origins[i].group, at), "\n\n", off)
    ensures chunks[i].content == TrimSpace(lead + body)
    ensures chunks[i].headingPath == origins[i].section.path && chunks[i].level == origins[i].section.level
    ensures chunks[i].index == i && chunks[i].tags == tags
  {
    var o := origins[i];
    var related := MadeFor(cfg, tags);
    assert related(chunks[i], o, 0 + i);
    heading := SectionHeading(o.section);
    lead, body := Lead(heading, cfg.chunkOverlap, o.continued), Render(o.group);
    at, off := RenderLaysOut(o.group);
  }

  // ---- trimmed ----------------------------------------------------------------------------------------

  /** Text `t`, which stands in `s` from `lo` on, stands trimmed at `p` in `s` trimmed. */
  ghost predicate Placed(s: string, lo: nat, t: string, p: nat) {
    && p + |TrimSpace(t)| <= |TrimSpace(s)| && TrimSpace(s)[p..p + |TrimSpace(t)|] == TrimSpace(t)
    && lo <= InkStart(s) + p && InkStart(s) + p + |TrimSpace(t)| <= lo + |t|
  }

  lemma PlaceOf(lead: string, body: string, lo: nat, t: string) returns (p: nat)
    requires lo + |t| <= |body| && body[lo..lo + |t|] == t && !Blank(t)
    ensures Placed(lead + body, |lead| + lo, t, p)
  {
    var s, from := lead + body, |lead| + lo;
    assert s[from..from + |t|] == body[lo..lo + |t|];
    var a, b := PartTrimmed(s, from, from + |t|);
    p := a - InkStart(s);
    assert !IsSpace(s[InkEnd(s) - 1]);
    TrimIsSlice(s);
    SubSlice(s, InkStart(s), a, b, InkEnd(s));
  }

  lemma {:induction false} OffsetsGrow(body: string, texts: seq<string>, off: seq<nat>, k: nat, l: nat)
    requires LaidOut(body, texts, "\n\n", off) && k < l < |texts|
    ensures off[k] + |texts[k]| + 2 <= off[l]
    decreases l
  {
    assert Separated(body, texts, "\n\n", off, l - 1);
    if k < l - 1 {
      OffsetsGrow(body, texts, off, k, l - 1);
    }
  }

  /** `t` stands trimmed in `s` at `p`. */
  ghost predicate TrimmedAt(s: string, t: string, p: nat) {
    p + |TrimSpace(t)| <= |s| && s[p..p + |TrimSpace(t)|] == TrimSpace(t)
  }

  /** So in the content itself the block texts, trimmed, stand one after the other, all of them
      after the heading's line if there is one. */
  lemma BlocksInTurn(lead: string, body: string, texts: seq<string>, off: seq<nat>, k: nat, l: nat)
    returns (p: nat, q: nat)
    requires LaidOut(body, texts, "\n\n", off) && k < l < |texts| && !Blank(texts[k]) && !Blank(texts[l])
    ensures TrimmedAt(TrimSpace(lead + body), texts[k], p) && TrimmedAt(TrimSpace(lead + body), texts[l], q)
    ensures p + |TrimSpace(texts[k])| < q && |lead| <= InkStart(lead + body) + p
  {
    assert StandsAt(body, texts, off, k) && StandsAt(body, texts, off, l);
    p := PlaceOf(lead, body, off[k], texts[k]);
    q := PlaceOf(lead, body, off[l], texts[l]);
    OffsetsGrow(body, texts, off, k, l);
  }
}
