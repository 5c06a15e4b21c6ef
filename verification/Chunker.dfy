/** From a parsed document to chunks: where every block lands and how large a chunk can get. */
module Chunker {
  import opened Basics
  import opened Markdown
  import opened Packing
  import opened Sections

  datatype Document = Document(title: string, tags: seq<string>, blocks: seq<Block>)

  datatype Config = Config(chunkSize: int, chunkOverlap: int)

  datatype Chunk = Chunk(
    index: nat,
    content: string,
    headingPath: seq<string>,
    level: nat,
    blockTypes: seq<BlockType>,
    tags: seq<string>)

  // ---- rendering -----------------------------------------------------------------------------------

  function NonBlank(blocks: seq<Block>): seq<Block> {
    if blocks == [] then []
    else
      var rest, b := NonBlank(blocks[..|blocks| - 1]), blocks[|blocks| - 1];
      if Blank(b.text) then rest else rest + [b]
  }

  /** Texts joined by blank lines. */
  function JoinTexts(blocks: seq<Block>): string {
    if blocks == [] then ""
    else if |blocks| == 1 then blocks[0].text
    else JoinTexts(blocks[..|blocks| - 1]) + "\n\n" + blocks[|blocks| - 1].text
  }

  function Render(blocks: seq<Block>): string {
    JoinTexts(NonBlank(blocks))
  }

  lemma {:induction false} NonBlankJoin(a: seq<Block>, b: seq<Block>)
    ensures NonBlank(a + b) == NonBlank(a) + NonBlank(b)
    decreases |b|
  {
    if b == [] {
      assert a + b == a;
    } else {
      assert (a + b)[..|a + b| - 1] == a + b[..|b| - 1];
      NonBlankJoin(a, b[..|b| - 1]);
    }
  }

  lemma {:induction false} NonBlankExact(blocks: seq<Block>)
    ensures forall b :: b in NonBlank(blocks) <==> b in blocks && !Blank(b.text)
    ensures Weight(NonBlank(blocks)) <= Weight(blocks)
    decreases |blocks|
  {
    if blocks != [] {
      var front, last := blocks[..|blocks| - 1], blocks[|blocks| - 1];
      assert blocks == front + [last];
      NonBlankExact(front);
      assert (NonBlank(front) + [last])[..|NonBlank(front)|] == NonBlank(front);
    }
  }

  /** The separators fit in the two characters the packer counts for each block. */
  lemma {:induction false} JoinSize(blocks: seq<Block>)
    ensures blocks != [] ==> |JoinTexts(blocks)| + 2 <= Weight(blocks)
    decreases |blocks|
  {
    if blocks != [] {
      RunesWithinBytes(blocks[|blocks| - 1].text);
      JoinSize(blocks[..|blocks| - 1]);
    }
  }

  /** Where the text of block `k` stands in the joined text. */
  lemma {:induction false} TextInJoin(blocks: seq<Block>, k: nat) returns (off: nat)
    requires k < |blocks|
    ensures off + |blocks[k].text| <= |JoinTexts(blocks)|
    ensures JoinTexts(blocks)[off..off + |blocks[k].text|] == blocks[k].text
    decreases |blocks|
  {
    if |blocks| == 1 {
      off := 0;
    } else if k == |blocks| - 1 {
      off := |JoinTexts(blocks[..k]) + "\n\n"|;
    } else {
      var front := blocks[..|blocks| - 1];
      off := TextInJoin(front, k);
      var t := JoinTexts(front);
      assert JoinTexts(blocks)[..|t|] == t;
      assert JoinTexts(blocks)[off..off + |blocks[k].text|] == t[off..off + |blocks[k].text|];
    }
  }

  method RenderBlocks(blocks: seq<Block>) returns (s: string)
    ensures s == Render(blocks)
  {
    var parts: seq<Block> := [];
    for i := 0 to |blocks|
      invariant parts == NonBlank(blocks[..i])
    {
      assert blocks[..i + 1][..i] == blocks[..i];
      if !Blank(blocks[i].text) {
        parts := parts + [blocks[i]];
      }
    }
    assert blocks[..|blocks|] == blocks;
    s := JoinTexts(parts);
  }

  // ---- one chunk --------------------------------------------------------------------------------------

  function Truncate(s: string, n: int): (t: string)
    ensures t <= s && (n > 0 ==> |t| <= n) && (n <= 0 || |s| <= n ==> t == s)
  {
    if n <= 0 || |s| <= n then s else s[..n]
  }

  /** Count characters until the limit is reached. */
  method TruncateRunes(s: string, n: int) returns (t: string)
    ensures t == Truncate(s, n)
  {
    if n <= 0 || |s| <= n {
      return s;
    }
    var count := 0;
    for i := 0 to |s|
      invariant count == i <= n
    {
      if count == n {
        return s[..i];
      }
      count := count + 1;
    }
    return s;
  }

  function SectionHeading(sec: Section): string {
    if |sec.blocks| > 0 && sec.blocks[0].kind.Heading? then sec.blocks[0].text
    else if |sec.path| > 0 then sec.path[|sec.path| - 1]
    else ""
  }

  /** What stands before a group's own text: a continuation repeats the section heading. */
  function Lead(heading: string, overlap: int, continued: bool): string {
    if continued && heading != "" then Truncate(heading, overlap) + "\n\n" else ""
  }

  function ChunkText(heading: string, overlap: int, continued: bool, group: seq<Block>): string {
    TrimSpace(Lead(heading, overlap, continued) + Render(group))
  }

  /** A chunk whose group is not a single oversized block has at most chunkSize + chunkOverlap
      runes, provided the overlap is positive; the first of a section even at most chunkSize. */
  lemma ChunkBound(heading: string, cfg: Config, continued: bool, group: seq<Block>)
    requires group != [] && Weight(group) <= cfg.chunkSize
    ensures !continued ==> |ChunkText(heading, cfg.chunkOverlap, continued, group)| <= cfg.chunkSize
    ensures cfg.chunkOverlap > 0 ==>
              |ChunkText(heading, cfg.chunkOverlap, continued, group)| <= cfg.chunkSize + cfg.chunkOverlap
  {
    NonBlankExact(group);
    JoinSize(NonBlank(group));
    assert Weight(group) >= Cost(group[|group| - 1]) >= 2;
  }

  /** Every non-blank block of the group is there, trimmed at most at the chunk's ends. */
  lemma BlockLands(heading: string, overlap: int, continued: bool, group: seq<Block>, b: Block)
    requires b in group && !Blank(b.text)
    ensures ChunkText(heading, overlap, continued, group) != ""
    ensures Contains(ChunkText(heading, overlap, continued, group), TrimSpace(b.text))
  {
    var off := TextRendered(group, b);
    PartAfterLead(Lead(heading, overlap, continued), Render(group), off, off + |b.text|, b.text);
  }

  lemma TextRendered(group: seq<Block>, b: Block) returns (off: nat)
    requires b in group && !Blank(b.text)
    ensures off + |b.text| <= |Render(group)| && Render(group)[off..off + |b.text|] == b.text
  {
    NonBlankExact(group);
    var k :| 0 <= k < |NonBlank(group)| && NonBlank(group)[k] == b;
    off := TextInJoin(NonBlank(group), k);
  }

  lemma PartAfterLead(lead: string, r: string, i: nat, j: nat, part: string)
    requires i <= j <= |r| && r[i..j] == part && !Blank(part)
    ensures TrimSpace(lead + r) != "" && Contains(TrimSpace(lead + r), TrimSpace(part))
  {
    var s := lead + r;
    var k, l := |lead| + i, |lead| + j;
    assert s[k..l] == part;
    TrimKeepsPart(s, k, l);
  }

  // ---- a section, a document --------------------------------------------------------------------------

  /** What a chunk was made of. */
  datatype Origin = Origin(section: Section, group: seq<Block>, continued: bool)

  function Groups(origins: seq<Origin>): seq<Block> {
    if origins == [] then [] else Groups(origins[..|origins| - 1]) + origins[|origins| - 1].group
  }

  /** The block types present, each where it is first seen. */
  function FirstSeen(blocks: seq<Block>): seq<BlockType> {
    if blocks == [] then []
    else
      var seen, kind := FirstSeen(blocks[..|blocks| - 1]), blocks[|blocks| - 1].kind;
      if kind in seen then seen else seen + [kind]
  }

  /** Which type of `blocks` each listed one is: the first block of its type, and they come in
      the order of those first blocks. */
  lemma {:induction false} FirstSeenExact(blocks: seq<Block>) returns (at: seq<nat>)
    ensures NoDup(FirstSeen(blocks)) && (forall b :: b in blocks ==> b.kind in FirstSeen(blocks))
    ensures |at| == |FirstSeen(blocks)|
    ensures forall k :: 0 <= k < |at| ==> at[k] < |blocks| && blocks[at[k]].kind == FirstSeen(blocks)[k]
    ensures forall k, i :: 0 <= k < |at| && 0 <= i < at[k] ==> blocks[i].kind != FirstSeen(blocks)[k]
    ensures forall k, l :: 0 <= k < l < |at| ==> at[k] < at[l]
    decreases |blocks|
  {
    at := [];
    if blocks != [] {
      var front, last := blocks[..|blocks| - 1], blocks[|blocks| - 1];
      assert blocks == front + [last];
      at := FirstSeenExact(front);
      if last.kind !in FirstSeen(front) {
        at := at + [|front|];
      }
    }
  }

  /** A split that fits and cannot be beaten. */
  ghost predicate BestSplit(groups: seq<seq<Block>>, blocks: seq<Block>, maxChars: int) {
    Splits(groups, blocks, maxChars) && Maximal(groups, maxChars)
  }

  function EmitOne(sec: Section, group: seq<Block>, continued: bool, cfg: Config): seq<Origin> {
    if ChunkText(SectionHeading(sec), cfg.chunkOverlap, continued, group) == "" then []
        else [Origin(sec, group, continued)]
  }

  /** The chunks that the first `n` groups of a section call for: one for each group whose text
      is not empty, a continuation unless the group is the first. */
  function Emit(sec: Section, groups: seq<seq<Block>>, n: nat, cfg: Config): seq<Origin>
    requires n <= |groups|
  {
    if n == 0 then []
    else
      Emit(sec, groups, n - 1, cfg) + EmitOne(sec, groups[n - 1], n - 1 > 0, cfg)
  }

  ghost predicate SectionOrigins(sec: Section, cfg: Config, origins: seq<Origin>) {
    exists groups :: BestSplit(groups, sec.blocks, cfg.chunkSize) && origins == Emit(sec, groups, |groups|, cfg)
  }

  function Concat(parts: seq<seq<Origin>>): seq<Origin> {
    if parts == [] then [] else Concat(parts[..|parts| - 1]) + parts[|parts| - 1]
  }

  ghost predicate PartsOf(sections: seq<Section>, cfg: Config, parts: seq<seq<Origin>>) {
    if sections == [] || parts == [] then sections == [] && parts == []
    else
      && PartsOf(sections[..|sections| - 1], cfg, parts[..|parts| - 1])
      && SectionOrigins(sections[|sections| - 1], cfg, parts[|parts| - 1])
  }

  /** The chunks of a document, section after section. */
  ghost predicate DocOrigins(sections: seq<Section>, cfg: Config, origins: seq<Origin>) {
    exists parts :: PartsOf(sections, cfg, parts) && origins == Concat(parts)
  }

  /** Chunk `c` at position `i` is what its origin calls for. */
  ghost predicate Made(c: Chunk, o: Origin, i: nat, cfg: Config, tags: seq<string>) {
    && c.index == i && c.tags == tags
    && c.content == ChunkText(SectionHeading(o.section), cfg.chunkOverlap, o.continued, o.group) && c.content != ""
    && c.headingPath == o.section.path && c.level == o.section.level
    && c.blockTypes == FirstSeen(o.group)
    && Fits(o.group, cfg.chunkSize)
  }

  ghost function MadeFor(cfg: Config, tags: seq<string>): (Chunk, Origin, nat) -> bool {
    (c: Chunk, o: Origin, i: nat) => Made(c, o, i, cfg, tags)
  }

  /** Two lists whose elements are related position by position, numbered from `base`. */
  ghost predicate Paired<A, B>(xs: seq<A>, ys: seq<B>, base: nat, related: (A, B, nat) -> bool) {
    |xs| == |ys| && forall i: nat :: i < |xs| ==> related(xs[i], ys[i], base + i)
  }

  lemma PairedJoin<A, B>(xs: seq<A>, ys: seq<B>, more: seq<A>, extra: seq<B>, base: nat, related: (A, B, nat) -> bool)
    requires Paired(xs, ys, base, related) && Paired(more, extra, base + |xs|, related)
    ensures Paired(xs + more, ys + extra, base, related)
  {
    forall i: nat | i < |xs + more|
      ensures related((xs + more)[i], (ys + extra)[i], base + i)
    {
      if i >= |xs| {
        assert related(more[i - |xs|], extra[i - |xs|], base + |xs| + (i - |xs|));
      }
    }
  }

  /** Every chunk is what its origin calls for, numbered from `base`. */
  ghost predicate AllMade(chunks: seq<Chunk>, origins: seq<Origin>, base: nat, cfg: Config, tags: seq<string>) {
    Paired(chunks, origins, base, MadeFor(cfg, tags))
  }

  lemma AllMadeJoin(chunks: seq<Chunk>, origins: seq<Origin>, more: seq<Chunk>, extra: seq<Origin>, base: nat,
                    cfg: Config, tags: seq<string>)
    requires AllMade(chunks, origins, base, cfg, tags) && AllMade(more, extra, base + |chunks|, cfg, tags)
    ensures AllMade(chunks + more, origins + extra, base, cfg, tags)
  {
    PairedJoin(chunks, origins, more, extra, base, MadeFor(cfg, tags));
  }

  method BlockTypes(blocks: seq<Block>) returns (types: seq<BlockType>)
    ensures types == FirstSeen(blocks)
  {
    types := [];
    for i := 0 to |blocks|
      invariant types == FirstSeen(blocks[..i])
    {
      assert blocks[..i + 1][..i] == blocks[..i];
      if blocks[i].kind !in types {
        types := types + [blocks[i].kind];
      }
    }
    assert blocks[..|blocks|] == blocks;
  }

  lemma {:induction false} GroupsJoin(a: seq<Origin>, b: seq<Origin>)
    ensures Groups(a + b) == Groups(a) + Groups(b)
    decreases |b|
  {
    if b == [] {
      assert a + b == a;
    } else {
      assert (a + b)[..|a + b| - 1] == a + b[..|b| - 1];
      GroupsJoin(a, b[..|b| - 1]);
    }
  }

  /** What has landed so far, extended. */
  lemma LandedJoin(origins: seq<Origin>, extra: seq<Origin>, blocks: seq<Block>, next: seq<Block>)
    requires NonBlank(Groups(origins)) == NonBlank(blocks) && NonBlank(Groups(extra)) == NonBlank(next)
    ensures NonBlank(Groups(origins + extra)) == NonBlank(blocks + next)
  {
    GroupsJoin(origins, extra);
    NonBlankJoin(Groups(origins), Groups(extra));
    NonBlankJoin(blocks, next);
  }

  /** A group whose chunk comes out empty had nothing but blank blocks. */
  lemma NothingDropped(heading: string, overlap: int, continued: bool, group: seq<Block>)
    requires ChunkText(heading, overlap, continued, group) == ""
    ensures NonBlank(group) == []
  {
    NonBlankExact(group);
    if NonBlank(group) != [] {
      var b := NonBlank(group)[0];
      assert b in NonBlank(group);
      BlockLands(heading, overlap, continued, group, b);
    }
  }

  lemma OneMade(c: Chunk, o: Origin, index: nat, cfg: Config, tags: seq<string>)
    requires Made(c, o, index, cfg, tags)
    ensures AllMade([c], [o], index, cfg, tags)
  {
  }

  ghost predicate AllOf(origins: seq<Origin>, sec: Section) {
    forall i :: 0 <= i < |origins| ==> origins[i].section == sec
  }

  /** `chunks` are the chunks of `blocks`, a stretch of section `sec`, numbered from `base`. */
  ghost predicate Covers(chunks: seq<Chunk>, origins: seq<Origin>, base: nat, cfg: Config, tags: seq<string>,
                         sec: Section, blocks: seq<Block>)
  {
    AllMade(chunks, origins, base, cfg, tags) && NonBlank(Groups(origins)) == NonBlank(blocks) && AllOf(origins, sec)
  }

  lemma CoversJoin(chunks: seq<Chunk>, origins: seq<Origin>, more: seq<Chunk>, extra: seq<Origin>,
                   base: nat, cfg: Config, tags: seq<string>, sec: Section, blocks: seq<Block>, next: seq<Block>)
    requires Covers(chunks, origins, base, cfg, tags, sec, blocks)
    requires Covers(more, extra, base + |chunks|, cfg, tags, sec, next)
    ensures Covers(chunks + more, origins + extra, base, cfg, tags, sec, blocks + next)
  {
    AllMadeJoin(chunks, origins, more, extra, base, cfg, tags);
    LandedJoin(origins, extra, blocks, next);
  }

  method GroupText(heading: string, overlap: int, continued: bool, group: seq<Block>) returns (content: string)
    ensures content == ChunkText(heading, overlap, continued, group)
  {
    var own := RenderBlocks(group);
    if continued && heading != "" {
      var lead := TruncateRunes(heading, overlap);
      content := TrimSpace(lead + "\n\n" + own);
    } else {
      assert "" + own == own;
      content := TrimSpace(own);
    }
  }

  /** The chunk of one group, if it has any text. */
  ghost predicate CoversOne(chunks: seq<Chunk>, origins: seq<Origin>, index: nat, cfg: Config, tags: seq<string>,
                            sec: Section, group: seq<Block>, continued: bool)
  {
    Covers(chunks, origins, index, cfg, tags, sec, group) && origins == EmitOne(sec, group, continued, cfg)
  }

  /** One group of a section: its chunk, or nothing when the text comes out empty. */
  method ChunkGroup(sec: Section, group: seq<Block>, continued: bool, index: nat, cfg: Config, tags: seq<string>)
    returns (chunks: seq<Chunk>, ghost origins: seq<Origin>)
    requires Fits(group, cfg.chunkSize)
    ensures CoversOne(chunks, origins, index, cfg, tags, sec, group, continued)
  {
    var content := GroupText(SectionHeading(sec), cfg.chunkOverlap, continued, group);
    if content == "" {
      NothingCovered(sec, group, continued, index, cfg, tags);
      return [], [];
    }
    var types := BlockTypes(group);
    var chunk := Chunk(index, content, sec.path, sec.level, types, tags);
    ghost var o := Origin(sec, group, continued);
    OneCovered(chunk, o, index, cfg, tags);
    return [chunk], [o];
  }

  lemma NothingCovered(sec: Section, group: seq<Block>, continued: bool, index: nat, cfg: Config, tags: seq<string>)
    requires ChunkText(SectionHeading(sec), cfg.chunkOverlap, continued, group) == ""
    ensures CoversOne([], [], index, cfg, tags, sec, group, continued)
  {
    NothingDropped(SectionHeading(sec), cfg.chunkOverlap, continued, group);
  }

  lemma OneCovered(chunk: Chunk, o: Origin, index: nat, cfg: Config, tags: seq<string>)
    requires Made(chunk, o, index, cfg, tags)
    ensures CoversOne([chunk], [o], index, cfg, tags, o.section, o.group, o.continued)
  {
    OneMade(chunk, o, index, cfg, tags);
    OneLands(o, cfg);
  }

  lemma OneLands(o: Origin, cfg: Config)
    requires ChunkText(SectionHeading(o.section), cfg.chunkOverlap, o.continued, o.group) != ""
    ensures [o] == EmitOne(o.section, o.group, o.continued, cfg)
    ensures NonBlank(Groups([o])) == NonBlank(o.group) && AllOf([o], o.section)
  {
    OneGroup(o);
  }

  lemma OneGroup(o: Origin)
    ensures Groups([o]) == o.group
  {
    assert [o][..0] == [];
  }

  /** The chunks of the first `n` groups of a section. */
  ghost predicate CoversGroups(chunks: seq<Chunk>, origins: seq<Origin>, base: nat, cfg: Config, tags: seq<string>,
                               sec: Section, groups: seq<seq<Block>>, n: nat)
    requires n <= |groups|
  {
    Covers(chunks, origins, base, cfg, tags, sec, Flatten(groups[..n])) && origins == Emit(sec, groups, n, cfg)
  }

  lemma CoversGroup(chunks: seq<Chunk>, origins: seq<Origin>, more: seq<Chunk>, extra: seq<Origin>,
                    base: nat, cfg: Config, tags: seq<string>, sec: Section, groups: seq<seq<Block>>, n: nat)
    requires n < |groups| && CoversGroups(chunks, origins, base, cfg, tags, sec, groups, n)
    requires CoversOne(more, extra, base + |chunks|, cfg, tags, sec, groups[n], n > 0)
    ensures CoversGroups(chunks + more, origins + extra, base, cfg, tags, sec, groups, n + 1)
  {
    assert Covers(chunks + more, origins + extra, base, cfg, tags, sec, Flatten(groups[..n + 1])) by {
      CutNext(groups, n);
      CoversJoin(chunks, origins, more, extra, base, cfg, tags, sec, Flatten(groups[..n]), groups[n]);
    }
  }

  /** One turn of the loop over the groups. */
  method AddGroup(before: seq<Chunk>, ghost origins0: seq<Origin>, sec: Section, groups: seq<seq<Block>>, gi: nat,
                  idxStart: nat, cfg: Config, tags: seq<string>)
    returns (chunks: seq<Chunk>, ghost origins: seq<Origin>)
    requires gi < |groups| && Fits(groups[gi], cfg.chunkSize)
    requires CoversGroups(before, origins0, idxStart, cfg, tags, sec, groups, gi)
    ensures CoversGroups(chunks, origins, idxStart, cfg, tags, sec, groups, gi + 1)
  {
    var more, extra := ChunkGroup(sec, groups[gi], gi > 0, idxStart + |before|, cfg, tags);
    CoversGroup(before, origins0, more, extra, idxStart, cfg, tags, sec, groups, gi);
    chunks, origins := before + more, origins0 + extra;
  }

  /** The loop over the groups; each continues the numbering. */
  method ChunkGroups(sec: Section, groups: seq<seq<Block>>, idxStart: nat, cfg: Config, tags: seq<string>)
    returns (chunks: seq<Chunk>, ghost origins: seq<Origin>)
    requires forall g :: 0 <= g < |groups| ==> Fits(groups[g], cfg.chunkSize)
    ensures CoversGroups(chunks, origins, idxStart, cfg, tags, sec, groups, |groups|)
  {
    chunks, origins := [], [];
    for gi := 0 to |groups|
      invariant CoversGroups(chunks, origins, idxStart, cfg, tags, sec, groups, gi)
    {
      chunks, origins := AddGroup(chunks, origins, sec, groups, gi, idxStart, cfg, tags);
    }
  }

  /** Every group of an unbeatable split of the section gives its chunk, in order, unless its
      text is empty; the first is no continuation and the others are. */
  method ChunkSection(sec: Section, idxStart: nat, cfg: Config, tags: seq<string>)
    returns (chunks: seq<Chunk>, ghost origins: seq<Origin>)
    ensures Covers(chunks, origins, idxStart, cfg, tags, sec, sec.blocks) && SectionOrigins(sec, cfg, origins)
  {
    var groups := GroupBlocks(sec.blocks, cfg.chunkSize);
    assert BestSplit(groups, sec.blocks, cfg.chunkSize);
    chunks, origins := ChunkGroups(sec, groups, idxStart, cfg, tags);
    WholeSection(chunks, origins, idxStart, cfg, tags, sec, groups);
  }

  lemma WholeSection(chunks: seq<Chunk>, origins: seq<Origin>, base: nat, cfg: Config, tags: seq<string>,
                     sec: Section, groups: seq<seq<Block>>)
    requires CoversGroups(chunks, origins, base, cfg, tags, sec, groups, |groups|)
    requires BestSplit(groups, sec.blocks, cfg.chunkSize)
    ensures Covers(chunks, origins, base, cfg, tags, sec, sec.blocks) && SectionOrigins(sec, cfg, origins)
  {
    assert groups[..|groups|] == groups;
  }

  ghost predicate AllFrom(origins: seq<Origin>, sections: seq<Section>) {
    forall i :: 0 <= i < |origins| ==> origins[i].section in sections
  }

  lemma AllFromJoin(origins: seq<Origin>, extra: seq<Origin>, sections: seq<Section>, k: nat)
    requires k < |sections| && AllFrom(origins, sections) && AllOf(extra, sections[k])
    ensures AllFrom(origins + extra, sections)
  {
    forall i | 0 <= i < |origins + extra|
      ensures (origins + extra)[i].section in sections
    {
      if i >= |origins| {
        assert extra[i - |origins|].section == sections[k];
      }
    }
  }

  /** The chunks of the first `n` sections. */
  ghost predicate CoversSections(chunks: seq<Chunk>, origins: seq<Origin>, cfg: Config, tags: seq<string>,
                                 secs: seq<Section>, n: nat)
    requires n <= |secs|
  {
    AllMade(chunks, origins, 0, cfg, tags) && NonBlank(Groups(origins)) == NonBlank(BlocksOf(secs[..n]))
        && AllFrom(origins, secs)
  }

  lemma CoversNext(chunks: seq<Chunk>, origins: seq<Origin>, more: seq<Chunk>, extra: seq<Origin>, cfg: Config,
                   tags: seq<string>, secs: seq<Section>, n: nat)
    requires n < |secs| && CoversSections(chunks, origins, cfg, tags, secs, n)
    requires Covers(more, extra, |chunks|, cfg, tags, secs[n], secs[n].blocks)
    ensures CoversSections(chunks + more, origins + extra, cfg, tags, secs, n + 1)
  {
    assert AllMade(chunks + more, origins + extra, 0, cfg, tags) by {
      AllMadeJoin(chunks, origins, more, extra, 0, cfg, tags);
    }
    assert NonBlank(Groups(origins + extra)) == NonBlank(BlocksOf(secs[..n + 1])) by {
      BlocksNext(secs, n);
      LandedJoin(origins, extra, BlocksOf(secs[..n]), secs[n].blocks);
    }
    AllFromJoin(origins, extra, secs, n);
  }

  lemma BlocksNext(secs: seq<Section>, i: nat)
    requires i < |secs|
    ensures BlocksOf(secs[..i + 1]) == BlocksOf(secs[..i]) + secs[i].blocks
  {
    assert secs[..i + 1][..i] == secs[..i];
  }

  /** The loop over the sections; each continues the numbering. */
  method ChunkSections(secs: seq<Section>, cfg: Config, tags: seq<string>)
    returns (chunks: seq<Chunk>, ghost origins: seq<Origin>)
    ensures CoversSections(chunks, origins, cfg, tags, secs, |secs|) && DocOrigins(secs, cfg, origins)
  {
    chunks, origins := [], [];
    ghost var parts: seq<seq<Origin>> := [];
    for i := 0 to |secs|
      invariant CoversSections(chunks, origins, cfg, tags, secs, i)
      invariant PartsOf(secs[..i], cfg, parts) && origins == Concat(parts)
    {
      var more, extra := ChunkSection(secs[i], |chunks|, cfg, tags);
      CoversNext(chunks, origins, more, extra, cfg, tags, secs, i);
      PartsNext(secs, cfg, parts, i, extra);
      ConcatNext(parts, extra);
      chunks, origins, parts := chunks + more, origins + extra, parts + [extra];
    }
    assert secs[..|secs|] == secs;
  }

  lemma ConcatNext(parts: seq<seq<Origin>>, extra: seq<Origin>)
    ensures Concat(parts + [extra]) == Concat(parts) + extra
  {
    assert (parts + [extra])[..|parts|] == parts;
  }

  lemma PartsNext(secs: seq<Section>, cfg: Config, parts: seq<seq<Origin>>, i: nat, extra: seq<Origin>)
    requires i < |secs| && PartsOf(secs[..i], cfg, parts) && SectionOrigins(secs[i], cfg, extra)
    ensures PartsOf(secs[..i + 1], cfg, parts + [extra])
  {
    assert secs[..i + 1][..i] == secs[..i] && (parts + [extra])[..|parts|] == parts;
  }

  /** What the chunks of a document are: its blocks split into sections, each section into
      chunks, numbered from zero. */
  ghost predicate Chunked(doc: Document, cfg: Config, chunks: seq<Chunk>, origins: seq<Origin>, sections: seq<Section>)
  {
    && BlocksOf(sections) == doc.blocks && SectionsOk(doc.title, doc.blocks, sections)
    && AllMade(chunks, origins, 0, cfg, doc.tags) && DocOrigins(sections, cfg, origins)
  }

  /** Chunk `i` has index `i`; the chunks' groups hold every non-blank block exactly once, in
      document order; each chunk belongs to a section with its exact breadcrumb, and to a group
      of an unbeatable split of that section. */
  method ChunkDocument(doc: Option<Document>, cfg: Config)
    returns (chunks: seq<Chunk>, ghost origins: seq<Origin>, ghost sections: seq<Section>)
    ensures doc.None? ==> chunks == []
    ensures doc.Some? ==> Chunked(doc.value, cfg, chunks, origins, sections)
    ensures doc.Some? ==> NonBlank(Groups(origins)) == NonBlank(doc.value.blocks)
    ensures AllFrom(origins, sections)
  {
    if doc.None? {
      return [], [], [];
    }
    var secs := SplitSections(doc.value.title, doc.value.blocks);
    sections := secs;
    chunks, origins := ChunkSections(secs, cfg, doc.value.tags);
    assert secs[..|secs|] == secs;
  }

  /** What any chunk of any document is like: it holds the text of every non-blank block of its
      group, and unless it is a single oversized block its size is bounded as configured. */
  lemma ChunkIsBounded(chunks: seq<Chunk>, origins: seq<Origin>, cfg: Config, tags: seq<string>, i: nat)
    requires AllMade(chunks, origins, 0, cfg, tags) && i < |chunks|
    ensures chunks[i].index == i
    ensures forall b :: b in origins[i].group && !Blank(b.text) ==> Contains(chunks[i].content, TrimSpace(b.text))
    ensures cfg.chunkOverlap > 0 && !(|origins[i].group| == 1 && Weight(origins[i].group) > cfg.chunkSize) ==>
              |chunks[i].content| <= cfg.chunkSize + cfg.chunkOverlap
  {
    var c, o := chunks[i], origins[i];
    var related := MadeFor(cfg, tags);
    assert related(chunks[i], origins[i], 0 + i);
    assert Made(c, o, i, cfg, tags);
    forall b | b in o.group && !Blank(b.text)
      ensures Contains(c.content, TrimSpace(b.text))
    {
      BlockLands(SectionHeading(o.section), cfg.chunkOverlap, o.continued, o.group, b);
    }
    if Weight(o.group) <= cfg.chunkSize {
      ChunkBound(SectionHeading(o.section), cfg, o.continued, o.group);
    }
  }
}
