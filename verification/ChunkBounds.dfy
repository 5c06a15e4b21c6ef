/** How large the chunks of a document can get: for which configurations the size is bounded, and
    that every configuration the program can load is one of them. */
module ChunkBounds {
  import opened Basics
  import opened Markdown
  import opened Packing
  import opened Sections
  import opened Chunker

  /** A chunk made of a single block that is larger than the limit by itself. */
  predicate Oversized(o: Origin, cfg: Config) {
    |o.group| == 1 && Weight(o.group) > cfg.chunkSize
  }

  function Limit(cfg: Config): int {
    cfg.chunkSize + if cfg.chunkOverlap > 0 then cfg.chunkOverlap else 0
  }

  ghost predicate Bounded(chunks: seq<Chunk>, origins: seq<Origin>, cfg: Config) {
    forall i :: 0 <= i < |chunks| && i < |origins| && !Oversized(origins[i], cfg) ==> |chunks[i].content| <= Limit(cfg)
  }

  /** Every chunk of every document keeps to the limit unless it is a single oversized block. */
  ghost predicate AlwaysBounded(cfg: Config) {
    forall doc, chunks, origins, sections :: Chunked(doc, cfg, chunks, origins, sections) ==>
        Bounded(chunks, origins, cfg)
  }

  lemma ChunksBounded(doc: Document, cfg: Config, chunks: seq<Chunk>, origins: seq<Origin>, sections: seq<Section>)
    requires Chunked(doc, cfg, chunks, origins, sections) && (cfg.chunkOverlap > 0 || cfg.chunkSize < 2)
    ensures Bounded(chunks, origins, cfg)
  {
    forall i | 0 <= i < |chunks| && i < |origins| && !Oversized(origins[i], cfg)
      ensures |chunks[i].content| <= Limit(cfg)
    {
      ChunkIsBounded(chunks, origins, cfg, doc.tags, i);
      GroupFits(chunks, origins, cfg, doc.tags, i);
    }
  }

  lemma GroupFits(chunks: seq<Chunk>, origins: seq<Origin>, cfg: Config, tags: seq<string>, i: nat)
    requires AllMade(chunks, origins, 0, cfg, tags) && i < |chunks|
    ensures Fits(origins[i].group, cfg.chunkSize) && Weight(origins[i].group) >= 2
  {
    var related := MadeFor(cfg, tags);
    assert related(chunks[i], origins[i], 0 + i);
    var group := origins[i].group;
    assert Weight(group) >= Cost(group[|group| - 1]) >= 2;
  }

  // ---- without a positive overlap ---------------------------------------------------------------------

  function Solid(n: nat): string {
    seq(n, i => 'x')
  }

  /** Ink at both ends of a prefix survives trimming. */
  lemma InkSurvives(s: string, n: nat)
    requires 0 < n <= |s| && !IsSpace(s[0]) && !IsSpace(s[n - 1])
    ensures |TrimSpace(s)| >= n
  {
    assert InkStart(s) == 0;
    assert InkEnd(s) >= n;
  }

  /** A long heading and a short paragraph under it. */
  function LongHeading(cfg: Config): Document
    requires cfg.chunkSize >= 2
  {
    var heading := Solid(cfg.chunkSize + 1);
    Document(heading, [], [Block(Heading, 1, heading, "", heading),
        Block(Paragraph, 0, "", "", if cfg.chunkSize > 2 then "x" else "")])
  }

  function OneSection(doc: Document): Section
    requires |doc.blocks| == 2
  {
    Section(Breadcrumb(doc.title, Visible(Headings(doc.blocks[..1]))), doc.blocks[0].level, doc.blocks)
  }

  lemma OneSectionOk(doc: Document)
    requires |doc.blocks| == 2 && doc.blocks[0].kind.Heading? && !doc.blocks[1].kind.Heading?
    ensures BlocksOf([OneSection(doc)]) == doc.blocks && SectionsOk(doc.title, doc.blocks, [OneSection(doc)])
  {
    var secs := [OneSection(doc)];
    assert secs[..0] == [];
    assert SectionOk(doc.title, doc.blocks, 0, secs[0]);
  }

  /** The heading is too large to share a group with the paragraph. */
  lemma TwoGroups(cfg: Config)
    requires cfg.chunkSize >= 2
    ensures var blocks := LongHeading(cfg).blocks;
            BestSplit([[blocks[0]], [blocks[1]]], blocks, cfg.chunkSize) && Weight([blocks[1]]) <= cfg.chunkSize
  {
    var blocks := LongHeading(cfg).blocks;
    var first, second := [blocks[0]], [blocks[1]];
    var groups := [first, second];
    RunesWithinBytes(blocks[0].text);
    assert groups[..1] == [first] && groups[..1][..0] == [];
    assert Flatten([first]) == first && Flatten(groups) == first + second == blocks;
    assert first[..0] == [] && second[..0] == [];
    assert Weight(first) > cfg.chunkSize;
    WeightJoin(first, second);
    assert Full(groups, 0, cfg.chunkSize);
    assert ByteLen("x") == ByteLen("x"[..0]) + 1;
  }

  lemma HeadingText(cfg: Config, continued: bool)
    requires cfg.chunkSize >= 2 && (continued ==> cfg.chunkOverlap <= 0)
    ensures var doc := LongHeading(cfg);
            |ChunkText(doc.blocks[0].text, cfg.chunkOverlap, continued,
                [doc.blocks[if continued then 1 else 0]])| > cfg.chunkSize
  {
    var doc := LongHeading(cfg);
    var heading, group := doc.blocks[0].text, [doc.blocks[if continued then 1 else 0]];
    assert group[..0] == [] && NonBlank([]) == [];
    assert !IsSpace('x');
    var s := Lead(heading, cfg.chunkOverlap, continued) + Render(group);
    if continued {
      assert s[..|heading|] == heading;
    } else {
      InkSurvives(heading, |heading|);
      assert NonBlank(group) == group;
      assert s == heading;
    }
    assert s[0] == heading[0] == 'x' && s[|heading| - 1] == heading[|heading| - 1] == 'x';
    InkSurvives(s, |heading|);
  }

  function ChunkOf(o: Origin, i: nat, cfg: Config, tags: seq<string>): Chunk {
    Chunk(i, ChunkText(SectionHeading(o.section), cfg.chunkOverlap, o.continued, o.group), o.section.path,
        o.section.level, FirstSeen(o.group), tags)
  }

  /** A chunk of one block whose text is over the limit. */
  predicate TooLong(o: Origin, cfg: Config) {
    |o.group| == 1 && |ChunkText(SectionHeading(o.section), cfg.chunkOverlap, o.continued, o.group)| > cfg.chunkSize
  }

  /** The origins of the long heading's two chunks. */
  lemma LongHeadingOrigins(cfg: Config) returns (sec: Section, origins: seq<Origin>)
    requires cfg.chunkSize >= 2 && cfg.chunkOverlap <= 0
    ensures var doc := LongHeading(cfg);
            && BlocksOf([sec]) == doc.blocks && SectionsOk(doc.title, doc.blocks, [sec])
            && SectionOrigins(sec, cfg, origins) && |origins| == 2 && !Oversized(origins[1], cfg)
    ensures TooLong(origins[0], cfg) && TooLong(origins[1], cfg)
  {
    var doc := LongHeading(cfg);
    sec := OneSection(doc);
    OneSectionOk(doc);
    TwoGroups(cfg);
    HeadingText(cfg, false);
    HeadingText(cfg, true);
    origins := TwoOrigins(sec, [doc.blocks[0]], [doc.blocks[1]], cfg);
  }

  /** A section that splits into two groups with text has two origins. */
  lemma TwoOrigins(sec: Section, first: seq<Block>, second: seq<Block>, cfg: Config) returns (origins: seq<Origin>)
    requires BestSplit([first, second], sec.blocks, cfg.chunkSize)
    requires ChunkText(SectionHeading(sec), cfg.chunkOverlap, false, first) != ""
    requires ChunkText(SectionHeading(sec), cfg.chunkOverlap, true, second) != ""
    ensures origins == [Origin(sec, first, false), Origin(sec, second, true)]
    ensures SectionOrigins(sec, cfg, origins)
  {
    origins := [Origin(sec, first, false), Origin(sec, second, true)];
    EmitsBoth(sec, [first, second], cfg);
  }

  /** Without a positive overlap nothing bounds the heading a continuation repeats. */
  lemma NoOverlapNoBound(cfg: Config)
    returns (doc: Document, chunks: seq<Chunk>, origins: seq<Origin>, sections: seq<Section>)
    requires cfg.chunkSize >= 2 && cfg.chunkOverlap <= 0
    ensures Chunked(doc, cfg, chunks, origins, sections) && !Bounded(chunks, origins, cfg)
  {
    doc := LongHeading(cfg);
    var sec: Section;
    sec, origins := LongHeadingOrigins(cfg);
    sections := [sec];
    chunks := TwoMade(origins, cfg, doc.tags);
    OnePart(sections, cfg, origins);
    assert |chunks[1].content| > Limit(cfg) && !Oversized(origins[1], cfg);
  }

  lemma TwoMade(origins: seq<Origin>, cfg: Config, tags: seq<string>) returns (chunks: seq<Chunk>)
    requires |origins| == 2 && cfg.chunkSize >= 0 && TooLong(origins[0], cfg) && TooLong(origins[1], cfg)
    ensures AllMade(chunks, origins, 0, cfg, tags) && |chunks| == 2
    ensures chunks[1].content ==
              ChunkText(SectionHeading(origins[1].section), cfg.chunkOverlap, origins[1].continued, origins[1].group)
  {
    chunks := [ChunkOf(origins[0], 0, cfg, tags), ChunkOf(origins[1], 1, cfg, tags)];
    assert Made(chunks[0], origins[0], 0, cfg, tags) && Made(chunks[1], origins[1], 1, cfg, tags);
  }

  lemma EmitsBoth(sec: Section, groups: seq<seq<Block>>, cfg: Config)
    requires |groups| == 2
    requires ChunkText(SectionHeading(sec), cfg.chunkOverlap, false, groups[0]) != ""
    requires ChunkText(SectionHeading(sec), cfg.chunkOverlap, true, groups[1]) != ""
    ensures Emit(sec, groups, 2, cfg) == [Origin(sec, groups[0], false), Origin(sec, groups[1], true)]
  {
    assert Emit(sec, groups, 1, cfg) == [Origin(sec, groups[0], false)];
  }

  lemma OnePart(sections: seq<Section>, cfg: Config, origins: seq<Origin>)
    requires |sections| == 1 && SectionOrigins(sections[0], cfg, origins)
    ensures DocOrigins(sections, cfg, origins)
  {
    var parts := [origins];
    assert parts[..0] == [];
    assert Concat(parts) == [] + origins;
    assert sections[..0] == [];
    assert PartsOf(sections, cfg, parts);
  }

  /** Called with any configuration whatever, chunking keeps every document's chunks within the
      limit exactly when the overlap is positive, or the size too small for any block. */
  lemma BoundExactlyWithOverlap(cfg: Config)
    ensures AlwaysBounded(cfg) <==> cfg.chunkOverlap > 0 || cfg.chunkSize < 2
  {
    if cfg.chunkOverlap > 0 || cfg.chunkSize < 2 {
      forall doc, chunks, origins, sections | Chunked(doc, cfg, chunks, origins, sections)
        ensures Bounded(chunks, origins, cfg)
      {
        ChunksBounded(doc, cfg, chunks, origins, sections);
      }
    } else {
      var doc, chunks, origins, sections := NoOverlapNoBound(cfg);
    }
  }

  // ---- what the program can load --------------------------------------------------------------------------

  const DEFAULT_CHUNK_SIZE := 1500
  const DEFAULT_CHUNK_OVERLAP := 120
  const DEFAULT_TOP_K := 6
  const DEFAULT_MIN_SCORE := 0.35
  const MIN_CHUNK_SIZE := 200

  datatype ConfigError =
    | ChunkSizeTooSmall(size: int)
    | OverlapOutOfRange(overlap: int)
    | TopKNotPositive
    | MinScoreOutOfRange

  /** The knowledge section of the configuration file. */
  class KnowledgeConfig {
    var chunkSize: int
    var chunkOverlap: int
    var topK: int
    var minScore: real
    var passagePrefix: string
    var queryPrefix: string

    constructor (chunkSize: int, chunkOverlap: int, topK: int, minScore: real, passagePrefix: string,
                 queryPrefix: string)
      ensures Chunking() == Config(chunkSize, chunkOverlap) && this.topK == topK && this.minScore == minScore
      ensures this.passagePrefix == passagePrefix && this.queryPrefix == queryPrefix
    {
      this.chunkSize, this.chunkOverlap, this.topK, this.minScore := chunkSize, chunkOverlap, topK, minScore;
      this.passagePrefix, this.queryPrefix := passagePrefix, queryPrefix;
    }

    function Chunking(): Config
      reads this
    {
      Config(chunkSize, chunkOverlap)
    }

    /** Unset fields, and only those, have got their defaults. */
    twostate predicate Defaulted()
      reads this
    {
      && chunkSize == (if old(chunkSize) == 0 then DEFAULT_CHUNK_SIZE else old(chunkSize))
      && chunkOverlap == (if old(chunkOverlap) == 0 then DEFAULT_CHUNK_OVERLAP else old(chunkOverlap))
      && topK == (if old(topK) == 0 then DEFAULT_TOP_K else old(topK))
      && minScore == (if old(minScore) == 0.0 then DEFAULT_MIN_SCORE else old(minScore))
      && passagePrefix == (if old(passagePrefix) == "" then "passage:" else old(passagePrefix))
      && queryPrefix == (if old(queryPrefix) == "" then "query:" else old(queryPrefix))
    }

    method ApplyDefaults()
      modifies this
      ensures Defaulted()
    {
      if chunkSize == 0 {
        chunkSize := DEFAULT_CHUNK_SIZE;
      }
      if chunkOverlap == 0 {
        chunkOverlap := DEFAULT_CHUNK_OVERLAP;
      }
      if topK == 0 {
        topK := DEFAULT_TOP_K;
      }
      if minScore == 0.0 {
        minScore := DEFAULT_MIN_SCORE;
      }
      if passagePrefix == "" {
        passagePrefix := "passage:";
      }
      if queryPrefix == "" {
        queryPrefix := "query:";
      }
    }

    predicate InRange()
      reads this
    {
      MIN_CHUNK_SIZE <= chunkSize && 0 <= chunkOverlap < chunkSize && 0 < topK && 0.0 <= minScore <= 1.0
    }

    method Validate() returns (err: Option<ConfigError>)
      ensures err.None? <==> InRange()
      ensures err == Some(ChunkSizeTooSmall(chunkSize)) <==> chunkSize < MIN_CHUNK_SIZE
      ensures err == Some(OverlapOutOfRange(chunkOverlap)) <==>
                MIN_CHUNK_SIZE <= chunkSize && !(0 <= chunkOverlap < chunkSize)
      ensures err == Some(TopKNotPositive) <==>
                MIN_CHUNK_SIZE <= chunkSize && 0 <= chunkOverlap < chunkSize && topK <= 0
    {
      if chunkSize < MIN_CHUNK_SIZE {
        return Some(ChunkSizeTooSmall(chunkSize));
      }
      if chunkOverlap < 0 || chunkOverlap >= chunkSize {
        return Some(OverlapOutOfRange(chunkOverlap));
      }
      if topK <= 0 {
        return Some(TopKNotPositive);
      }
      if minScore < 0.0 || minScore > 1.0 {
        return Some(MinScoreOutOfRange);
      }
      return None;
    }

    /** Defaults, then validation: whatever the file says, an accepted configuration is the file's
        own with the defaults filled in, is in range, and has a positive overlap. */
    method Load() returns (err: Option<ConfigError>)
      modifies this
      ensures Defaulted() && (err.None? <==> InRange())
      ensures err.None? ==> chunkOverlap > 0 && AlwaysBounded(Chunking())
    {
      ApplyDefaults();
      err := Validate();
      BoundExactlyWithOverlap(Chunking());
    }
  }

  /** Chunking a document as the program does it, with a configuration it loaded: every chunk
      that is not a single oversized block has at most chunk size plus overlap characters. */
  method ImportDocument(config: KnowledgeConfig, doc: Document)
    returns (err: Option<ConfigError>, chunks: seq<Chunk>, ghost origins: seq<Origin>, ghost sections: seq<Section>)
    modifies config
    ensures config.Defaulted() && (err.None? <==> config.InRange())
    ensures err.None? ==> Chunked(doc, config.Chunking(), chunks, origins, sections)
    ensures err.None? ==> |origins| == |chunks|
    ensures err.None? ==> forall i :: 0 <= i < |chunks| && !Oversized(origins[i], config.Chunking()) ==>
              |chunks[i].content| <= config.chunkSize + config.chunkOverlap
    ensures err.None? ==> NonBlank(Groups(origins)) == NonBlank(doc.blocks)
    ensures err.None? && (forall b :: b in doc.blocks ==> !Blank(b.text)) ==> NonBlank(Groups(origins)) == doc.blocks
    ensures err.Some? ==> chunks == []
  {
    chunks, origins, sections := [], [], [];
    err := config.Load();
    if err.None? {
      chunks, origins, sections := ChunkDocument(Some(doc), config.Chunking());
      assert Chunked(doc, config.Chunking(), chunks, origins, sections);
      if forall b :: b in doc.blocks ==> !Blank(b.text) {
        NonBlankWhole(doc.blocks);
      }
    }
  }

  /** Scanned blocks are never blank, so all of them land. */
  lemma {:induction false} NonBlankWhole(blocks: seq<Block>)
    requires forall b :: b in blocks ==> !Blank(b.text)
    ensures NonBlank(blocks) == blocks
    decreases |blocks|
  {
    if blocks != [] {
      NonBlankWhole(blocks[..|blocks| - 1]);
    }
  }
}
